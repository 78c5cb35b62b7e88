/**
 * How long a delivery can take when the runtime is prompt: the clock never passes a moment at which
 * a timer is due, a link may start or a link may settle.
 */
module EventBusTiming {
  import opened DomainEvents
  import opened EventBus

  /** Time from the start of a link to the end of the back-off after `n` failed attempts, at most. */
  function Spent(sub: Subscription, n: nat): (r: nat) {
    if n == 0 then 0 else Spent(sub, n - 1) + sub.timeoutMs + Delay(sub.backoffMs, n - 1)
  }

  /** The longest one target can take. */
  function Budget(sub: Subscription): nat {
    Spent(sub, sub.retries) + sub.timeoutMs
  }

  function Pow2(n: nat): nat {
    if n == 0 then 1 else 2 * Pow2(n - 1)
  }

  lemma {:induction false} DelayFormula(backoffMs: nat, n: nat)
    ensures Delay(backoffMs, n) == backoffMs * Pow2(n)
  {
    if n > 0 {
      DelayFormula(backoffMs, n - 1);
      var p := Pow2(n - 1);
      assert 2 * (backoffMs * p) == backoffMs * (2 * p);
    }
  }

  lemma {:induction false} SpentFormula(sub: Subscription, n: nat)
    ensures Spent(sub, n) == n * sub.timeoutMs + Delay(sub.backoffMs, n) - sub.backoffMs
  {
    if n > 0 {
      SpentFormula(sub, n - 1);
      assert n * sub.timeoutMs == (n - 1) * sub.timeoutMs + sub.timeoutMs;
    }
  }

  /** (retries + 1) * timeoutMs + backoffMs * (2^retries - 1) */
  lemma BudgetFormula(sub: Subscription)
    ensures Budget(sub) == (sub.retries + 1) * sub.timeoutMs + sub.backoffMs * (Pow2(sub.retries) - 1)
  {
    SpentFormula(sub, sub.retries);
    DelayFormula(sub.backoffMs, sub.retries);
  }

  lemma {:induction false} SpentGrows(sub: Subscription, m: nat, n: nat)
    requires m <= n
    ensures Spent(sub, m) <= Spent(sub, n)
    decreases n
  {
    if m < n {
      SpentGrows(sub, m, n - 1);
    }
  }

  function MaxBudget(targets: seq<Subscription>): (r: nat)
    ensures forall i | 0 <= i < |targets| :: Budget(targets[i]) <= r
  {
    if targets == [] then 0
    else
      var rest := MaxBudget(targets[1..]);
      assert forall i | 1 <= i < |targets| :: targets[i] == targets[1..][i - 1];
      if Budget(targets[0]) > rest then Budget(targets[0]) else rest
  }

  // ----- promptness -----

  predicate TargetNotDue(t: TargetState, until: nat) {
    && (t.Attempting? ==> until <= t.deadline)
    && (t.BackingOff? ==> until <= t.due)
  }

  ghost predicate NotDue(links: seq<Link>, k: nat, until: nat)
    requires k < |links|
  {
    && (links[k].phase.Waiting? ==> !Ready(links, k))
    && (links[k].phase.Running? ==>
          !links[k].AllDone()
          && forall i | 0 <= i < |links[k].progress| :: TargetNotDue(links[k].progress[i], until))
  }

  ghost predicate NothingDue(links: seq<Link>, until: nat) {
    forall k | 0 <= k < |links| :: NotDue(links, k, until)
  }

  ghost predicate Prompt(s: State, a: Action) {
    a.Advance? && a.ms > 0 ==> NothingDue(s.links, s.now + a.ms)
  }

  // ----- the timing invariant -----

  /** A running target is on schedule, counted from the start of its link. */
  predicate OnSchedule(sub: Subscription, t: TargetState, startedAt: nat, now: nat) {
    && (t.Attempting? ==> now <= t.deadline <= startedAt + Spent(sub, t.attempt) + sub.timeoutMs)
    && (t.BackingOff? ==> now <= t.due <= startedAt + Spent(sub, t.attempt + 1))
  }

  predicate LinkOnTime(link: Link, now: nat) {
    && link.publishedAt <= now
    && (link.phase.Settled? ==> link.phase.settledAt <= now)
    && (link.phase.Running? ==>
          && link.phase.startedAt <= now <= link.phase.startedAt + MaxBudget(link.targets)
          && |link.targets| == |link.progress|
          && forall i | 0 <= i < |link.progress| ::
               OnSchedule(link.targets[i], link.progress[i], link.phase.startedAt, now))
  }

  function Later(a: nat, b: nat): nat { if a > b then a else b }

  /** The moment a link that may start became able to. */
  function ReadyAt(links: seq<Link>, k: nat): nat
    requires k < |links|
  {
    var p := links[k].previous;
    if p.Some? && p.value < |links| && links[p.value].phase.Settled?
    then Later(links[k].publishedAt, links[p.value].phase.settledAt)
    else links[k].publishedAt
  }

  predicate StartsOnTime(links: seq<Link>, k: nat, now: nat)
    requires k < |links|
  {
    links[k].phase.Waiting? && Ready(links, k) ==> now <= ReadyAt(links, k)
  }

  ghost predicate OnTime(s: State) {
    && (forall k | 0 <= k < |s.links| :: LinkOnTime(s.links[k], s.now))
    && (forall k | 0 <= k < |s.links| :: StartsOnTime(s.links, k, s.now))
  }

  /** One link moved to another stage at the current instant; its new stage is on time. */
  lemma StageKeepsOnTime(s: State, k: nat, link: Link)
    requires OnTime(s) && k < |s.links| && LinkOnTime(link, s.now)
    requires link.previous == s.links[k].previous && link.publishedAt == s.links[k].publishedAt
    requires link.phase.Waiting? ==> s.links[k].phase.Waiting?
    requires s.links[k].phase.Settled? ==> link.phase == s.links[k].phase
    requires link.phase.Settled? && !s.links[k].phase.Settled? ==> link.phase.settledAt == s.now
    ensures OnTime(s.(links := s.links[k := link]))
  {
    var links' := s.links[k := link];
    forall j | 0 <= j < |links'| ensures StartsOnTime(links', j, s.now) {
      assert StartsOnTime(s.links, j, s.now);
    }
  }

  lemma PublishKeepsOnTime(s: State, event: DomainEvent)
    requires Inv(s) && OnTime(s)
    ensures OnTime(AfterPublish(s, event))
  {
    var s' := AfterPublish(s, event);
    forall j | 0 <= j < |s'.links| ensures StartsOnTime(s'.links, j, s.now) {
      if j < |s.links| {
        assert StartsOnTime(s.links, j, s.now);
        assert Chained(s.links, j);
      }
    }
  }

  lemma StartKeepsOnTime(s: State, k: nat)
    requires Inv(s) && OnTime(s) && Enabled(s, Start(k))
    ensures OnTime(AfterStart(s, k))
  {
    assert LinkOnTime(s.links[k], s.now);
    StageKeepsOnTime(s, k, AfterStart(s, k).links[k]);
  }

  lemma TargetStepKeepsOnTime(s: State, k: nat, i: nat, t: TargetState)
    requires OnTime(s) && HasTarget(s, k, i) && s.links[k].phase.Running?
    requires OnSchedule(s.links[k].targets[i], t, s.links[k].phase.startedAt, s.now)
    ensures OnTime(WithProgress(s, k, i, t))
  {
    assert LinkOnTime(s.links[k], s.now);
    var link := s.links[k].(progress := s.links[k].progress[i := t]);
    forall j | 0 <= j < |link.progress| ensures OnSchedule(link.targets[j], link.progress[j], link.phase.startedAt, s.now) {
      assert OnSchedule(s.links[k].targets[j], s.links[k].progress[j], link.phase.startedAt, s.now) || j == i;
    }
    StageKeepsOnTime(s, k, link);
  }

  lemma TargetIsOnSchedule(s: State, k: nat, i: nat)
    requires OnTime(s) && HasTarget(s, k, i) && s.links[k].phase.Running?
    ensures OnSchedule(s.links[k].targets[i], s.links[k].progress[i], s.links[k].phase.startedAt, s.now)
  {
    assert LinkOnTime(s.links[k], s.now);
  }

  lemma FailureOnSchedule(sub: Subscription, t: TargetState, startedAt: nat, now: nat)
    requires t.Attempting? && OnSchedule(sub, t, startedAt, now)
    ensures OnSchedule(sub, AfterFailure(sub, t.attempt, now), startedAt, now)
  {
    assert Spent(sub, t.attempt + 1) == Spent(sub, t.attempt) + sub.timeoutMs + Delay(sub.backoffMs, t.attempt);
  }

  lemma SameLinksSameTime(s: State, s': State)
    requires OnTime(s) && s'.links == s.links && s'.now == s.now
    ensures OnTime(s')
  {
  }

  lemma FailedTargetKeepsOnTime(s: State, k: nat, i: nat, t: TargetState)
    requires OnTime(s) && HasTarget(s, k, i) && s.links[k].phase.Running? && s.links[k].progress[i].Attempting?
    requires t == AfterFailure(s.links[k].targets[i], s.links[k].progress[i].attempt, s.now)
    requires OnSchedule(s.links[k].targets[i], t, s.links[k].phase.startedAt, s.now)
    ensures OnTime(AfterFailed(s, k, i))
  {
    TargetStepKeepsOnTime(s, k, i, t);
    SameLinksSameTime(WithProgress(s, k, i, t), AfterFailed(s, k, i));
  }

  lemma TimeoutKeepsOnTime(s: State, k: nat, i: nat)
    requires Inv(s) && OnTime(s) && Enabled(s, TimerFires(k, i))
    ensures OnTime(Apply(s, TimerFires(k, i)))
  {
    var s1 := s.(counters := s.counters.(timedOut := s.counters.timedOut + 1));
    SameLinksSameTime(s, s1);
    FailureKeepsOnTime(s1, k, i);
  }

  lemma FailureKeepsOnTime(s: State, k: nat, i: nat)
    requires Inv(s) && OnTime(s) && HasTarget(s, k, i) && s.links[k].progress[i].Attempting?
    ensures OnTime(AfterFailed(s, k, i))
  {
    BusyIsRunning(s, k, i);
    TargetIsOnSchedule(s, k, i);
    var sub, t := s.links[k].targets[i], s.links[k].progress[i];
    FailureOnSchedule(sub, t, s.links[k].phase.startedAt, s.now);
    FailedTargetKeepsOnTime(s, k, i, AfterFailure(sub, t.attempt, s.now));
  }

  lemma RetryKeepsOnTime(s: State, k: nat, i: nat)
    requires Inv(s) && OnTime(s) && Enabled(s, BackoffOver(k, i))
    ensures OnTime(Apply(s, BackoffOver(k, i)))
  {
    BusyIsRunning(s, k, i);
    assert LinkOnTime(s.links[k], s.now);
    var sub, t := s.links[k].targets[i], s.links[k].progress[i];
    assert OnSchedule(sub, t, s.links[k].phase.startedAt, s.now);
    TargetStepKeepsOnTime(s, k, i, Begin(sub, t.attempt + 1, s.now));
  }

  /** An unfinished target keeps its link within the budget. */
  lemma AdvanceKeepsLink(link: Link, now: nat, later: nat)
    requires link.Coherent() && LinkOnTime(link, now) && now <= later
    requires link.phase.Running? ==>
      !link.AllDone() && forall i | 0 <= i < |link.progress| :: TargetNotDue(link.progress[i], later)
    ensures LinkOnTime(link, later)
  {
    if link.phase.Running? {
      var i :| 0 <= i < |link.progress| && !link.progress[i].Done();
      var sub, t := link.targets[i], link.progress[i];
      assert TargetNotDue(t, later) && OnSchedule(sub, t, link.phase.startedAt, now) && InRange(sub, t);
      if t.Attempting? {
        SpentGrows(sub, t.attempt, sub.retries);
      } else {
        SpentGrows(sub, t.attempt + 1, sub.retries);
      }
      assert Budget(sub) <= MaxBudget(link.targets);
      forall j | 0 <= j < |link.progress| ensures OnSchedule(link.targets[j], link.progress[j], link.phase.startedAt, later) {
        assert OnSchedule(link.targets[j], link.progress[j], link.phase.startedAt, now);
        assert TargetNotDue(link.progress[j], later);
      }
    }
  }

  lemma AdvanceKeepsOnTime(s: State, ms: nat)
    requires Inv(s) && OnTime(s) && Prompt(s, Advance(ms))
    ensures OnTime(s.(now := s.now + ms))
  {
    if ms > 0 {
      forall k | 0 <= k < |s.links|
        ensures LinkOnTime(s.links[k], s.now + ms) && StartsOnTime(s.links, k, s.now + ms)
      {
        assert s.links[k].Coherent() && NotDue(s.links, k, s.now + ms) && LinkOnTime(s.links[k], s.now);
        AdvanceKeepsLink(s.links[k], s.now, s.now + ms);
      }
    }
  }

  lemma SettleKeepsOnTime(s: State, k: nat)
    requires OnTime(s) && Enabled(s, Settle(k))
    ensures OnTime(Apply(s, Settle(k)))
  {
    assert LinkOnTime(s.links[k], s.now);
    StageKeepsOnTime(s, k, s.links[k].(phase := Settled(s.now)));
  }

  lemma CleanUpKeepsOnTime(s: State, k: nat)
    requires OnTime(s) && Enabled(s, CleanUp(k))
    ensures OnTime(AfterCleanUp(s, k))
  {
    assert LinkOnTime(s.links[k], s.now);
    StageKeepsOnTime(s, k, s.links[k].(cleaned := true));
  }

  lemma DeliveryKeepsOnTime(s: State, k: nat, i: nat)
    requires Inv(s) && OnTime(s) && Enabled(s, AttemptOk(k, i))
    ensures OnTime(Apply(s, AttemptOk(k, i)))
  {
    BusyIsRunning(s, k, i);
    TargetStepKeepsOnTime(s, k, i, Delivered);
  }

  lemma StepKeepsOnTime(s: State, a: Action)
    requires Inv(s) && OnTime(s) && Enabled(s, a) && Prompt(s, a)
    ensures OnTime(Apply(s, a))
  {
    match a
    case Publish(event) => PublishKeepsOnTime(s, event);
    case Advance(ms) => AdvanceKeepsOnTime(s, ms);
    case Start(k) => StartKeepsOnTime(s, k);
    case Settle(k) => SettleKeepsOnTime(s, k);
    case CleanUp(k) => CleanUpKeepsOnTime(s, k);
    case AttemptOk(k, i) => DeliveryKeepsOnTime(s, k, i);
    case AttemptFail(k, i) => FailureKeepsOnTime(s, k, i);
    case TimerFires(k, i) => TimeoutKeepsOnTime(s, k, i);
    case BackoffOver(k, i) => RetryKeepsOnTime(s, k, i);
    case Unsubscribe(id) => SameLinksSameTime(s, Apply(s, a));
    case Subscribe(pattern, retries, backoffMs, timeoutMs) => SameLinksSameTime(s, Apply(s, a));
  }

  // ----- when a link is done -----

  /** The latest moment at which link `k` settles, seen from the present state. */
  function DoneBy(links: seq<Link>, k: nat): nat
    requires k < |links|
    decreases k
  {
    match links[k].phase
    case Settled(at) => at
    case Running(at) => at + MaxBudget(links[k].targets)
    case Waiting => ReadyBy(links, k) + MaxBudget(links[k].targets)
  }

  function ReadyBy(links: seq<Link>, k: nat): nat
    requires k < |links|
    decreases k, 0
  {
    var p := links[k].previous;
    if p.Some? && p.value < k then Later(links[k].publishedAt, DoneBy(links, p.value)) else links[k].publishedAt
  }

  /** An open link is never late. */
  lemma {:induction false} OpenIsInTime(s: State, k: nat)
    requires Inv(s) && OnTime(s) && k < |s.links| && !s.links[k].phase.Settled?
    ensures s.now <= DoneBy(s.links, k)
    decreases k, 1
  {
    if s.links[k].phase.Running? {
      assert LinkOnTime(s.links[k], s.now);
    } else {
      WaitingIsInTime(s, k);
    }
  }

  lemma {:induction false} WaitingIsInTime(s: State, k: nat)
    requires Inv(s) && OnTime(s) && k < |s.links| && s.links[k].phase.Waiting?
    ensures s.now <= ReadyBy(s.links, k)
    decreases k, 0
  {
    assert StartsOnTime(s.links, k, s.now) && Chained(s.links, k);
    if s.links[k].previous.Some? {
      var p := s.links[k].previous.value;
      if s.links[p].phase.Settled? {
        assert DoneBy(s.links, p) == s.links[p].phase.settledAt;
      } else {
        OpenIsInTime(s, p);
      }
    }
  }

  /** A waiting link that may start has its start bound ahead of it. */
  lemma ReadyIsInTime(s: State, k: nat)
    requires Inv(s) && OnTime(s) && Enabled(s, Start(k))
    ensures s.now <= ReadyBy(s.links, k)
  {
    WaitingIsInTime(s, k);
  }

  /** No step pushes the bound of any link back. */
  lemma {:induction false} BoundNeverGrows(s: State, a: Action, k: nat)
    requires Inv(s) && OnTime(s) && Enabled(s, a) && k < |s.links|
    ensures k < |Apply(s, a).links| && DoneBy(Apply(s, a).links, k) <= DoneBy(s.links, k)
    decreases k
  {
    StageOnly(s, a, k);
    var links' := Apply(s, a).links;
    if links'[k].phase.Waiting? {
      if links'[k].previous.Some? && links'[k].previous.value < k {
        BoundNeverGrows(s, a, links'[k].previous.value);
      }
    } else if a == Start(k) {
      ReadyIsInTime(s, k);
    } else if a == Settle(k) {
      assert LinkOnTime(s.links[k], s.now);
    }
  }

  /** What a step can do to the phase of one link. */
  lemma StageOnly(s: State, a: Action, k: nat)
    requires Enabled(s, a) && k < |s.links|
    ensures k < |Apply(s, a).links|
    ensures var l, l' := s.links[k], Apply(s, a).links[k];
      && l'.previous == l.previous && l'.publishedAt == l.publishedAt && l'.targets == l.targets && l'.lane == l.lane
      && (l'.phase == l.phase
          || (a == Start(k) && l'.phase == Running(s.now))
          || (a == Settle(k) && l.phase.Running? && l'.phase == Settled(s.now)))
  {
  }

  // ----- runs -----

  ghost predicate IsPromptRun(s: State, run: seq<Action>)
    requires IsRun(s, run)
    decreases |run|
  {
    run == [] || (Prompt(s, run[0]) && IsPromptRun(Apply(s, run[0]), run[1..]))
  }

  /** The total of the slowest targets, over the links of a lane that are still open among the first `n`. */
  function LaneLoad(links: seq<Link>, lane: string, n: nat): nat
    requires n <= |links|
  {
    if n == 0 then 0
    else
      var l := links[n - 1];
      LaneLoad(links, lane, n - 1) + (if l.lane == lane && !l.phase.Settled? then MaxBudget(l.targets) else 0)
  }

  lemma {:induction false} LoadGrows(links: seq<Link>, lane: string, m: nat, n: nat)
    requires m <= n <= |links|
    ensures LaneLoad(links, lane, m) <= LaneLoad(links, lane, n)
    decreases n
  {
    if m < n {
      LoadGrows(links, lane, m, n - 1);
    }
  }

  lemma {:induction false} DoneWithinLoad(s: State, k: nat)
    requires Inv(s) && OnTime(s) && k < |s.links|
    ensures DoneBy(s.links, k) <= s.now + LaneLoad(s.links, s.links[k].lane, k + 1)
    decreases k, 1
  {
    assert LinkOnTime(s.links[k], s.now);
    assert LaneLoad(s.links, s.links[k].lane, k + 1) == LaneLoad(s.links, s.links[k].lane, k)
      + if s.links[k].phase.Settled? then 0 else MaxBudget(s.links[k].targets);
    if s.links[k].phase.Waiting? {
      ReadyWithinLoad(s, k);
    }
  }

  lemma PublishedInPast(s: State, k: nat)
    requires OnTime(s) && k < |s.links|
    ensures s.links[k].publishedAt <= s.now
  {
    assert LinkOnTime(s.links[k], s.now);
  }

  lemma PreviousInLane(s: State, k: nat)
    requires Inv(s) && k < |s.links| && s.links[k].previous.Some?
    ensures s.links[k].previous.value < k && s.links[s.links[k].previous.value].lane == s.links[k].lane
  {
    assert Chained(s.links, k) && SameLane(s.links, s.links[k].previous.value, k);
  }

  lemma {:induction false} ReadyWithinLoad(s: State, k: nat)
    requires Inv(s) && OnTime(s) && k < |s.links| && s.links[k].phase.Waiting?
    ensures ReadyBy(s.links, k) <= s.now + LaneLoad(s.links, s.links[k].lane, k)
    decreases k, 0
  {
    PublishedInPast(s, k);
    if s.links[k].previous.Some? {
      PreviousInLane(s, k);
      var p := s.links[k].previous.value;
      PreviousWithinLoad(s, p, k);
    }
  }

  lemma {:induction false} PreviousWithinLoad(s: State, p: nat, k: nat)
    requires Inv(s) && OnTime(s) && p < k < |s.links| && s.links[p].lane == s.links[k].lane
    ensures DoneBy(s.links, p) <= s.now + LaneLoad(s.links, s.links[k].lane, k)
    decreases p, 2
  {
    DoneWithinLoad(s, p);
    LoadGrows(s.links, s.links[k].lane, p + 1, k);
  }

  lemma {:induction false} RunStaysInBound(s: State, run: seq<Action>, k: nat)
    requires Inv(s) && OnTime(s) && IsRun(s, run) && IsPromptRun(s, run) && k < |s.links|
    ensures var s' := After(s, run);
      && Inv(s') && OnTime(s') && k < |s'.links| && DoneBy(s'.links, k) <= DoneBy(s.links, k)
    decreases |run|
  {
    if run != [] {
      BoundNeverGrows(s, run[0], k);
      StepKeepsInv(s, run[0]);
      StepKeepsOnTime(s, run[0]);
      RunStaysInBound(Apply(s, run[0]), run[1..], k);
    }
  }

  lemma {:induction false} PromptRunOnTime(s: State, run: seq<Action>)
    requires Inv(s) && OnTime(s) && IsRun(s, run) && IsPromptRun(s, run)
    ensures Inv(After(s, run)) && OnTime(After(s, run))
    decreases |run|
  {
    if run != [] {
      StepKeepsInv(s, run[0]);
      StepKeepsOnTime(s, run[0]);
      PromptRunOnTime(Apply(s, run[0]), run[1..]);
    }
  }

  /**
   * A lane's queue drains in time: counted from any moment of a prompt run, a link settles within the
   * sum, over the links of its lane that are then open up to it, of their slowest targets' budgets.
   */
  lemma LaneSettlesInTime(early: seq<Action>, late: seq<Action>, k: nat)
    requires IsRun(Initial, early) && IsPromptRun(Initial, early)
    requires IsRun(After(Initial, early), late) && IsPromptRun(After(Initial, early), late)
    requires k < |After(Initial, early).links|
    ensures var s, s' := After(Initial, early), After(After(Initial, early), late);
      && k < |s'.links|
      && (if s'.links[k].phase.Settled? then s'.links[k].phase.settledAt else s'.now)
         <= s.now + LaneLoad(s.links, s.links[k].lane, k + 1)
  {
    var s := After(Initial, early);
    PromptRunOnTime(Initial, early);
    RunStaysInBound(s, late, k);
    DoneWithinLoad(s, k);
    if !After(s, late).links[k].phase.Settled? {
      OpenIsInTime(After(s, late), k);
    }
  }

  /**
   * One target: while it is unfinished in a prompt run, no more than
   * (retries + 1) * timeoutMs + backoffMs * (2^retries - 1) have passed since its link started.
   */
  lemma TargetSettlesInTime(run: seq<Action>, k: nat, i: nat)
    requires IsRun(Initial, run) && IsPromptRun(Initial, run)
    requires var s := After(Initial, run);
      HasTarget(s, k, i) && s.links[k].phase.Running? && !s.links[k].progress[i].Done()
    ensures var s := After(Initial, run); var sub := s.links[k].targets[i];
      s.now - s.links[k].phase.startedAt
      <= (sub.retries + 1) * sub.timeoutMs + sub.backoffMs * (Pow2(sub.retries) - 1)
  {
    PromptRunOnTime(Initial, run);
    var s := After(Initial, run);
    var sub, t := s.links[k].targets[i], s.links[k].progress[i];
    assert s.links[k].Coherent() && LinkOnTime(s.links[k], s.now);
    assert OnSchedule(sub, t, s.links[k].phase.startedAt, s.now) && InRange(sub, t);
    BudgetFormula(sub);
    if t.Attempting? {
      SpentGrows(sub, t.attempt, sub.retries);
    } else {
      SpentGrows(sub, t.attempt + 1, sub.retries);
    }
  }
}
