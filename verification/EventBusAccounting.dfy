/**
 * The bus's books: what the counters say about every (event, target) pair, how often a pair is
 * attempted, and how much work is left before `drain` can return.
 */
module EventBusAccounting {
  import opened DomainEvents
  import opened EventBus

  datatype Kind = StillOpen | WasDelivered | WasFailed

  function KindOf(t: TargetState): Kind {
    if t.Delivered? then WasDelivered else if t.GaveUp? then WasFailed else StillOpen
  }

  /** How many targets of one link are of a kind. */
  function CountIn(progress: seq<TargetState>, kind: Kind): nat {
    if progress == [] then 0
    else CountIn(progress[..|progress| - 1], kind) + (if KindOf(progress[|progress| - 1]) == kind then 1 else 0)
  }

  /** How many (event, target) pairs are of a kind. */
  function CountAll(links: seq<Link>, kind: Kind): nat {
    if links == [] then 0
    else CountAll(links[..|links| - 1], kind) + CountIn(links[|links| - 1].progress, kind)
  }

  /** The sum, over the published events, of the subscriptions that matched when they were published. */
  function Expected(history: seq<Publication>): nat {
    if history == [] then 0
    else
      var p := history[|history| - 1];
      Expected(history[..|history| - 1]) + |TargetsOf(p.subscriptions, p.event)|
  }

  function PairsIn(links: seq<Link>): nat {
    if links == [] then 0 else PairsIn(links[..|links| - 1]) + |links[|links| - 1].progress|
  }

  ghost predicate Balanced(s: State) {
    && s.counters.published == |s.history|
    && s.counters.delivered == CountAll(s.links, WasDelivered)
    && s.counters.failed == CountAll(s.links, WasFailed)
    && PairsIn(s.links) == Expected(s.history)
  }

  function One(b: bool): int { if b then 1 else 0 }

  lemma {:induction false} CountInUpdate(progress: seq<TargetState>, i: nat, t: TargetState, kind: Kind)
    requires i < |progress|
    ensures CountIn(progress[i := t], kind)
         == CountIn(progress, kind) - One(KindOf(progress[i]) == kind) + One(KindOf(t) == kind)
  {
    var n := |progress| - 1;
    var front := progress[..n];
    if i == n {
      assert progress[i := t][..n] == front;
    } else {
      assert progress[i := t][..n] == front[i := t];
      CountInUpdate(front, i, t, kind);
    }
  }

  lemma {:induction false} CountAllUpdate(links: seq<Link>, k: nat, link: Link, kind: Kind)
    requires k < |links|
    ensures CountAll(links[k := link], kind)
         == CountAll(links, kind) - CountIn(links[k].progress, kind) + CountIn(link.progress, kind)
  {
    var n := |links| - 1;
    var front := links[..n];
    if k == n {
      assert links[k := link][..n] == front;
    } else {
      assert links[k := link][..n] == front[k := link];
      CountAllUpdate(front, k, link, kind);
    }
  }

  lemma {:induction false} PairsUpdate(links: seq<Link>, k: nat, link: Link)
    requires k < |links| && |link.progress| == |links[k].progress|
    ensures PairsIn(links[k := link]) == PairsIn(links)
  {
    var n := |links| - 1;
    var front := links[..n];
    if k == n {
      assert links[k := link][..n] == front;
    } else {
      assert links[k := link][..n] == front[k := link];
      PairsUpdate(front, k, link);
    }
  }

  lemma {:induction false} OpenOnly(progress: seq<TargetState>, kind: Kind)
    requires forall i | 0 <= i < |progress| :: KindOf(progress[i]) == StillOpen
    ensures CountIn(progress, kind) == (if kind == StillOpen then |progress| else 0)
  {
    if progress != [] {
      OpenOnly(progress[..|progress| - 1], kind);
    }
  }

  lemma {:induction false} KindsCover(progress: seq<TargetState>)
    ensures CountIn(progress, StillOpen) + CountIn(progress, WasDelivered) + CountIn(progress, WasFailed) == |progress|
  {
    if progress != [] {
      KindsCover(progress[..|progress| - 1]);
    }
  }

  lemma {:induction false} KindsCoverAll(links: seq<Link>)
    ensures CountAll(links, StillOpen) + CountAll(links, WasDelivered) + CountAll(links, WasFailed) == PairsIn(links)
  {
    if links != [] {
      KindsCoverAll(links[..|links| - 1]);
      KindsCover(links[|links| - 1].progress);
    }
  }

  /** Moving one target changes the totals by that target only. */
  lemma MoveTarget(s: State, k: nat, i: nat, t: TargetState, kind: Kind)
    requires HasTarget(s, k, i)
    ensures CountAll(WithProgress(s, k, i, t).links, kind)
         == CountAll(s.links, kind) - One(KindOf(s.links[k].progress[i]) == kind) + One(KindOf(t) == kind)
    ensures PairsIn(WithProgress(s, k, i, t).links) == PairsIn(s.links)
  {
    var link := s.links[k].(progress := s.links[k].progress[i := t]);
    CountInUpdate(s.links[k].progress, i, t, kind);
    CountAllUpdate(s.links, k, link, kind);
    PairsUpdate(s.links, k, link);
  }

  /** Replacing a link by one with the same number of targets of each kind changes no total. */
  lemma SameCounts(links: seq<Link>, k: nat, link: Link)
    requires k < |links| && |link.progress| == |links[k].progress|
    requires forall kind :: CountIn(link.progress, kind) == CountIn(links[k].progress, kind)
    ensures forall kind :: CountAll(links[k := link], kind) == CountAll(links, kind)
    ensures PairsIn(links[k := link]) == PairsIn(links)
  {
    forall kind ensures CountAll(links[k := link], kind) == CountAll(links, kind) {
      CountAllUpdate(links, k, link, kind);
    }
    PairsUpdate(links, k, link);
  }

  lemma PublishKeepsBalance(s: State, event: DomainEvent)
    requires Balanced(s)
    ensures Balanced(AfterPublish(s, event))
  {
    var s' := AfterPublish(s, event);
    ExpectedSnoc(s.history, Publication(event, s.subscriptions));
    if TargetsOf(s.subscriptions, event) != [] {
      var link := s'.links[|s.links|];
      CountSnoc(s.links, link, WasDelivered);
      CountSnoc(s.links, link, WasFailed);
      OpenOnly(link.progress, WasDelivered);
      OpenOnly(link.progress, WasFailed);
    }
  }

  lemma ExpectedSnoc(history: seq<Publication>, p: Publication)
    ensures Expected(history + [p]) == Expected(history) + |TargetsOf(p.subscriptions, p.event)|
  {
    assert (history + [p])[..|history|] == history;
  }

  lemma CountSnoc(links: seq<Link>, link: Link, kind: Kind)
    ensures CountAll(links + [link], kind) == CountAll(links, kind) + CountIn(link.progress, kind)
    ensures PairsIn(links + [link]) == PairsIn(links) + |link.progress|
  {
    assert (links + [link])[..|links|] == links;
  }

  lemma StartKeepsBalance(s: State, k: nat)
    requires Inv(s) && Balanced(s) && Enabled(s, Start(k))
    ensures Balanced(AfterStart(s, k))
  {
    assert s.links[k].Coherent();
    var link := AfterStart(s, k).links[k];
    forall kind ensures CountIn(link.progress, kind) == CountIn(s.links[k].progress, kind) {
      OpenOnly(link.progress, kind);
      OpenOnly(s.links[k].progress, kind);
    }
    SameCounts(s.links, k, link);
  }

  lemma FailureKeepsBalance(s: State, k: nat, i: nat)
    requires Balanced(s) && HasTarget(s, k, i) && s.links[k].progress[i].Attempting?
    ensures Balanced(AfterFailed(s, k, i))
  {
    var t := AfterFailure(s.links[k].targets[i], s.links[k].progress[i].attempt, s.now);
    MoveTarget(s, k, i, t, WasDelivered);
    MoveTarget(s, k, i, t, WasFailed);
  }

  lemma DeliveryKeepsBalance(s: State, k: nat, i: nat)
    requires Balanced(s) && Enabled(s, AttemptOk(k, i))
    ensures Balanced(Apply(s, AttemptOk(k, i)))
  {
    MoveTarget(s, k, i, Delivered, WasDelivered);
    MoveTarget(s, k, i, Delivered, WasFailed);
  }

  lemma RetryKeepsBalance(s: State, k: nat, i: nat)
    requires Balanced(s) && Enabled(s, BackoffOver(k, i))
    ensures Balanced(Apply(s, BackoffOver(k, i)))
  {
    var t := Begin(s.links[k].targets[i], s.links[k].progress[i].attempt + 1, s.now);
    MoveTarget(s, k, i, t, WasDelivered);
    MoveTarget(s, k, i, t, WasFailed);
  }

  lemma SettleKeepsBalance(s: State, k: nat)
    requires Balanced(s) && Enabled(s, Settle(k))
    ensures Balanced(Apply(s, Settle(k)))
  {
    SameCounts(s.links, k, s.links[k].(phase := Settled(s.now)));
  }

  lemma CleanUpKeepsBalance(s: State, k: nat)
    requires Balanced(s) && Enabled(s, CleanUp(k))
    ensures Balanced(AfterCleanUp(s, k))
  {
    SameCounts(s.links, k, s.links[k].(cleaned := true));
  }

  lemma StepKeepsBalance(s: State, a: Action)
    requires Inv(s) && Balanced(s) && Enabled(s, a)
    ensures Balanced(Apply(s, a))
  {
    match a
    case Publish(event) => PublishKeepsBalance(s, event);
    case Start(k) => StartKeepsBalance(s, k);
    case AttemptOk(k, i) => DeliveryKeepsBalance(s, k, i);
    case AttemptFail(k, i) => FailureKeepsBalance(s, k, i);
    case TimerFires(k, i) => FailureKeepsBalance(s.(counters := s.counters.(timedOut := s.counters.timedOut + 1)), k, i);
    case BackoffOver(k, i) => RetryKeepsBalance(s, k, i);
    case Settle(k) => SettleKeepsBalance(s, k);
    case CleanUp(k) => CleanUpKeepsBalance(s, k);
    case _ =>
  }

  lemma {:induction false} RunKeepsBalance(s: State, run: seq<Action>)
    requires Inv(s) && Balanced(s) && IsRun(s, run)
    ensures Balanced(After(s, run))
    decreases |run|
  {
    if run != [] {
      StepKeepsInv(s, run[0]);
      StepKeepsBalance(s, run[0]);
      RunKeepsBalance(Apply(s, run[0]), run[1..]);
    }
  }

  /**
   * Conservation, in every reachable state: delivered + failed + still open is the number of
   * subscriptions that matched at publish time, summed over everything published.
   */
  lemma Conservation(run: seq<Action>)
    requires IsRun(Initial, run)
    ensures var s := After(Initial, run);
      && s.counters.delivered + s.counters.failed + CountAll(s.links, StillOpen) == Expected(s.history)
      && s.counters.delivered == CountAll(s.links, WasDelivered)
      && s.counters.failed == CountAll(s.links, WasFailed)
      && s.counters.published == |s.history|
  {
    RunKeepsBalance(Initial, run);
    KindsCoverAll(After(Initial, run).links);
  }

  /** When the bus is idle nothing is open, so delivered + failed accounts for everything. */
  lemma {:induction false} NothingOpen(links: seq<Link>)
    requires forall k | 0 <= k < |links| :: links[k].AllDone()
    ensures CountAll(links, StillOpen) == 0
  {
    if links != [] {
      var front, last := links[..|links| - 1], links[|links| - 1];
      assert last.AllDone();
      forall k | 0 <= k < |front| ensures front[k].AllDone() {
        assert front[k] == links[k];
      }
      NothingOpen(front);
      NoneOpen(last.progress);
    }
  }

  lemma {:induction false} NoneOpen(progress: seq<TargetState>)
    requires forall i | 0 <= i < |progress| :: progress[i].Done()
    ensures CountIn(progress, StillOpen) == 0
  {
    if progress != [] {
      NoneOpen(progress[..|progress| - 1]);
    }
  }

  lemma DrainedBooks(run: seq<Action>)
    requires IsRun(Initial, run) && After(Initial, run).inFlight == {}
    ensures var s := After(Initial, run); s.counters.delivered + s.counters.failed == Expected(s.history)
  {
    var s := After(Initial, run);
    RunKeepsInv(Initial, run);
    forall k | 0 <= k < |s.links| ensures s.links[k].AllDone() {
      assert k !in s.inFlight;
      assert s.links[k].Coherent();
    }
    NothingOpen(s.links);
    Conservation(run);
  }

  // ----- attempts of one (event, target) pair -----

  /** How many more times the handler of a target may be called. */
  function AttemptsLeft(sub: Subscription, t: TargetState): int {
    match t
    case Idle => sub.retries + 1
    case Attempting(n, _) => sub.retries - n
    case BackingOff(n, _) => sub.retries - n
    case _ => 0
  }

  predicate BeginsAttempt(a: Action, k: nat, i: nat) {
    a == Start(k) || a == BackoffOver(k, i)
  }

  /** The calls of the handler of target `i` of link `k` in a run. */
  function AttemptsIn(run: seq<Action>, k: nat, i: nat): nat {
    if run == [] then 0 else One(BeginsAttempt(run[0], k, i)) + AttemptsIn(run[1..], k, i)
  }

  /** Steps keep the links in place, with their targets and numbers of targets. */
  lemma StepKeepsTargets(s: State, a: Action, k: nat, i: nat)
    requires Enabled(s, a) && HasTarget(s, k, i)
    ensures HasTarget(Apply(s, a), k, i) && Apply(s, a).links[k].targets == s.links[k].targets
  {
  }

  /** How the progress of one target can change in one step. */
  lemma StepMovesTarget(s: State, a: Action, k: nat, i: nat)
    requires Enabled(s, a) && HasTarget(s, k, i)
    ensures var sub, t, t' := s.links[k].targets[i], s.links[k].progress[i], Apply(s, a).links[k].progress[i];
      || (t' == t && !BeginsAttempt(a, k, i))
      || (a == Start(k) && s.links[k].phase.Waiting? && t'.Attempting? && t'.attempt == 0)
      || (a == BackoffOver(k, i) && t.BackingOff? && t'.Attempting? && t'.attempt == t.attempt + 1)
      || (t.Attempting? && t'.Done() && !BeginsAttempt(a, k, i))
      || (t.Attempting? && t'.BackingOff? && t'.attempt == t.attempt && !BeginsAttempt(a, k, i))
  {
    if a != Start(k) && !Attempts(a, k, i) {
      ProgressStays(s, a, k, i);
    }
  }

  lemma StepUsesAttempt(s: State, a: Action, k: nat, i: nat)
    requires Inv(s) && Enabled(s, a) && HasTarget(s, k, i)
    ensures HasTarget(Apply(s, a), k, i) && Apply(s, a).links[k].targets == s.links[k].targets
    ensures AttemptsLeft(s.links[k].targets[i], Apply(s, a).links[k].progress[i]) + One(BeginsAttempt(a, k, i))
         <= AttemptsLeft(s.links[k].targets[i], s.links[k].progress[i])
  {
    assert s.links[k].Coherent();
    StepKeepsTargets(s, a, k, i);
    StepMovesTarget(s, a, k, i);
  }

  /** A pair is attempted at most retries + 1 times, and not at all once it is delivered or given up. */
  lemma {:induction false} AttemptBound(s: State, run: seq<Action>, k: nat, i: nat)
    requires Inv(s) && IsRun(s, run) && HasTarget(s, k, i)
    ensures AttemptsIn(run, k, i) <= AttemptsLeft(s.links[k].targets[i], s.links[k].progress[i])
                                  <= s.links[k].targets[i].retries + 1
    decreases |run|
  {
    assert s.links[k].Coherent();
    if run != [] {
      StepUsesAttempt(s, run[0], k, i);
      StepKeepsInv(s, run[0]);
      AttemptBound(Apply(s, run[0]), run[1..], k, i);
    }
  }

  // ----- the work left: why drain terminates -----

  /** Steps the bus still needs for one target, at most. */
  function TargetWork(sub: Subscription, t: TargetState): int {
    match t
    case Idle => 2 * sub.retries + 1
    case Attempting(n, _) => 2 * (sub.retries - n) + 1
    case BackingOff(n, _) => 2 * (sub.retries - n)
    case _ => 0
  }

  function ProgressWork(targets: seq<Subscription>, progress: seq<TargetState>): int
    requires |targets| == |progress|
  {
    if progress == [] then 0
    else
      var n := |progress| - 1;
      ProgressWork(targets[..n], progress[..n]) + TargetWork(targets[n], progress[n])
  }

  function LinkWork(link: Link): int {
    if link.cleaned || |link.targets| != |link.progress| then 0
    else
      (match link.phase case Waiting => 3 case Running(_) => 2 case Settled(_) => 1)
      + ProgressWork(link.targets, link.progress)
  }

  function Work(links: seq<Link>): int {
    if links == [] then 0 else Work(links[..|links| - 1]) + LinkWork(links[|links| - 1])
  }

  lemma {:induction false} WorkUpdate(links: seq<Link>, k: nat, link: Link)
    requires k < |links|
    ensures Work(links[k := link]) == Work(links) - LinkWork(links[k]) + LinkWork(link)
  {
    var n := |links| - 1;
    var front := links[..n];
    if k == n {
      assert links[k := link][..n] == front;
    } else {
      assert links[k := link][..n] == front[k := link];
      WorkUpdate(front, k, link);
    }
  }

  lemma {:induction false} ProgressUpdate(targets: seq<Subscription>, progress: seq<TargetState>, i: nat, t: TargetState)
    requires |targets| == |progress| && i < |progress|
    ensures ProgressWork(targets, progress[i := t])
         == ProgressWork(targets, progress) - TargetWork(targets[i], progress[i]) + TargetWork(targets[i], t)
  {
    var n := |progress| - 1;
    var front := progress[..n];
    if i == n {
      assert progress[i := t][..n] == front;
    } else {
      assert progress[i := t][..n] == front[i := t];
      ProgressUpdate(targets[..n], front, i, t);
    }
  }

  lemma {:induction false} ProgressWorkNat(targets: seq<Subscription>, progress: seq<TargetState>)
    requires |targets| == |progress|
    requires forall i | 0 <= i < |progress| :: InRange(targets[i], progress[i])
    ensures ProgressWork(targets, progress) >= 0
  {
    if progress != [] {
      var n := |progress| - 1;
      forall i | 0 <= i < n ensures InRange(targets[..n][i], progress[..n][i]) {
        assert InRange(targets[i], progress[i]);
      }
      ProgressWorkNat(targets[..n], progress[..n]);
      assert InRange(targets[n], progress[n]);
    }
  }

  lemma {:induction false} WorkNat(links: seq<Link>)
    requires AllCoherent(links)
    ensures Work(links) >= 0
    ensures Work(links) == 0 ==> forall k | 0 <= k < |links| :: links[k].cleaned
  {
    if links != [] {
      var n := |links| - 1;
      forall k | 0 <= k < n ensures links[..n][k].Coherent() {
        assert links[k].Coherent();
      }
      WorkNat(links[..n]);
      assert links[n].Coherent();
      ProgressWorkNat(links[n].targets, links[n].progress);
    }
  }

  lemma {:induction false} FirstAttempts(targets: seq<Subscription>, a: seq<TargetState>, b: seq<TargetState>)
    requires |targets| == |a| == |b|
    requires forall i | 0 <= i < |a| :: a[i].Idle? && b[i].Attempting? && b[i].attempt == 0
    ensures ProgressWork(targets, a) == ProgressWork(targets, b)
  {
    if a != [] {
      var n := |a| - 1;
      FirstAttempts(targets[..n], a[..n], b[..n]);
    }
  }

  lemma TargetStepWork(s: State, k: nat, i: nat, t: TargetState)
    requires Inv(s) && HasTarget(s, k, i) && s.links[k].phase.Running?
    ensures Work(WithProgress(s, k, i, t).links)
         == Work(s.links) - TargetWork(s.links[k].targets[i], s.links[k].progress[i]) + TargetWork(s.links[k].targets[i], t)
  {
    assert s.links[k].Coherent();
    ProgressUpdate(s.links[k].targets, s.links[k].progress, i, t);
    WorkUpdate(s.links, k, s.links[k].(progress := s.links[k].progress[i := t]));
  }

  lemma StartWork(s: State, k: nat)
    requires Inv(s) && Enabled(s, Start(k))
    ensures Work(AfterStart(s, k).links) == Work(s.links) - 1
  {
    assert s.links[k].Coherent();
    var link := AfterStart(s, k).links[k];
    FirstAttempts(link.targets, s.links[k].progress, link.progress);
    WorkUpdate(s.links, k, link);
  }

  lemma SuccessUsesWork(s: State, k: nat, i: nat)
    requires Inv(s) && Enabled(s, AttemptOk(k, i))
    ensures Work(Apply(s, AttemptOk(k, i)).links) <= Work(s.links) - 1
  {
    BusyIsRunning(s, k, i);
    assert s.links[k].Coherent();
    assert InRange(s.links[k].targets[i], s.links[k].progress[i]);
    TargetStepWork(s, k, i, Delivered);
  }

  lemma RetryUsesWork(s: State, k: nat, i: nat)
    requires Inv(s) && Enabled(s, BackoffOver(k, i))
    ensures Work(Apply(s, BackoffOver(k, i)).links) == Work(s.links) - 1
  {
    BusyIsRunning(s, k, i);
    TargetStepWork(s, k, i, Begin(s.links[k].targets[i], s.links[k].progress[i].attempt + 1, s.now));
  }

  lemma SettleUsesWork(s: State, k: nat)
    requires Inv(s) && Enabled(s, Settle(k))
    ensures Work(Apply(s, Settle(k)).links) == Work(s.links) - 1
  {
    assert s.links[k].Coherent();
    WorkUpdate(s.links, k, s.links[k].(phase := Settled(s.now)));
  }

  lemma CleanUpUsesWork(s: State, k: nat)
    requires Inv(s) && Enabled(s, CleanUp(k))
    ensures Work(AfterCleanUp(s, k).links) <= Work(s.links) - 1
  {
    assert s.links[k].Coherent();
    ProgressWorkNat(s.links[k].targets, s.links[k].progress);
    WorkUpdate(s.links, k, s.links[k].(cleaned := true));
  }

  /** Every internal step of the bus uses up work. */
  lemma InternalStepUsesWork(s: State, a: Action)
    requires Inv(s) && Enabled(s, a) && a.Internal()
    ensures Work(Apply(s, a).links) <= Work(s.links) - 1
  {
    match a
    case Start(k) => StartWork(s, k);
    case AttemptOk(k, i) => SuccessUsesWork(s, k, i);
    case AttemptFail(k, i) => FailureUsesWork(s, k, i);
    case TimerFires(k, i) => FailureUsesWork(s.(counters := s.counters.(timedOut := s.counters.timedOut + 1)), k, i);
    case BackoffOver(k, i) => RetryUsesWork(s, k, i);
    case Settle(k) => SettleUsesWork(s, k);
    case CleanUp(k) => CleanUpUsesWork(s, k);
  }

  lemma FailureUsesWork(s: State, k: nat, i: nat)
    requires Inv(s) && HasTarget(s, k, i) && s.links[k].progress[i].Attempting?
    ensures Work(AfterFailed(s, k, i).links) <= Work(s.links) - 1
  {
    BusyIsRunning(s, k, i);
    assert s.links[k].Coherent();
    TargetStepWork(s, k, i, AfterFailure(s.links[k].targets[i], s.links[k].progress[i].attempt, s.now));
  }

  /** The work that one `publish` brings in. */
  function PublishWork(s: State, a: Action): int {
    if a.Publish? then Work(AfterPublish(s, a.event).links) - Work(s.links) else 0
  }

  lemma OtherStepKeepsWork(s: State, a: Action)
    requires Inv(s) && Enabled(s, a) && !a.Internal()
    ensures Work(Apply(s, a).links) == Work(s.links) + PublishWork(s, a)
  {
  }

  function InternalSteps(run: seq<Action>): nat {
    if run == [] then 0 else One(run[0].Internal()) + InternalSteps(run[1..])
  }

  function Published(s: State, run: seq<Action>): int
    requires IsRun(s, run)
    decreases |run|
  {
    if run == [] then 0 else PublishWork(s, run[0]) + Published(Apply(s, run[0]), run[1..])
  }

  /**
   * A run takes at most as many internal steps as the work it starts with plus the work its
   * publications bring in; so with finitely many follow-up events `drain` cannot go on forever.
   */
  lemma {:induction false} WorkBoundsRun(s: State, run: seq<Action>)
    requires Inv(s) && IsRun(s, run)
    ensures Inv(After(s, run))
    ensures InternalSteps(run) + Work(After(s, run).links) <= Work(s.links) + Published(s, run)
    ensures InternalSteps(run) <= Work(s.links) + Published(s, run)
    decreases |run|
  {
    if run == [] {
      WorkNat(s.links);
    } else {
      if run[0].Internal() {
        InternalStepUsesWork(s, run[0]);
      } else {
        OtherStepKeepsWork(s, run[0]);
      }
      StepKeepsInv(s, run[0]);
      WorkBoundsRun(Apply(s, run[0]), run[1..]);
      WorkNat(After(s, run).links);
    }
  }

  /** A run that has taken all the steps it may has drained: nothing is in flight any more. */
  lemma DrainIsInevitable(s: State, run: seq<Action>)
    requires Inv(s) && IsRun(s, run) && InternalSteps(run) >= Work(s.links) + Published(s, run)
    ensures After(s, run).inFlight == {}
  {
    WorkBoundsRun(s, run);
    var end := After(s, run);
    WorkNat(end.links);
    assert forall k :: k !in end.inFlight;
  }

  /** A step the bus can take now, or once the clock has reached an armed timer. */
  predicate MovesAfter(s: State, ms: nat, a: Action) {
    a.Internal() && Enabled(s.(now := s.now + ms), a)
  }

  ghost predicate CanMove(s: State) {
    exists ms: nat, a: Action :: MovesAfter(s, ms, a)
  }

  /** No deadlock: as long as anything is in flight, the bus can move (at the latest when a timer is due). */
  lemma NeverStuck(s: State)
    requires Inv(s) && s.inFlight != {}
    ensures CanMove(s)
  {
    var k :| k in s.inFlight;
    LinkCanMove(s, k);
  }

  lemma {:induction false} LinkCanMove(s: State, k: nat)
    requires Inv(s) && k < |s.links| && !s.links[k].cleaned
    ensures CanMove(s)
    decreases k
  {
    var link := s.links[k];
    assert link.Coherent();
    match link.phase
    case Settled(_) => assert MovesAfter(s, 0, CleanUp(k));
    case Waiting =>
      if Ready(s.links, k) {
        assert MovesAfter(s, 0, Start(k));
      } else {
        assert Chained(s.links, k);
        assert s.links[link.previous.value].Coherent();
        LinkCanMove(s, link.previous.value);
      }
    case Running(_) =>
      if link.AllDone() {
        assert MovesAfter(s, 0, Settle(k));
      } else {
        var i :| 0 <= i < |link.progress| && !link.progress[i].Done();
        if link.progress[i].Attempting? {
          assert MovesAfter(s, link.progress[i].deadline, TimerFires(k, i));
        } else {
          assert MovesAfter(s, link.progress[i].due, BackoffOver(k, i));
        }
      }
  }

  /** Neither a publication nor a change of the subscriptions. */
  predicate OnItsOwn(run: seq<Action>) {
    forall i | 0 <= i < |run| :: run[i].Internal() || run[i].Advance?
  }

  /**
   * Where publications stop, `drain` returns: by its own steps and the passage of time alone the bus
   * reaches a state with nothing in flight, and until then it can always take one more of them.
   */
  lemma {:induction false} DrainIsReached(s: State) returns (run: seq<Action>)
    requires Inv(s)
    ensures OnItsOwn(run) && IsRun(s, run) && After(s, run).inFlight == {}
    decreases Work(s.links)
  {
    WorkNat(s.links);
    if s.inFlight == {} {
      run := [];
    } else {
      var ms, a := NextMove(s);
      var rest := DrainIsReached(Apply(Apply(s, Advance(ms)), a));
      TwoSteps(s, Advance(ms), a, rest);
      run := [Advance(ms), a] + rest;
    }
  }

  lemma NextMove(s: State) returns (ms: nat, a: Action)
    requires Inv(s) && s.inFlight != {}
    ensures a.Internal() && Enabled(Apply(s, Advance(ms)), a)
    ensures var s' := Apply(Apply(s, Advance(ms)), a); Inv(s') && Work(s'.links) < Work(s.links)
  {
    NeverStuck(s);
    ms, a :| MovesAfter(s, ms, a);
    var s1 := Apply(s, Advance(ms));
    StepKeepsInv(s, Advance(ms));
    StepKeepsInv(s1, a);
    InternalStepUsesWork(s1, a);
  }

  lemma TwoSteps(s: State, a: Action, b: Action, rest: seq<Action>)
    requires Enabled(s, a) && Enabled(Apply(s, a), b) && IsRun(Apply(Apply(s, a), b), rest)
    ensures IsRun(s, [a, b] + rest) && After(s, [a, b] + rest) == After(Apply(Apply(s, a), b), rest)
  {
    assert ([a, b] + rest)[1..] == [b] + rest;
    assert ([b] + rest)[1..] == rest;
  }
}
