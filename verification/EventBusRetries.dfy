/**
 * Retries: how often a handler is called before the bus gives up, when it is called again, and that
 * events of different devices, and events of other kinds, do not get in each other's way.
 */
module EventBusRetries {
  import opened DomainEvents
  import opened EventPattern
  import opened Segments
  import opened EventBus
  import opened EventBusAccounting
  import Timing = EventBusTiming

  // ----- one attempt -----

  /** An attempt of this target ends badly: its handler rejects or its timer fires. */
  predicate EndsBadly(a: Action, k: nat, i: nat) {
    a == AttemptFail(k, i) || a == TimerFires(k, i)
  }

  /** A link that starts calls every handler for the first time, and arms each one's timer. */
  lemma FirstAttempt(s: State, k: nat, i: nat)
    requires Inv(s) && Enabled(s, Start(k)) && i < |s.links[k].targets|
    ensures var s' := Apply(s, Start(k));
      HasTarget(s', k, i) && s'.links[k].progress[i] == Attempting(0, s.now + s.links[k].targets[i].timeoutMs)
  {
  }

  /** The timer of an attempt may fire exactly from its deadline on. */
  lemma TimerIsDue(s: State, k: nat, i: nat)
    requires HasTarget(s, k, i) && s.links[k].progress[i].Attempting?
    ensures Enabled(s, TimerFires(k, i)) <==> s.now >= s.links[k].progress[i].deadline
  {
  }

  /**
   * An attempt that ends badly and is not the last one puts the target off for the back-off time,
   * doubled with every attempt; the last one makes the bus give up, and only then a failure is counted.
   */
  lemma FailedAttempt(s: State, a: Action, k: nat, i: nat)
    requires Enabled(s, a) && EndsBadly(a, k, i)
    ensures HasTarget(s, k, i) && s.links[k].progress[i].Attempting?
    ensures var s', sub, n := Apply(s, a), s.links[k].targets[i], s.links[k].progress[i].attempt;
      && HasTarget(s', k, i)
      && s'.links[k].progress[i] == (if n == sub.retries then GaveUp else BackingOff(n, s.now + sub.backoffMs * Timing.Pow2(n)))
      && s'.counters.failed == s.counters.failed + (if n == sub.retries then 1 else 0)
      && s'.counters.timedOut == s.counters.timedOut + (if a.TimerFires? then 1 else 0)
      && s'.counters.delivered == s.counters.delivered && s'.counters.published == s.counters.published
  {
    Timing.DelayFormula(s.links[k].targets[i].backoffMs, s.links[k].progress[i].attempt);
  }

  /** The wait is over exactly when it is due; the handler is then called again, with a new timer. */
  lemma NextAttempt(s: State, k: nat, i: nat)
    requires HasTarget(s, k, i) && s.links[k].progress[i].BackingOff?
    ensures Enabled(s, BackoffOver(k, i)) <==> s.now >= s.links[k].progress[i].due
    ensures Enabled(s, BackoffOver(k, i)) ==>
      var s', n := Apply(s, BackoffOver(k, i)), s.links[k].progress[i].attempt;
      HasTarget(s', k, i) && s'.links[k].progress[i] == Attempting(n + 1, s.now + s.links[k].targets[i].timeoutMs)
  {
  }

  /** As long as the wait is not over the target stays as it is, whatever else happens. */
  lemma {:induction false} WaitsForRetry(s: State, run: seq<Action>, k: nat, i: nat)
    requires Inv(s) && IsRun(s, run) && HasTarget(s, k, i) && s.links[k].progress[i].BackingOff?
    requires BackoffOver(k, i) !in run
    ensures HasTarget(After(s, run), k, i) && After(s, run).links[k].progress[i] == s.links[k].progress[i]
    ensures After(s, run).links[k].targets == s.links[k].targets
    decreases |run|
  {
    if run != [] {
      assert run[0] in run;
      BusyIsRunning(s, k, i);
      ProgressStaysWaiting(s, run[0], k, i);
      StepKeepsInv(s, run[0]);
      forall a | a in run[1..] ensures a in run {}
      WaitsForRetry(Apply(s, run[0]), run[1..], k, i);
    }
  }

  lemma ProgressStaysWaiting(s: State, a: Action, k: nat, i: nat)
    requires Enabled(s, a) && HasTarget(s, k, i) && s.links[k].progress[i].BackingOff? && s.links[k].phase.Running?
    requires a != BackoffOver(k, i)
    ensures HasTarget(Apply(s, a), k, i) && Apply(s, a).links[k].progress[i] == s.links[k].progress[i]
    ensures Apply(s, a).links[k].targets == s.links[k].targets
  {
    ProgressStays(s, a, k, i);
  }

  // ----- all attempts -----

  /** The attempts of target `i` of link `k` that ended badly, and those that ended well, in a run. */
  function FailuresIn(run: seq<Action>, k: nat, i: nat): nat {
    if run == [] then 0 else One(EndsBadly(run[0], k, i)) + FailuresIn(run[1..], k, i)
  }

  function SuccessesIn(run: seq<Action>, k: nat, i: nat): nat {
    if run == [] then 0 else One(run[0] == AttemptOk(k, i)) + SuccessesIn(run[1..], k, i)
  }

  /** What has happened to a target for it to stand where it does: attempts begun, failed and succeeded. */
  predicate Accounts(sub: Subscription, t: TargetState, begun: int, failed: int, succeeded: int) {
    match t
    case Idle => begun == failed == succeeded == 0
    case Attempting(n, _) => begun == n + 1 && failed == n && succeeded == 0 && n <= sub.retries
    case BackingOff(n, _) => begun == failed == n + 1 && succeeded == 0 && n < sub.retries
    case Delivered => begun == failed + 1 <= sub.retries + 1 && succeeded == 1
    case GaveUp => begun == failed == sub.retries + 1 && succeeded == 0
  }

  /** The same for a target of a link that may not have been published yet. */
  ghost predicate AccountsIn(s: State, k: nat, i: nat, begun: int, failed: int, succeeded: int) {
    if HasTarget(s, k, i) then Accounts(s.links[k].targets[i], s.links[k].progress[i], begun, failed, succeeded)
    else begun == failed == succeeded == 0
  }

  lemma StepAccounts(s: State, a: Action, k: nat, i: nat, begun: int, failed: int, succeeded: int)
    requires Inv(s) && Enabled(s, a) && AccountsIn(s, k, i, begun, failed, succeeded)
    requires HasTarget(Apply(s, a), k, i)
    ensures AccountsIn(Apply(s, a), k, i, begun + One(BeginsAttempt(a, k, i)), failed + One(EndsBadly(a, k, i)),
                       succeeded + One(a == AttemptOk(k, i)))
  {
    if HasTarget(s, k, i) {
      assert s.links[k].Coherent();
      if EndsBadly(a, k, i) {
        FailedAttempt(s, a, k, i);
        StepKeepsTargets(s, a, k, i);
      } else if a == Start(k) {
        FirstAttempt(s, k, i);
      } else if a == BackoffOver(k, i) {
        NextAttempt(s, k, i);
        StepKeepsTargets(s, a, k, i);
      } else if a == AttemptOk(k, i) {
        StepKeepsTargets(s, a, k, i);
      } else {
        ProgressStays(s, a, k, i);
      }
    } else {
      NewTargetIsIdle(s, a, k, i);
    }
  }

  /** A target that was not there before the step belongs to the link just published, and is untouched. */
  lemma NewTargetIsIdle(s: State, a: Action, k: nat, i: nat)
    requires Inv(s) && Enabled(s, a) && !HasTarget(s, k, i) && HasTarget(Apply(s, a), k, i)
    ensures a.Publish? && k == |s.links| && Apply(s, a).links[k].progress[i].Idle?
    ensures !BeginsAttempt(a, k, i) && !EndsBadly(a, k, i) && a != AttemptOk(k, i)
  {
    if k < |s.links| {
      assert s.links[k].Coherent();
      LinkKeepsItsTargets(s, a, k);
    }
  }

  lemma LinkKeepsItsTargets(s: State, a: Action, k: nat)
    requires Enabled(s, a) && k < |s.links| && s.links[k].Coherent()
    ensures k < |Apply(s, a).links| && Apply(s, a).links[k].targets == s.links[k].targets
    ensures |Apply(s, a).links[k].progress| == |s.links[k].progress|
  {
  }

  lemma {:induction false} MissingTargetStaysMissing(s: State, run: seq<Action>, k: nat, i: nat)
    requires Inv(s) && IsRun(s, run) && k < |s.links| && !HasTarget(s, k, i)
    ensures !HasTarget(After(s, run), k, i)
    decreases |run|
  {
    if run != [] {
      assert s.links[k].Coherent();
      LinkKeepsItsTargets(s, run[0], k);
      StepKeepsInv(s, run[0]);
      MissingTargetStaysMissing(Apply(s, run[0]), run[1..], k, i);
    }
  }

  lemma UnpublishedIsUntouched(s: State, a: Action, k: nat, i: nat)
    requires Enabled(s, a) && k >= |Apply(s, a).links|
    ensures k >= |s.links| && !BeginsAttempt(a, k, i) && !EndsBadly(a, k, i) && a != AttemptOk(k, i)
  {
  }

  lemma {:induction false} RunAccounts(
    s: State, run: seq<Action>, k: nat, i: nat, begun: int, failed: int, succeeded: int)
    requires Inv(s) && IsRun(s, run) && AccountsIn(s, k, i, begun, failed, succeeded)
    requires HasTarget(After(s, run), k, i)
    ensures AccountsIn(After(s, run), k, i, begun + AttemptsIn(run, k, i), failed + FailuresIn(run, k, i),
                       succeeded + SuccessesIn(run, k, i))
    decreases |run|
  {
    if run != [] {
      var a, s1 := run[0], Apply(s, run[0]);
      StepKeepsInv(s, a);
      if HasTarget(s1, k, i) {
        StepAccounts(s, a, k, i, begun, failed, succeeded);
      } else {
        if k < |s1.links| { MissingTargetStaysMissing(s1, run[1..], k, i); }
        UnpublishedIsUntouched(s, a, k, i);
      }
      RunAccounts(s1, run[1..], k, i, begun + One(BeginsAttempt(a, k, i)), failed + One(EndsBadly(a, k, i)),
                  succeeded + One(a == AttemptOk(k, i)));
    }
  }

  /**
   * In every run: a pair is given up only after exactly retries + 1 attempts, every one of which failed
   * or timed out; it is delivered by one attempt that succeeded after failed ones only, and at most
   * retries of those; and while it waits for attempt n + 1, exactly n + 1 attempts have failed.
   */
  lemma AttemptsExactly(run: seq<Action>, k: nat, i: nat)
    requires IsRun(Initial, run) && HasTarget(After(Initial, run), k, i)
    ensures var sub, t := After(Initial, run).links[k].targets[i], After(Initial, run).links[k].progress[i];
      var begun, failed, succeeded := AttemptsIn(run, k, i), FailuresIn(run, k, i), SuccessesIn(run, k, i);
      && (t.GaveUp? ==> begun == failed == sub.retries + 1 && succeeded == 0)
      && (t.Delivered? ==> begun == failed + 1 <= sub.retries + 1 && succeeded == 1)
      && (t.BackingOff? ==> begun == failed == t.attempt + 1 <= sub.retries && succeeded == 0)
      && (t.Attempting? ==> begun == failed + 1 == t.attempt + 1 <= sub.retries + 1 && succeeded == 0)
      && (t.Idle? ==> begun == failed == succeeded == 0)
  {
    RunAccounts(Initial, run, k, i, 0, 0, 0);
  }

  function TimersIn(run: seq<Action>): nat {
    if run == [] then 0 else One(run[0].TimerFires?) + TimersIn(run[1..])
  }

  /** In every run the bus counts exactly the attempts that timed out. */
  lemma {:induction false} TimeoutsAreCounted(s: State, run: seq<Action>)
    requires IsRun(s, run)
    ensures After(s, run).counters.timedOut == s.counters.timedOut + TimersIn(run)
    decreases |run|
  {
    if run != [] {
      StepCountsTimeouts(s, run[0]);
      TimeoutsAreCounted(Apply(s, run[0]), run[1..]);
    }
  }

  lemma StepCountsTimeouts(s: State, a: Action)
    requires Enabled(s, a)
    ensures Apply(s, a).counters.timedOut == s.counters.timedOut + One(a.TimerFires?)
  {
  }

  // ----- lanes -----

  /** What orders an event: its device, and "_global" for events without one. */
  predicate SameKey(e: DomainEvent, f: DomainEvent) {
    var key, other := if e.deviceId.Some? then e.deviceId.value else "_global",
                      if f.deviceId.Some? then f.deviceId.value else "_global";
    key == other
  }

  /**
   * In every run: a link waits only for a link of the same key, the last one published before it; so as
   * soon as the earlier links of its device have settled it may start, whatever the other devices do.
   */
  lemma DevicesDoNotWait(run: seq<Action>, k: nat)
    requires IsRun(Initial, run) && k < |After(Initial, run).links|
    ensures var links := After(Initial, run).links;
      && (links[k].previous.Some? ==> links[k].previous.value < k && SameKey(links[links[k].previous.value].event, links[k].event))
      && (links[k].phase.Waiting? && (forall j | 0 <= j < k && SameKey(links[j].event, links[k].event) :: links[j].phase.Settled?)
          ==> Enabled(After(Initial, run), Start(k)))
  {
    RunKeepsInv(Initial, run);
    var links := After(Initial, run).links;
    assert links[k].Coherent() && Chained(links, k);
    if links[k].previous.Some? {
      var p := links[k].previous.value;
      assert SameLane(links, p, k) && links[p].Coherent();
    }
  }

  /** And a device's own events keep their order: none starts before every earlier one of the device has settled. */
  lemma DeviceIsFifo(run: seq<Action>, j: nat, k: nat)
    requires IsRun(Initial, run) && j < k < |After(Initial, run).links|
    requires SameKey(After(Initial, run).links[j].event, After(Initial, run).links[k].event)
    ensures var links := After(Initial, run).links; !links[k].phase.Waiting? ==> links[j].phase.Settled?
  {
    RunKeepsInv(Initial, run);
    var links := After(Initial, run).links;
    assert links[j].Coherent() && links[k].Coherent() && SameLane(links, j, k);
  }

  // ----- who receives an event -----

  /** A list of subscriptions without those that do not match: what is left, in the same order. */
  lemma {:induction false} TargetsConcat(a: seq<Subscription>, b: seq<Subscription>, event: DomainEvent)
    ensures TargetsOf(a + b, event) == TargetsOf(a, event) + TargetsOf(b, event)
  {
    if a == [] {
      assert a + b == b;
    } else {
      assert (a + b)[1..] == a[1..] + b;
      TargetsConcat(a[1..], b, event);
    }
  }

  /** A subscription at any place among others receives an event at the same place among the targets, exactly if its pattern accepts it. */
  lemma TargetsExactly(before: seq<Subscription>, sub: Subscription, after: seq<Subscription>, event: DomainEvent)
    ensures TargetsOf(before + [sub] + after, event)
         == TargetsOf(before, event)
            + (if Accepts(Split(sub.pattern, '.'), Split(event.eventType, '.')) then [sub] else [])
            + TargetsOf(after, event)
    ensures TargetsOf([], event) == []
  {
    TargetsConcat(before + [sub], after, event);
    TargetsConcat(before, [sub], event);
    assert [sub][1..] == [];
  }

  /** What is published becomes one link with those targets, none of them tried, and nothing if there are none. */
  lemma PublishedExactly(s: State, event: DomainEvent)
    ensures var s', targets := Apply(s, Publish(event)), TargetsOf(s.subscriptions, event);
      && s'.counters.published == s.counters.published + 1
      && |s'.links| == |s.links| + (if targets == [] then 0 else 1) && s'.links[..|s.links|] == s.links
      && (targets != [] ==>
            var link := s'.links[|s.links|];
            && link.event == event && link.targets == targets && link.publishedAt == s.now && link.phase.Waiting?
            && |link.progress| == |targets| && (forall i | 0 <= i < |targets| :: link.progress[i].Idle?)
            && |s.links| in s'.inFlight)
  {
  }

  /** A new subscription comes last, with the options given and an identity of its own. */
  lemma SubscribedExactly(s: State, pattern: string, retries: nat, backoffMs: nat, timeoutMs: nat)
    ensures var s' := Apply(s, Subscribe(pattern, retries, backoffMs, timeoutMs));
      && |s'.subscriptions| == |s.subscriptions| + 1 && s'.subscriptions[..|s.subscriptions|] == s.subscriptions
      && var sub := s'.subscriptions[|s.subscriptions|];
         sub.pattern == pattern && sub.retries == retries && sub.backoffMs == backoffMs && sub.timeoutMs == timeoutMs
         && sub.id == s.nextId < s'.nextId
  {
  }

  /** Ending a subscription takes exactly it away; what it has still to receive of earlier events stays. */
  lemma UnsubscribedExactly(s: State, before: seq<Subscription>, sub: Subscription, after: seq<Subscription>)
    requires s.subscriptions == before + [sub] + after
    requires forall t | t in before :: t.id != sub.id
    ensures var s' := Apply(s, Unsubscribe(sub.id)); s'.subscriptions == before + after && s'.links == s.links
  {
    RemoveAfter(before, sub, after);
  }

  lemma {:induction false} RemoveAfter(before: seq<Subscription>, sub: Subscription, after: seq<Subscription>)
    requires forall t | t in before :: t.id != sub.id
    ensures Remove(before + [sub] + after, sub.id) == before + after
  {
    var all := before + [sub] + after;
    if before == [] {
      assert all[1..] == after;
    } else {
      assert before[0] in before && all[0] == before[0];
      assert all[1..] == before[1..] + [sub] + after;
      RemoveAfter(before[1..], sub, after);
    }
  }

  lemma {:induction false} RemoveUnknown(subscriptions: seq<Subscription>, id: nat)
    requires forall t | t in subscriptions :: t.id != id
    ensures Remove(subscriptions, id) == subscriptions
  {
    if subscriptions != [] {
      assert subscriptions[0] in subscriptions;
      RemoveUnknown(subscriptions[1..], id);
    }
  }
}
