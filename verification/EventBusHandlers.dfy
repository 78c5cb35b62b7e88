/**
 * The handler calls behind the bus. `withTimeout` does not cancel a handler: a call goes on after its
 * time-out, beside the retry or the next event, and whenever it ends it reaches the promise of its own
 * attempt. Every run of this machine is a run of the bus.
 */
module EventBusHandlers {
  import Bus = EventBus
  import Books = EventBusAccounting

  /** One call of a handler: the link and target it serves, and which attempt it is. */
  datatype Call = Call(link: nat, target: nat, attempt: nat)

  /** `running`: the calls begun and not ended. */
  datatype State = State(bus: Bus.State, running: set<Call>)

  const Initial := State(Bus.Initial, {})

  datatype Action = BusStep(a: Bus.Action) | HandlerEnds(call: Call, ok: bool)

  /** The promise of the call's own attempt is still open. */
  predicate Counts(bus: Bus.State, c: Call) {
    && Bus.HasTarget(bus, c.link, c.target)
    && bus.links[c.link].progress[c.target].Attempting?
    && bus.links[c.link].progress[c.target].attempt == c.attempt
  }

  predicate Enabled(s: State, a: Action) {
    match a
    case BusStep(b) => Bus.Enabled(s.bus, b) && !b.AttemptOk? && !b.AttemptFail?
    case HandlerEnds(c, _) => c in s.running
  }

  /** The handler calls that a step of the bus makes. */
  function Begun(bus: Bus.State, b: Bus.Action): set<Call>
    requires Bus.Enabled(bus, b)
  {
    match b
    case Start(k) => set i | 0 <= i < |bus.links[k].targets| :: Call(k, i, 0)
    case BackoffOver(k, i) => {Call(k, i, bus.links[k].progress[i].attempt + 1)}
    case _ => {}
  }

  function Outcome(c: Call, ok: bool): Bus.Action {
    if ok then Bus.AttemptOk(c.link, c.target) else Bus.AttemptFail(c.link, c.target)
  }

  /** A call that ends settles its attempt if that is still open; otherwise it only ends. */
  function Apply(s: State, a: Action): State
    requires Enabled(s, a)
  {
    match a
    case BusStep(b) => State(Bus.Apply(s.bus, b), s.running + Begun(s.bus, b))
    case HandlerEnds(c, ok) =>
      State(if Counts(s.bus, c) then Bus.Apply(s.bus, Outcome(c, ok)) else s.bus, s.running - {c})
  }

  predicate IsRun(s: State, run: seq<Action>)
    decreases |run|
  {
    run == [] || (Enabled(s, run[0]) && IsRun(Apply(s, run[0]), run[1..]))
  }

  function After(s: State, run: seq<Action>): State
    requires IsRun(s, run)
    decreases |run|
  {
    if run == [] then s else After(Apply(s, run[0]), run[1..])
  }

  // ----- refinement of the bus -----

  /** What the bus sees of a run: calls that end after their attempt was given up do not show. */
  function Seen(s: State, run: seq<Action>): seq<Bus.Action>
    requires IsRun(s, run)
    decreases |run|
  {
    if run == [] then []
    else
      var rest := Seen(Apply(s, run[0]), run[1..]);
      match run[0]
      case BusStep(b) => [b] + rest
      case HandlerEnds(c, ok) => (if Counts(s.bus, c) then [Outcome(c, ok)] else []) + rest
  }

  /** Every run, seen from the bus, is a run of the bus and leaves it in the same state. */
  lemma {:induction false} RefinesBus(s: State, run: seq<Action>)
    requires IsRun(s, run)
    ensures Bus.IsRun(s.bus, Seen(s, run)) && Bus.After(s.bus, Seen(s, run)) == After(s, run).bus
    decreases |run|
  {
    if run != [] {
      var s1 := Apply(s, run[0]);
      RefinesBus(s1, run[1..]);
      var seen, rest := Seen(s, run), Seen(s1, run[1..]);
      if seen != rest {
        assert seen[1..] == rest;
      }
    }
  }

  // ----- running calls and attempts -----

  /** How far a target has come: a call of attempt `n` can exist. */
  predicate Reached(t: Bus.TargetState, n: nat) {
    match t
    case Idle => false
    case Attempting(m, _) => n <= m
    case BackingOff(m, _) => n <= m
    case Delivered => true
    case GaveUp => true
  }

  predicate CallOk(bus: Bus.State, c: Call) {
    Bus.HasTarget(bus, c.link, c.target) && Reached(bus.links[c.link].progress[c.target], c.attempt)
  }

  predicate OpenIsRunning(s: State, k: nat, i: nat) {
    Bus.HasTarget(s.bus, k, i) && s.bus.links[k].progress[i].Attempting? ==>
      Call(k, i, s.bus.links[k].progress[i].attempt) in s.running
  }

  ghost predicate Inv(s: State) {
    && Bus.Inv(s.bus)
    && (forall c | c in s.running :: CallOk(s.bus, c))
    && (forall k: nat, i: nat :: OpenIsRunning(s, k, i))
  }

  lemma ReachedStays(bus: Bus.State, b: Bus.Action, c: Call)
    requires Bus.Inv(bus) && Bus.Enabled(bus, b) && CallOk(bus, c)
    ensures CallOk(Bus.Apply(bus, b), c)
  {
    assert bus.links[c.link].Coherent();
    Books.StepKeepsTargets(bus, b, c.link, c.target);
    Books.StepMovesTarget(bus, b, c.link, c.target);
  }

  lemma BegunIsOk(bus: Bus.State, b: Bus.Action, c: Call)
    requires Bus.Inv(bus) && Bus.Enabled(bus, b) && c in Begun(bus, b)
    ensures CallOk(Bus.Apply(bus, b), c) && Counts(Bus.Apply(bus, b), c)
  {
  }

  /** An attempt that is open after a step of the bus was open before, or begins with it. */
  lemma OpenWasOpenOrBegins(bus: Bus.State, b: Bus.Action, k: nat, i: nat)
    requires Bus.Inv(bus) && Bus.Enabled(bus, b)
    requires Bus.HasTarget(Bus.Apply(bus, b), k, i) && Bus.Apply(bus, b).links[k].progress[i].Attempting?
    ensures var c := Call(k, i, Bus.Apply(bus, b).links[k].progress[i].attempt);
      c in Begun(bus, b) || (Bus.HasTarget(bus, k, i) && bus.links[k].progress[i] == Bus.Apply(bus, b).links[k].progress[i])
  {
    if k < |bus.links| {
      assert bus.links[k].Coherent();
    }
    if Bus.HasTarget(bus, k, i) {
      Books.StepMovesTarget(bus, b, k, i);
    }
  }

  lemma BusStepKeepsInv(s: State, b: Bus.Action)
    requires Inv(s) && Enabled(s, BusStep(b))
    ensures Inv(Apply(s, BusStep(b)))
  {
    var s' := Apply(s, BusStep(b));
    Bus.StepKeepsInv(s.bus, b);
    forall c | c in s'.running ensures CallOk(s'.bus, c) {
      if c in s.running {
        ReachedStays(s.bus, b, c);
      } else {
        BegunIsOk(s.bus, b, c);
      }
    }
    forall k: nat, i: nat ensures OpenIsRunning(s', k, i) {
      if Bus.HasTarget(s'.bus, k, i) && s'.bus.links[k].progress[i].Attempting? {
        OpenWasOpenOrBegins(s.bus, b, k, i);
        assert OpenIsRunning(s, k, i);
      }
    }
  }

  lemma EndKeepsInv(s: State, c: Call, ok: bool)
    requires Inv(s) && c in s.running
    ensures Inv(Apply(s, HandlerEnds(c, ok)))
  {
    var s', b := Apply(s, HandlerEnds(c, ok)), Outcome(c, ok);
    if Counts(s.bus, c) {
      Bus.StepKeepsInv(s.bus, b);
      forall d | d in s'.running ensures CallOk(s'.bus, d) {
        ReachedStays(s.bus, b, d);
      }
      forall k: nat, i: nat ensures OpenIsRunning(s', k, i) {
        if Bus.HasTarget(s'.bus, k, i) && s'.bus.links[k].progress[i].Attempting? {
          OpenWasOpenOrBegins(s.bus, b, k, i);
          OutcomeCloses(s.bus, c, ok);
          assert OpenIsRunning(s, k, i);
        }
      }
    } else {
      forall k: nat, i: nat ensures OpenIsRunning(s', k, i) {
        assert OpenIsRunning(s, k, i);
      }
    }
  }

  lemma OutcomeCloses(bus: Bus.State, c: Call, ok: bool)
    requires Counts(bus, c)
    ensures Bus.Enabled(bus, Outcome(c, ok)) && Begun(bus, Outcome(c, ok)) == {}
    ensures var bus' := Bus.Apply(bus, Outcome(c, ok));
      Bus.HasTarget(bus', c.link, c.target) && !bus'.links[c.link].progress[c.target].Attempting?
  {
  }

  lemma StepKeepsInv(s: State, a: Action)
    requires Inv(s) && Enabled(s, a)
    ensures Inv(Apply(s, a))
  {
    match a
    case BusStep(b) => BusStepKeepsInv(s, b);
    case HandlerEnds(c, ok) => EndKeepsInv(s, c, ok);
  }

  lemma {:induction false} RunKeepsInv(s: State, run: seq<Action>)
    requires Inv(s) && IsRun(s, run)
    ensures Inv(After(s, run))
    decreases |run|
  {
    if run != [] {
      StepKeepsInv(s, run[0]);
      RunKeepsInv(Apply(s, run[0]), run[1..]);
    }
  }

  // ----- calls that outlive their attempt -----

  /** The target has left attempt `n` behind. */
  predicate Past(bus: Bus.State, c: Call) {
    && Bus.HasTarget(bus, c.link, c.target)
    && match bus.links[c.link].progress[c.target]
       case Idle => false
       case Attempting(m, _) => c.attempt < m
       case BackingOff(m, _) => c.attempt <= m
       case Delivered => true
       case GaveUp => true
  }

  lemma PastStays(bus: Bus.State, b: Bus.Action, c: Call)
    requires Bus.Inv(bus) && Bus.Enabled(bus, b) && Past(bus, c)
    ensures Past(Bus.Apply(bus, b), c)
  {
    assert bus.links[c.link].Coherent();
    Books.StepKeepsTargets(bus, b, c.link, c.target);
    Books.StepMovesTarget(bus, b, c.link, c.target);
  }

  lemma {:induction false} PastForGood(s: State, run: seq<Action>, c: Call)
    requires Inv(s) && IsRun(s, run) && Past(s.bus, c)
    ensures Past(After(s, run).bus, c)
    decreases |run|
  {
    if run != [] {
      StepKeepsInv(s, run[0]);
      match run[0] {
        case BusStep(b) => PastStays(s.bus, b, c);
        case HandlerEnds(d, ok) =>
          if Counts(s.bus, d) {
            PastStays(s.bus, Outcome(d, ok), c);
          }
      }
      PastForGood(Apply(s, run[0]), run[1..], c);
    }
  }

  /**
   * An attempt that timed out never counts: whatever runs in between, retries and later events included,
   * the end of its handler, good or bad, changes no counter, no progress and nothing else of the bus.
   */
  lemma TimedOutNeverCounts(s: State, k: nat, i: nat, rest: seq<Action>, ok: bool)
    requires Inv(s) && Enabled(s, BusStep(Bus.TimerFires(k, i)))
    requires IsRun(Apply(s, BusStep(Bus.TimerFires(k, i))), rest)
    requires var c := Call(k, i, s.bus.links[k].progress[i].attempt);
      Enabled(After(Apply(s, BusStep(Bus.TimerFires(k, i))), rest), HandlerEnds(c, ok))
    ensures var c := Call(k, i, s.bus.links[k].progress[i].attempt);
      var s' := After(Apply(s, BusStep(Bus.TimerFires(k, i))), rest);
      Apply(s', HandlerEnds(c, ok)) == s'.(running := s'.running - {c})
  {
    var c := Call(k, i, s.bus.links[k].progress[i].attempt);
    TimeoutPasses(s.bus, k, i);
    StepKeepsInv(s, BusStep(Bus.TimerFires(k, i)));
    PastForGood(Apply(s, BusStep(Bus.TimerFires(k, i))), rest, c);
  }

  lemma TimeoutPasses(bus: Bus.State, k: nat, i: nat)
    requires Bus.Inv(bus) && Bus.Enabled(bus, Bus.TimerFires(k, i))
    ensures Past(Bus.Apply(bus, Bus.TimerFires(k, i)), Call(k, i, bus.links[k].progress[i].attempt))
  {
  }

  // ----- each pair counts once -----

  predicate Done(bus: Bus.State, k: nat, i: nat) {
    Bus.HasTarget(bus, k, i) && bus.links[k].progress[i].Done()
  }

  /** Delivered or failed: what the two counters have counted. */
  function Counted(bus: Bus.State): nat {
    bus.counters.delivered + bus.counters.failed
  }

  predicate SettlesPair(s: State, a: Action, k: nat, i: nat)
    requires Enabled(s, a)
  {
    !Done(s.bus, k, i) && Done(Apply(s, a).bus, k, i)
  }

  function Settlements(s: State, run: seq<Action>, k: nat, i: nat): nat
    requires IsRun(s, run)
    decreases |run|
  {
    if run == [] then 0
    else (if SettlesPair(s, run[0], k, i) then 1 else 0) + Settlements(Apply(s, run[0]), run[1..], k, i)
  }

  lemma StepKeepsDone(s: State, a: Action, k: nat, i: nat)
    requires Inv(s) && Enabled(s, a) && Done(s.bus, k, i)
    ensures Done(Apply(s, a).bus, k, i)
  {
    match a
    case BusStep(b) => Bus.DoneStaysDone(s.bus, b, k, i);
    case HandlerEnds(c, ok) =>
      if Counts(s.bus, c) { Bus.DoneStaysDone(s.bus, Outcome(c, ok), k, i); }
  }

  /** Each (event, target) pair is settled once, by whichever of its calls and timers comes first. */
  lemma {:induction false} PairSettlesOnce(s: State, run: seq<Action>, k: nat, i: nat)
    requires Inv(s) && IsRun(s, run)
    ensures Settlements(s, run, k, i) == if !Done(s.bus, k, i) && Done(After(s, run).bus, k, i) then 1 else 0
    decreases |run|
  {
    if run != [] {
      StepKeepsInv(s, run[0]);
      if Done(s.bus, k, i) { StepKeepsDone(s, run[0], k, i); }
      PairSettlesOnce(Apply(s, run[0]), run[1..], k, i);
      if Done(Apply(s, run[0]).bus, k, i) { DoneForGood(Apply(s, run[0]), run[1..], k, i); }
    }
  }

  lemma {:induction false} DoneForGood(s: State, run: seq<Action>, k: nat, i: nat)
    requires Inv(s) && IsRun(s, run) && Done(s.bus, k, i)
    ensures Done(After(s, run).bus, k, i)
    decreases |run|
  {
    if run != [] {
      StepKeepsDone(s, run[0], k, i);
      StepKeepsInv(s, run[0]);
      DoneForGood(Apply(s, run[0]), run[1..], k, i);
    }
  }

  /** A step counts one delivery or failure if it settles a pair, and none otherwise. */
  lemma CountsWhatSettles(s: State, a: Action)
    requires Inv(s) && Enabled(s, a)
    ensures Counted(Apply(s, a).bus) <= Counted(s.bus) + 1
    ensures Counted(Apply(s, a).bus) == Counted(s.bus) + 1 <==> exists k: nat, i: nat :: SettlesPair(s, a, k, i)
    ensures Counted(Apply(s, a).bus) >= Counted(s.bus)
  {
    match a
    case BusStep(b) => BusCountsWhatSettles(s.bus, b);
      assert forall k: nat, i: nat :: SettlesPair(s, a, k, i) <==> !Done(s.bus, k, i) && Done(Bus.Apply(s.bus, b), k, i);
    case HandlerEnds(c, ok) =>
      if Counts(s.bus, c) {
        BusCountsWhatSettles(s.bus, Outcome(c, ok));
        assert forall k: nat, i: nat ::
          SettlesPair(s, a, k, i) <==> !Done(s.bus, k, i) && Done(Bus.Apply(s.bus, Outcome(c, ok)), k, i);
      }
  }

  lemma BusCountsWhatSettles(bus: Bus.State, b: Bus.Action)
    requires Bus.Inv(bus) && Bus.Enabled(bus, b)
    ensures var bus' := Bus.Apply(bus, b);
      && Counted(bus) <= Counted(bus') <= Counted(bus) + 1
      && (Counted(bus') == Counted(bus) + 1 <==> exists k: nat, i: nat :: !Done(bus, k, i) && Done(bus', k, i))
  {
    var bus' := Bus.Apply(bus, b);
    if b.AttemptOk? || b.AttemptFail? || b.TimerFires? {
      var k, i := b.link, b.target;
      assert !Done(bus, k, i);
      if Counted(bus') == Counted(bus) + 1 {
        assert Done(bus', k, i);
      }
      forall j: nat, n: nat ensures !Done(bus, j, n) && Done(bus', j, n) ==> j == k && n == i {
        OnlyItsPair(bus, b, j, n);
      }
    } else {
      forall k: nat, i: nat ensures !(!Done(bus, k, i) && Done(bus', k, i)) {
        OnlyItsPair(bus, b, k, i);
      }
    }
  }

  lemma OnlyItsPair(bus: Bus.State, b: Bus.Action, k: nat, i: nat)
    requires Bus.Inv(bus) && Bus.Enabled(bus, b)
    ensures !Done(bus, k, i) && Done(Bus.Apply(bus, b), k, i) ==> Bus.Attempts(b, k, i) && !b.BackoffOver?
  {
    if k < |bus.links| {
      assert bus.links[k].Coherent();
    }
    if Bus.HasTarget(bus, k, i) && b != Bus.Start(k) && !Bus.Attempts(b, k, i) {
      Bus.ProgressStays(bus, b, k, i);
    }
  }

  // ----- handlers of one lane -----

  /**
   * In every reachable state, two running calls of one lane serve the same event, unless one of them has
   * outlived its attempt.
   */
  lemma LaneRunsOneEvent(run: seq<Action>, c: Call, d: Call)
    requires IsRun(Initial, run)
    requires var s := After(Initial, run);
      && c in s.running && d in s.running && Counts(s.bus, c) && Counts(s.bus, d)
      && s.bus.links[c.link].lane == s.bus.links[d.link].lane
    ensures c.link == d.link
  {
    RunKeepsInv(Initial, run);
    var links := After(Initial, run).bus.links;
    assert links[c.link].Coherent() && links[d.link].Coherent();
    if c.link < d.link {
      assert Bus.SameLane(links, c.link, d.link);
    } else if d.link < c.link {
      assert Bus.SameLane(links, d.link, c.link);
    }
  }

  ghost predicate AllCount(s: State) {
    forall c | c in s.running :: Counts(s.bus, c)
  }

  lemma StepKeepsAllCount(s: State, a: Action)
    requires Inv(s) && AllCount(s) && Enabled(s, a) && !(a.BusStep? && a.a.TimerFires?)
    ensures AllCount(Apply(s, a))
  {
    var s' := Apply(s, a);
    forall c | c in s'.running ensures Counts(s'.bus, c) {
      if a.HandlerEnds? {
        if Counts(s.bus, a.call) {
          OtherCallCounts(s.bus, Outcome(a.call, a.ok), c);
        }
      } else if c in s.running {
        OtherCallCounts(s.bus, a.a, c);
      } else {
        BegunIsOk(s.bus, a.a, c);
      }
    }
  }

  lemma OtherCallCounts(bus: Bus.State, b: Bus.Action, c: Call)
    requires Bus.Inv(bus) && Bus.Enabled(bus, b) && Counts(bus, c)
    requires !(b.AttemptOk? || b.AttemptFail? || b.TimerFires?) || b.link != c.link || b.target != c.target
    ensures Counts(Bus.Apply(bus, b), c)
  {
    assert bus.links[c.link].Coherent();
    Bus.ProgressStays(bus, b, c.link, c.target);
  }

  /** As long as no attempt times out, no call outlives its attempt. */
  lemma {:induction false} NoTimeoutAllCount(s: State, run: seq<Action>)
    requires Inv(s) && AllCount(s) && IsRun(s, run)
    requires forall i | 0 <= i < |run| :: !(run[i].BusStep? && run[i].a.TimerFires?)
    ensures AllCount(After(s, run))
    decreases |run|
  {
    if run != [] {
      StepKeepsInv(s, run[0]);
      StepKeepsAllCount(s, run[0]);
      NoTimeoutAllCount(Apply(s, run[0]), run[1..]);
    }
  }
}
