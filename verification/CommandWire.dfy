/**
 * Request and response over the broker: the map of pending commands, their timers, and the promises
 * that `sendCommand` hands out. A call is named by its position in the list of calls.
 */
module CommandWire {
  datatype Option<+T> = None | Some(value: T)

  datatype Response = Response(id: string, ok: bool, result: string)

  /** `Answered` names the arrival that settled the call. */
  datatype Outcome = Answered(arrival: nat) | TimedOut | SendFailed | NotConnected | AlreadyInFlight | BadTopic

  /** `heardBefore` is how many responses had arrived when the call was made. */
  datatype Call = Call(id: string, sentAt: nat, timeoutMs: nat, heardBefore: nat, outcome: Option<Outcome>, settledAt: nat)

  /**
   * `connected`: the client object exists. `abandoned`: calls whose entry the shutdown cleared without
   * settling their promise. `arrivals`: every well-formed response that reached the process.
   */
  datatype State = State(
    now: nat, connected: bool, calls: seq<Call>, pending: map<string, nat>, timers: set<nat>,
    arrivals: seq<Response>, abandoned: set<nat>)

  function Fresh(now: nat): State { State(now, false, [], map[], {}, [], {}) }

  datatype Action =
    | Connect
    | Send(id: string, timeoutMs: nat, topicOk: bool, published: bool)
    | Arrive(response: Response)
    | TimerFires(call: nat)
    | ShutDown
    | Disconnect
    | Advance(ms: nat)

  predicate Enabled(s: State, a: Action) {
    a.TimerFires? ==>
      a.call in s.timers && a.call < |s.calls| && s.calls[a.call].sentAt + s.calls[a.call].timeoutMs <= s.now
  }

  function Settle(s: State, c: nat, outcome: Outcome): State
    requires c < |s.calls|
  {
    s.(calls := s.calls[c := s.calls[c].(outcome := Some(outcome), settledAt := s.now)],
       pending := s.pending - {s.calls[c].id}, timers := s.timers - {c})
  }

  function NewCall(s: State, id: string, timeoutMs: nat, outcome: Option<Outcome>): Call {
    Call(id, s.now, timeoutMs, |s.arrivals|, outcome, s.now)
  }

  function Refuse(s: State, id: string, timeoutMs: nat, outcome: Outcome): State {
    s.(calls := s.calls + [NewCall(s, id, timeoutMs, Some(outcome))])
  }

  /** `topicOk`: the command topic could be built; `published`: the client took the message. */
  function AfterSend(s: State, id: string, timeoutMs: nat, topicOk: bool, published: bool): State {
    if !s.connected then Refuse(s, id, timeoutMs, NotConnected)
    else if id in s.pending then Refuse(s, id, timeoutMs, AlreadyInFlight)
    else if !topicOk then Refuse(s, id, timeoutMs, BadTopic)
    else
      var c := |s.calls|;
      var armed := s.(
        calls := s.calls + [NewCall(s, id, timeoutMs, None)],
        pending := s.pending[id := c], timers := s.timers + {c});
      if published then armed else Settle(armed, c, SendFailed)
  }

  /** Every pending entry names a call, so the bound is no extra condition: see `Inv`. */
  function AfterArrival(s: State, r: Response): State {
    var heard := s.(arrivals := s.arrivals + [r]);
    if r.id in s.pending && s.pending[r.id] < |s.calls| then Settle(heard, s.pending[r.id], Answered(|s.arrivals|)) else heard
  }

  function Apply(s: State, a: Action): State
    requires Enabled(s, a)
  {
    match a
    case Connect => s.(connected := true)
    case Send(id, timeoutMs, topicOk, published) => AfterSend(s, id, timeoutMs, topicOk, published)
    case Arrive(r) => AfterArrival(s, r)
    case TimerFires(c) => Settle(s, c, TimedOut)
    case ShutDown => s.(pending := map[], timers := {}, abandoned := s.abandoned + s.timers)
    case Disconnect => s.(connected := false)
    case Advance(ms) => s.(now := s.now + ms)
  }

  // ----- invariant -----

  ghost predicate NoneFor(arrivals: seq<Response>, from: nat, to: nat, id: string) {
    to <= |arrivals| && forall j | from <= j < to :: arrivals[j].id != id
  }

  /** What is known of one call. */
  ghost predicate CallOk(s: State, c: nat)
    requires c < |s.calls|
  {
    var call := s.calls[c];
    && call.heardBefore <= |s.arrivals| && call.sentAt <= s.now && call.settledAt <= s.now
    && (call.outcome.None? <==> c in s.timers || c in s.abandoned)
    && (c in s.timers ==> call.id in s.pending && s.pending[call.id] == c && c !in s.abandoned
                          && NoneFor(s.arrivals, call.heardBefore, |s.arrivals|, call.id))
    && (call.outcome.Some? && call.outcome.value.Answered? ==>
          var j := call.outcome.value.arrival;
          && call.heardBefore <= j < |s.arrivals| && s.arrivals[j].id == call.id
          && NoneFor(s.arrivals, call.heardBefore, j, call.id))
  }

  ghost predicate Inv(s: State) {
    && (forall id | id in s.pending :: s.pending[id] in s.timers && s.pending[id] < |s.calls| && s.calls[s.pending[id]].id == id)
    && (forall c: nat | c in s.timers || c in s.abandoned :: c < |s.calls|)
    && (forall c | 0 <= c < |s.calls| :: CallOk(s, c))
  }

  lemma SettleKeepsInv(s: State, c: nat, outcome: Outcome)
    requires Inv(s) && c in s.timers && !outcome.Answered?
    ensures c < |s.calls| && Inv(Settle(s, c, outcome))
  {
    var s' := Settle(s, c, outcome);
    assert CallOk(s, c);
    forall d | 0 <= d < |s'.calls| ensures CallOk(s', d) {
      assert CallOk(s, d);
    }
  }

  lemma ArrivalKeepsInv(s: State, r: Response)
    requires Inv(s)
    ensures Inv(AfterArrival(s, r))
  {
    var s' := AfterArrival(s, r);
    forall d | 0 <= d < |s'.calls| ensures CallOk(s', d) {
      ArrivalKeepsCall(s, r, d);
    }
    if r.id in s.pending {
      assert CallOk(s, s.pending[r.id]);
    }
  }

  lemma ArrivalKeepsCall(s: State, r: Response, d: nat)
    requires Inv(s) && d < |s.calls|
    ensures CallOk(AfterArrival(s, r), d)
  {
    assert CallOk(s, d);
    if r.id in s.pending {
      assert CallOk(s, s.pending[r.id]);
    }
  }

  lemma SendKeepsInv(s: State, id: string, timeoutMs: nat, topicOk: bool, published: bool)
    requires Inv(s)
    ensures Inv(AfterSend(s, id, timeoutMs, topicOk, published))
  {
    if s.connected && id !in s.pending && topicOk {
      var c := |s.calls|;
      var armed := s.(
        calls := s.calls + [NewCall(s, id, timeoutMs, None)], pending := s.pending[id := c], timers := s.timers + {c});
      forall d | 0 <= d < |armed.calls| ensures CallOk(armed, d) {
        if d < c { assert CallOk(s, d); }
      }
      assert Inv(armed);
      if !published {
        SettleKeepsInv(armed, c, SendFailed);
      }
    } else {
      var s' := AfterSend(s, id, timeoutMs, topicOk, published);
      forall d | 0 <= d < |s'.calls| ensures CallOk(s', d) {
        if d < |s.calls| { assert CallOk(s, d); }
      }
    }
  }

  lemma StepKeepsInv(s: State, a: Action)
    requires Inv(s) && Enabled(s, a)
    ensures Inv(Apply(s, a))
  {
    match a
    case Connect => QuietKeepsInv(s, a);
    case Send(id, timeoutMs, topicOk, published) => SendKeepsInv(s, id, timeoutMs, topicOk, published);
    case Arrive(r) => ArrivalKeepsInv(s, r);
    case TimerFires(c) => SettleKeepsInv(s, c, TimedOut);
    case ShutDown => QuietKeepsInv(s, a);
    case Disconnect => QuietKeepsInv(s, a);
    case Advance(_) => QuietKeepsInv(s, a);
  }

  lemma QuietKeepsInv(s: State, a: Action)
    requires Inv(s) && (a.Connect? || a.ShutDown? || a.Disconnect? || a.Advance?)
    ensures Inv(Apply(s, a))
  {
    var s' := Apply(s, a);
    forall d | 0 <= d < |s'.calls| ensures CallOk(s', d) {
      assert CallOk(s, d);
    }
  }

  // ----- runs -----

  predicate IsRun(s: State, run: seq<Action>)
    decreases |run|
  {
    run == [] || (Enabled(s, run[0]) && IsRun(Apply(s, run[0]), run[1..]))
  }

  function After(s: State, run: seq<Action>): State
    requires IsRun(s, run)
    decreases |run|
  {
    if run == [] then s else After(Apply(s, run[0]), run[1..])
  }

  lemma {:induction false} RunKeepsInv(s: State, run: seq<Action>)
    requires Inv(s) && IsRun(s, run)
    ensures Inv(After(s, run))
    decreases |run|
  {
    if run != [] {
      StepKeepsInv(s, run[0]);
      RunKeepsInv(Apply(s, run[0]), run[1..]);
    }
  }

  /** The keys of the pending map are exactly the ids of the armed timers, one timer each. */
  lemma PendingAreArmed(now: nat, run: seq<Action>)
    requires IsRun(Fresh(now), run)
    ensures var s := After(Fresh(now), run);
      && (forall c: nat | c in s.timers :: c < |s.calls| && s.calls[c].outcome == None)
      && (forall id :: id in s.pending <==> exists c: nat :: c in s.timers && c < |s.calls| && s.calls[c].id == id)
      && (forall c: nat, d: nat | c in s.timers && d in s.timers && c < |s.calls| && d < |s.calls| && s.calls[c].id == s.calls[d].id :: c == d)
  {
    var s := After(Fresh(now), run);
    RunKeepsInv(Fresh(now), run);
    TimersArePending(s);
    forall c: nat | c in s.timers ensures s.calls[c].outcome == None {
      assert CallOk(s, c);
    }
    forall id ensures id in s.pending <==> exists c: nat :: c in s.timers && c < |s.calls| && s.calls[c].id == id {
      if id in s.pending {
        var c := s.pending[id];
        assert c in s.timers && c < |s.calls| && s.calls[c].id == id;
      }
    }
  }

  /** A settled promise never changes again, and a call keeps its id and deadline. */
  lemma SettledStays(s: State, a: Action, c: nat)
    requires Inv(s) && Enabled(s, a) && c < |s.calls|
    ensures c < |Apply(s, a).calls|
    ensures var call, call' := s.calls[c], Apply(s, a).calls[c];
      && call'.id == call.id && call'.sentAt == call.sentAt && call'.timeoutMs == call.timeoutMs
      && call'.heardBefore == call.heardBefore
      && (call.outcome.Some? ==> call' == call)
  {
    assert CallOk(s, c);
  }

  /** A response to nobody (duplicate, late or foreign) changes nothing; any other settles its one call. */
  lemma ResponseEffect(s: State, r: Response)
    requires Inv(s)
    ensures var s' := Apply(s, Arrive(r));
      if r.id in s.pending then
        var c := s.pending[r.id];
        && s.calls[c].id == r.id && s.calls[c].outcome == None
        && s'.calls[c].outcome == Some(Answered(|s.arrivals|)) && s'.arrivals[|s.arrivals|] == r
        && s'.calls[c].settledAt == s.now
        && s'.pending == s.pending - {r.id} && s'.timers == s.timers - {c}
        && forall d | 0 <= d < |s.calls| && d != c :: s'.calls[d] == s.calls[d]
      else s' == s.(arrivals := s.arrivals + [r])
  {
    if r.id in s.pending {
      assert CallOk(s, s.pending[r.id]);
    }
  }

  /** The same response again, right away, changes nothing more. */
  lemma DuplicateIsDropped(s: State, r: Response)
    requires Inv(s)
    ensures var s' := Apply(s, Arrive(r));
      Apply(s', Arrive(r)) == s'.(arrivals := s'.arrivals + [r])
  {
    if r.id in s.pending {
      assert s.calls[s.pending[r.id]].id == r.id;
    }
  }

  /** A call that was answered got the first response with its own id that arrived after it was made. */
  lemma AnswerIsFirstOwn(now: nat, run: seq<Action>, c: nat)
    requires IsRun(Fresh(now), run)
    requires var s := After(Fresh(now), run); c < |s.calls| && s.calls[c].outcome.Some? && s.calls[c].outcome.value.Answered?
    ensures var s := After(Fresh(now), run); var call := s.calls[c]; var j := call.outcome.value.arrival;
      && call.heardBefore <= j < |s.arrivals| && s.arrivals[j].id == call.id
      && forall i | call.heardBefore <= i < j :: s.arrivals[i].id != call.id
  {
    RunKeepsInv(Fresh(now), run);
    assert CallOk(After(Fresh(now), run), c);
  }

  // ----- a call from its sending to its end -----

  /** Nothing stands in the way of sending: the client is there, the id is free, the topic fine and the message taken. */
  predicate GoesOut(s: State, id: string, topicOk: bool, published: bool) {
    s.connected && id !in s.pending && topicOk && published
  }

  /**
   * `sendCommand`, in every state: the new call waits, with its id pending and its timer running, if and
   * only if nothing stands in the way; otherwise it is settled at once with the first obstacle in the
   * order of the code. Nothing else changes.
   */
  lemma SendEffect(s: State, id: string, timeoutMs: nat, topicOk: bool, published: bool)
    requires Inv(s)
    ensures var s', c, goes := Apply(s, Send(id, timeoutMs, topicOk, published)), |s.calls|, GoesOut(s, id, topicOk, published);
      && |s'.calls| == c + 1
      && s'.calls[c].id == id && s'.calls[c].timeoutMs == timeoutMs && s'.calls[c].sentAt == s.now
      && s'.calls[c].heardBefore == |s.arrivals|
      && (s'.calls[c].outcome.None? <==> goes) && (c in s'.timers <==> goes)
      && (goes ==> id in s'.pending && s'.pending[id] == c)
      && (!s.connected ==> s'.calls[c].outcome == Some(NotConnected))
      && (s.connected && id in s.pending ==> s'.calls[c].outcome == Some(AlreadyInFlight))
      && (s.connected && id !in s.pending && !topicOk ==> s'.calls[c].outcome == Some(BadTopic))
      && (s.connected && id !in s.pending && topicOk && !published ==> s'.calls[c].outcome == Some(SendFailed))
      && s'.calls[..c] == s.calls && s'.timers - {c} == s.timers
      && (forall other | other != id :: (other in s'.pending <==> other in s.pending)
                                        && (other in s.pending ==> s'.pending[other] == s.pending[other]))
      && (!goes ==> s'.pending == s.pending)
      && s'.now == s.now && s'.connected == s.connected && s'.arrivals == s.arrivals && s'.abandoned == s.abandoned
  {
    assert |s.calls| !in s.timers;
  }

  /** The timer of a waiting call may fire from `timeoutMs` after it was sent, and not before. */
  lemma TimerIsDue(s: State, c: nat)
    requires Inv(s) && c in s.timers
    ensures c < |s.calls|
    ensures Enabled(s, TimerFires(c)) <==> s.now >= s.calls[c].sentAt + s.calls[c].timeoutMs
  {
  }

  /** When it fires, exactly its call ends, as timed out, and its id is free again. */
  lemma TimeoutEffect(s: State, c: nat)
    requires Inv(s) && Enabled(s, TimerFires(c))
    ensures c < |s.calls|
    ensures var s' := Apply(s, TimerFires(c));
      && |s'.calls| == |s.calls| && s'.calls[c].outcome == Some(TimedOut) && s'.calls[c].settledAt == s.now
      && (forall d | 0 <= d < |s.calls| && d != c :: s'.calls[d] == s.calls[d])
      && s'.timers == s.timers - {c} && s'.pending == s.pending - {s.calls[c].id} && s'.arrivals == s.arrivals
  {
    assert CallOk(s, c);
  }

  /** Neither a shutdown, nor the call's own timer, nor a response with its id. */
  predicate LeavesWaiting(run: seq<Action>, c: nat, id: string) {
    forall a | a in run :: !a.ShutDown? && a != TimerFires(c) && (a.Arrive? ==> a.response.id != id)
  }

  lemma StepLeavesWaiting(s: State, a: Action, c: nat)
    requires Inv(s) && Enabled(s, a) && c in s.timers
    requires !a.ShutDown? && a != TimerFires(c) && (a.Arrive? ==> a.response.id != s.calls[c].id)
    ensures c in Apply(s, a).timers && c < |Apply(s, a).calls| && Apply(s, a).calls[c] == s.calls[c]
  {
    TimersArePending(s);
    assert CallOk(s, c);
  }

  lemma {:induction false} RunLeavesWaiting(s: State, run: seq<Action>, c: nat)
    requires Inv(s) && IsRun(s, run) && c in s.timers && LeavesWaiting(run, c, s.calls[c].id)
    ensures c in After(s, run).timers && c < |After(s, run).calls| && After(s, run).calls[c] == s.calls[c]
    ensures Inv(After(s, run))
    decreases |run|
  {
    if run != [] {
      assert run[0] in run;
      StepLeavesWaiting(s, run[0], c);
      StepKeepsInv(s, run[0]);
      forall a | a in run[1..] ensures a in run {}
      RunLeavesWaiting(Apply(s, run[0]), run[1..], c);
    }
  }

  /**
   * A command that went out is answered: whatever happens before, as long as it is no shutdown, no timer
   * of its own and no response with its id, the first response with its id settles exactly this call.
   */
  lemma CommandIsAnswered(
    s: State, id: string, timeoutMs: nat, topicOk: bool, published: bool, run: seq<Action>, r: Response)
    requires Inv(s) && GoesOut(s, id, topicOk, published) && r.id == id
    requires IsRun(Apply(s, Send(id, timeoutMs, topicOk, published)), run) && LeavesWaiting(run, |s.calls|, id)
    ensures var c, s1 := |s.calls|, After(Apply(s, Send(id, timeoutMs, topicOk, published)), run); var s2 := Apply(s1, Arrive(r));
      && c < |s1.calls| && s1.calls[c].outcome.None?
      && c < |s2.calls| && s2.calls[c].outcome == Some(Answered(|s1.arrivals|))
      && |s2.arrivals| == |s1.arrivals| + 1 && s2.arrivals[|s1.arrivals|] == r
      && c !in s2.timers && id !in s2.pending
  {
    var s0 := Apply(s, Send(id, timeoutMs, topicOk, published));
    SendEffect(s, id, timeoutMs, topicOk, published);
    SendKeepsInv(s, id, timeoutMs, topicOk, published);
    RunLeavesWaiting(s0, run, |s.calls|);
    var s1 := After(s0, run);
    assert CallOk(s1, |s.calls|);
    ResponseEffect(s1, r);
  }

  /** In every run: the client is there exactly if the last change was a connection, and the clock is what has passed. */
  lemma ConnectedExactly(now: nat, run: seq<Action>)
    requires IsRun(Fresh(now), run)
    ensures After(Fresh(now), run).connected <==> LastConnects(run, false)
    ensures After(Fresh(now), run).now == now + Elapsed(run)
  {
    ConnectionAndClock(Fresh(now), run);
  }

  lemma {:induction false} ConnectionAndClock(s: State, run: seq<Action>)
    requires IsRun(s, run)
    ensures After(s, run).connected <==> LastConnects(run, s.connected)
    ensures After(s, run).now == s.now + Elapsed(run)
    decreases |run|
  {
    if run != [] {
      StepConnectionAndClock(s, run[0]);
      ConnectionAndClock(Apply(s, run[0]), run[1..]);
    }
  }

  lemma StepConnectionAndClock(s: State, a: Action)
    requires Enabled(s, a)
    ensures Apply(s, a).connected == (if a.Connect? then true else if a.Disconnect? then false else s.connected)
    ensures Apply(s, a).now == s.now + (if a.Advance? then a.ms else 0)
  {
  }

  function Elapsed(run: seq<Action>): nat {
    if run == [] then 0 else (if run[0].Advance? then run[0].ms else 0) + Elapsed(run[1..])
  }

  predicate LastConnects(run: seq<Action>, before: bool) {
    if run == [] then before
    else LastConnects(run[1..], if run[0].Connect? then true else if run[0].Disconnect? then false else before)
  }

  // ----- timing -----

  ghost predicate Prompt(s: State, a: Action) {
    a.Advance? ==> forall c: nat | c in s.timers && c < |s.calls| :: s.now + a.ms <= s.calls[c].sentAt + s.calls[c].timeoutMs
  }

  /** Every call is still within its timeout, or was settled within it. */
  ghost predicate InTime(s: State) {
    && s.abandoned == {}
    && forall c | 0 <= c < |s.calls| :: CallInTime(s.calls[c], s.now)
  }

  predicate CallInTime(call: Call, now: nat) {
    (if call.outcome.None? then now else call.settledAt) <= call.sentAt + call.timeoutMs
  }

  lemma StepKeepsInTime(s: State, a: Action)
    requires Inv(s) && InTime(s) && Enabled(s, a) && Prompt(s, a) && !a.ShutDown?
    ensures InTime(Apply(s, a))
  {
    var s' := Apply(s, a);
    forall c | 0 <= c < |s'.calls| ensures CallInTime(s'.calls[c], s'.now) {
      if c < |s.calls| {
        assert CallOk(s, c) && CallInTime(s.calls[c], s.now);
      }
    }
  }

  ghost predicate IsPromptRun(s: State, run: seq<Action>)
    requires IsRun(s, run)
    decreases |run|
  {
    run == [] || (Prompt(s, run[0]) && !run[0].ShutDown? && IsPromptRun(Apply(s, run[0]), run[1..]))
  }

  lemma {:induction false} RunKeepsInTime(s: State, run: seq<Action>)
    requires Inv(s) && InTime(s) && IsRun(s, run) && IsPromptRun(s, run)
    ensures InTime(After(s, run))
    decreases |run|
  {
    if run != [] {
      StepKeepsInTime(s, run[0]);
      StepKeepsInv(s, run[0]);
      RunKeepsInTime(Apply(s, run[0]), run[1..]);
    }
  }

  /** Without a shutdown, and with prompt timers, every promise settles by its timeout. */
  lemma SettlesInTime(now: nat, run: seq<Action>, c: nat)
    requires IsRun(Fresh(now), run) && IsPromptRun(Fresh(now), run)
    requires c < |After(Fresh(now), run).calls|
    ensures var s := After(Fresh(now), run); var call := s.calls[c];
      && (call.outcome.Some? ==> call.settledAt <= call.sentAt + call.timeoutMs)
      && (s.now > call.sentAt + call.timeoutMs ==> call.outcome.Some?)
  {
    RunKeepsInTime(Fresh(now), run);
    assert CallInTime(After(Fresh(now), run).calls[c], After(Fresh(now), run).now);
  }

  /** A promise cleared by the shutdown stays open for good. */
  lemma AbandonedStaysOpen(s: State, a: Action, c: nat)
    requires Inv(s) && Enabled(s, a) && c in s.abandoned
    ensures c in Apply(s, a).abandoned && c < |s.calls| && Apply(s, a).calls[c] == s.calls[c] && s.calls[c].outcome == None
  {
    assert CallOk(s, c);
    StepKeepsInv(s, a);
    assert CallOk(Apply(s, a), c);
  }

  lemma TimersArePending(s: State)
    requires Inv(s)
    ensures forall c: nat | c in s.timers :: c < |s.calls| && s.calls[c].id in s.pending && s.pending[s.calls[c].id] == c
  {
    forall c: nat | c in s.timers ensures c < |s.calls| && s.calls[c].id in s.pending && s.pending[s.calls[c].id] == c {
      assert CallOk(s, c);
    }
  }

  // ----- the object -----

  class MqttService {
    var connected: bool
    var pending: map<string, nat>
    var timers: set<nat>
    var calls: seq<Call>
    var arrivals: seq<Response>
    var now: nat
    ghost var abandoned: set<nat>

    ghost function Model(): State
      reads this
    {
      State(now, connected, calls, pending, timers, arrivals, abandoned)
    }

    constructor (now: nat)
      ensures Model() == Fresh(now)
    {
      this.now, connected, pending, timers, calls, arrivals := now, false, map[], {}, [], [];
      abandoned := {};
    }

    method OnModuleInit()
      modifies this`connected
      ensures Model() == Apply(old(Model()), Connect)
    {
      connected := true;
    }

    /** Returns the promise: the position of the new call. */
    method SendCommand(id: string, timeoutMs: nat, topicOk: bool, published: bool) returns (call: nat)
      modifies this`calls, this`pending, this`timers
      ensures Model() == Apply(old(Model()), Send(id, timeoutMs, topicOk, published))
      ensures call == |old(calls)|
    {
      call := |calls|;
      if !connected {
        calls := calls + [Call(id, now, timeoutMs, |arrivals|, Some(NotConnected), now)];
        return;
      }
      if id in pending {
        calls := calls + [Call(id, now, timeoutMs, |arrivals|, Some(AlreadyInFlight), now)];
        return;
      }
      if !topicOk {
        calls := calls + [Call(id, now, timeoutMs, |arrivals|, Some(BadTopic), now)];
        return;
      }
      calls := calls + [Call(id, now, timeoutMs, |arrivals|, None, now)];
      timers := timers + {call};
      pending := pending[id := call];
      if !published {
        timers := timers - {call};
        pending := pending - {id};
        SettleCall(call, SendFailed);
      }
    }

    /** Resolves or rejects the promise of a call. */
    method SettleCall(call: nat, outcome: Outcome)
      requires call < |calls|
      modifies this`calls
      ensures calls == old(calls)[call := old(calls[call]).(outcome := Some(outcome), settledAt := now)]
    {
      calls := calls[call := calls[call].(outcome := Some(outcome), settledAt := now)];
    }

    method HandleResponse(response: Response)
      requires Inv(Model())
      modifies this`calls, this`pending, this`timers, this`arrivals
      ensures Model() == Apply(old(Model()), Arrive(response))
    {
      var arrival := |arrivals|;
      arrivals := arrivals + [response];
      if response.id !in pending {
        return;
      }
      var call := pending[response.id];
      timers := timers - {call};
      pending := pending - {response.id};
      SettleCall(call, Answered(arrival));
    }

    /** The timeout callback of one call. */
    method TimerFires(call: nat)
      requires Enabled(Model(), Action.TimerFires(call))
      modifies this`calls, this`pending, this`timers
      ensures Model() == Apply(old(Model()), Action.TimerFires(call))
    {
      timers := timers - {call};
      pending := pending - {calls[call].id};
      SettleCall(call, TimedOut);
    }

    /** Timers are cleared one pending entry after the other. */
    method ClearTimers()
      requires forall c: nat | c in timers :: c < |calls| && calls[c].id in pending && pending[calls[c].id] == c
      modifies this`timers
      ensures timers == {}
    {
      var ids := pending.Keys;
      while ids != {}
        invariant ids <= pending.Keys
        invariant forall c: nat | c in timers :: c < |calls| && calls[c].id in ids && pending[calls[c].id] == c
        decreases |ids|
      {
        var id :| id in ids;
        timers := timers - {pending[id]};
        ids := ids - {id};
      }
      assert timers == {};
    }

    /** The first turn of `onModuleDestroy`. */
    method OnModuleDestroy()
      requires Inv(Model())
      modifies this`pending, this`timers, this`abandoned
      ensures Model() == Apply(old(Model()), ShutDown)
    {
      TimersArePending(Model());
      abandoned := abandoned + timers;
      ClearTimers();
      pending := map[];
    }

    /** The end of `onModuleDestroy`. */
    method ClientEnded()
      modifies this`connected
      ensures Model() == Apply(old(Model()), Disconnect)
    {
      connected := false;
    }
  }
}
