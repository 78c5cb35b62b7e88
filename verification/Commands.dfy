/**
 * The life of a command: its row, its result row and its two events, over any number of processes
 * that boot, crash or stop. Every write to the database is a step of its own, and its reply may be
 * lost; in-memory state dies with the process, rows and published events do not.
 */
module Commands {
  import Wire = CommandWire

  datatype Status = Pending | Succeeded | Failed | Rejected | TimedOut

  datatype Row = Row(status: Status, correlation: string, timeoutMs: nat)

  /** What `resolveOutcome` is given: the device's response, or the error as a failed response. */
  datatype Verdict = Verdict(ok: bool, text: string)

  datatype Event =
    | Created(id: string, correlation: string)
    | Completed(id: string, correlation: string, status: Status, ok: bool)

  /** Where a running `dispatch` is: each stage ends when an awaited reply arrives. */
  datatype Flight = Inserted | Awaiting(call: nat) | StatusSaved(verdict: Verdict) | ResultSaved(verdict: Verdict)

  /** The two text tests of `classify` and the messages of the gateway's errors, all left abstract. */
  datatype Texts = Texts(
    denied: string -> bool, mentionsTimeout: string -> bool, describe: (string, Wire.Outcome) -> string)

  /** `heard`: every response any process has received so far. */
  datatype State = State(
    up: bool, rows: map<string, Row>, results: map<string, Verdict>, events: seq<Event>,
    flights: map<string, Flight>, wire: Wire.State, heard: seq<Wire.Response>)

  const EMPTY := State(false, map[], map[], [], map[], Wire.Fresh(0), [])

  /** `replied` is false when the write landed but its reply was lost, so that `dispatch` throws. */
  datatype Action =
    | Boot(sweepOk: bool)
    | Crash
    | Insert(id: string, correlation: string, timeoutMs: nat, replied: bool)
    | Send(id: string, topicOk: bool, published: bool)
    | WireStep(step: Wire.Action)
    | SaveStatus(id: string, replied: bool)
    | SaveResult(id: string, replied: bool)
    | Complete(id: string)
    | WriteRejected(id: string)
  {
    /** Nothing goes wrong in this step on the platform's side. */
    predicate Clean() {
      match this
      case Boot(_) => true
      case Crash => false
      case Insert(_, _, _, replied) => replied
      case Send(_, _, _) => true
      case WireStep(_) => true
      case SaveStatus(_, replied) => replied
      case SaveResult(_, replied) => replied
      case Complete(_) => true
      case WriteRejected(_) => false
    }
  }

  function Classify(t: Texts, v: Verdict): Status {
    if v.ok then Succeeded
    else if t.denied(v.text) then Rejected
    else if t.mentionsTimeout(v.text) then TimedOut
    else Failed
  }

  predicate Settled(wire: Wire.State, c: nat) {
    && c < |wire.calls| && wire.calls[c].outcome.Some?
    && (wire.calls[c].outcome.value.Answered? ==> wire.calls[c].outcome.value.arrival < |wire.arrivals|)
  }

  function VerdictOf(t: Texts, wire: Wire.State, c: nat): Verdict
    requires Settled(wire, c)
  {
    var outcome := wire.calls[c].outcome.value;
    if outcome.Answered? then
      Verdict(wire.arrivals[outcome.arrival].ok, wire.arrivals[outcome.arrival].result)
    else Verdict(false, t.describe(wire.calls[c].id, outcome))
  }

  predicate InFlight(s: State, id: string) {
    s.up && id in s.flights && id in s.rows
  }

  predicate Enabled(s: State, a: Action) {
    match a
    case Boot(_) => !s.up
    case Crash => s.up
    case Insert(id, _, _, _) => s.up && id !in s.rows
    case Send(id, _, _) => InFlight(s, id) && s.flights[id].Inserted?
    case WireStep(step) => s.up && !step.Send? && Wire.Enabled(s.wire, step)
    case SaveStatus(id, _) => InFlight(s, id) && s.flights[id].Awaiting? && Settled(s.wire, s.flights[id].call)
    case SaveResult(id, _) => InFlight(s, id) && s.flights[id].StatusSaved?
    case Complete(id) => InFlight(s, id) && s.flights[id].ResultSaved?
    case WriteRejected(id) =>
      && InFlight(s, id)
      && (s.flights[id].StatusSaved? || (s.flights[id].Awaiting? && Settled(s.wire, s.flights[id].call)))
  }

  /** The update of `onModuleInit`: every pending row is closed as timed out. */
  function Swept(rows: map<string, Row>): map<string, Row> {
    map id | id in rows :: if rows[id].status.Pending? then rows[id].(status := TimedOut) else rows[id]
  }

  function AfterBoot(s: State, sweepOk: bool): State {
    s.(up := true, wire := Wire.Fresh(s.wire.now), rows := if sweepOk then Swept(s.rows) else s.rows)
  }

  function Goes(s: State, id: string, flight: Flight, on: bool): State {
    s.(flights := if on then s.flights[id := flight] else s.flights - {id})
  }

  function AfterInsert(s: State, id: string, correlation: string, timeoutMs: nat, replied: bool): State {
    Goes(s.(rows := s.rows[id := Row(Pending, correlation, timeoutMs)]), id, Inserted, replied)
  }

  function AfterSend(s: State, id: string, topicOk: bool, published: bool): State
    requires id in s.rows
  {
    var call := |s.wire.calls|;
    Goes(s.(events := s.events + [Created(id, s.rows[id].correlation)],
            wire := Wire.AfterSend(s.wire, id, s.rows[id].timeoutMs, topicOk, published)),
         id, Awaiting(call), true)
  }

  function AfterWireStep(s: State, step: Wire.Action): State
    requires Wire.Enabled(s.wire, step)
  {
    s.(wire := Wire.Apply(s.wire, step), heard := if step.Arrive? then s.heard + [step.response] else s.heard)
  }

  function AfterSaveStatus(t: Texts, s: State, id: string, replied: bool): State
    requires id in s.rows && id in s.flights && s.flights[id].Awaiting? && Settled(s.wire, s.flights[id].call)
  {
    var v := VerdictOf(t, s.wire, s.flights[id].call);
    Goes(s.(rows := s.rows[id := s.rows[id].(status := Classify(t, v))]), id, StatusSaved(v), replied)
  }

  function AfterSaveResult(s: State, id: string, replied: bool): State
    requires id in s.flights && s.flights[id].StatusSaved?
  {
    var v := s.flights[id].verdict;
    Goes(s.(results := s.results[id := v]), id, ResultSaved(v), replied)
  }

  function AfterComplete(t: Texts, s: State, id: string): State
    requires id in s.rows && id in s.flights && s.flights[id].ResultSaved?
  {
    var v := s.flights[id].verdict;
    s.(events := s.events + [Completed(id, s.rows[id].correlation, Classify(t, v), v.ok)], flights := s.flights - {id})
  }

  function Apply(t: Texts, s: State, a: Action): State
    requires Enabled(s, a)
  {
    match a
    case Boot(sweepOk) => AfterBoot(s, sweepOk)
    case Crash => s.(up := false, flights := map[])
    case Insert(id, correlation, timeoutMs, replied) => AfterInsert(s, id, correlation, timeoutMs, replied)
    case Send(id, topicOk, published) => AfterSend(s, id, topicOk, published)
    case WireStep(step) => AfterWireStep(s, step)
    case SaveStatus(id, replied) => AfterSaveStatus(t, s, id, replied)
    case SaveResult(id, replied) => AfterSaveResult(s, id, replied)
    case Complete(id) => AfterComplete(t, s, id)
    case WriteRejected(id) => s.(flights := s.flights - {id})
  }

  // ----- what is known of one command -----

  /** The events about one command, in the order of publication. */
  function EventsOf(events: seq<Event>, id: string): seq<Event> {
    if events == [] then []
    else
      var last := events[|events| - 1];
      EventsOf(events[..|events| - 1], id) + (if last.id == id then [last] else [])
  }

  lemma EventsOfAppend(events: seq<Event>, e: Event, id: string)
    ensures EventsOf(events + [e], id) == EventsOf(events, id) + (if e.id == id then [e] else [])
  {
    assert (events + [e])[..|events|] == events;
  }

  ghost predicate Reported(heard: seq<Wire.Response>, id: string, v: Verdict) {
    exists j | 0 <= j < |heard| :: heard[j] == Wire.Response(id, v.ok, v.text)
  }

  /** A verdict is a response that carried the command's own id, or a gateway error. */
  ghost predicate Explained(t: Texts, heard: seq<Wire.Response>, id: string, v: Verdict) {
    Reported(heard, id, v) || (!v.ok && exists o: Wire.Outcome :: !o.Answered? && v.text == t.describe(id, o))
  }

  /** What the durable records of one command may look like, at any time. */
  ghost predicate Records(t: Texts, s: State, id: string)
    requires id in s.rows
  {
    var row, published := s.rows[id], EventsOf(s.events, id);
    && (published == [] || published == [Created(id, row.correlation)]
        || (id in s.results && published == [Created(id, row.correlation), Completed(id, row.correlation, row.status, s.results[id].ok)]))
    && (id in s.results ==> published != [] && row.status == Classify(t, s.results[id]) && Explained(t, s.heard, id, s.results[id]))
    && (published == [] ==> row.status in {Pending, TimedOut})
    && (row.status.Succeeded? ==> exists v: Verdict :: v.ok && Reported(s.heard, id, v))
  }

  /** What a running dispatch knows about the records. */
  ghost predicate Stage(t: Texts, s: State, id: string)
    requires id in s.rows && id in s.flights
  {
    var row, published := s.rows[id], EventsOf(s.events, id);
    && (id in s.results <==> s.flights[id].ResultSaved?)
    && match s.flights[id]
       case Inserted => row.status.Pending? && published == []
       case Awaiting(c) => row.status.Pending? && |published| == 1 && c < |s.wire.calls| && s.wire.calls[c].id == id
       case StatusSaved(v) => row.status == Classify(t, v) && |published| == 1 && Explained(t, s.heard, id, v)
       case ResultSaved(v) => |published| == 1 && s.results[id] == v
  }

  ghost predicate Known(t: Texts, s: State, id: string) {
    && (id in s.rows ==> Records(t, s, id))
    && (id !in s.rows ==> id !in s.results && EventsOf(s.events, id) == [] && id !in s.flights)
    && (id in s.flights && id in s.rows ==> Stage(t, s, id))
  }

  predicate Remembered(s: State) {
    |s.wire.arrivals| <= |s.heard| && s.heard[|s.heard| - |s.wire.arrivals|..] == s.wire.arrivals
  }

  ghost predicate Inv(t: Texts, s: State) {
    && Wire.Inv(s.wire) && Remembered(s)
    && (!s.up ==> s.flights == map[])
    && forall id :: Known(t, s, id)
  }

  /** A step that leaves one command's records and flight alone keeps what is known of it. */
  lemma Framed(t: Texts, s: State, s': State, id: string)
    requires Known(t, s, id)
    requires id in s.rows <==> id in s'.rows
    requires id in s.rows ==> s.rows[id] == s'.rows[id]
    requires id in s.results <==> id in s'.results
    requires id in s.results ==> s.results[id] == s'.results[id]
    requires id in s.flights <==> id in s'.flights
    requires id in s.flights ==> s.flights[id] == s'.flights[id]
    requires EventsOf(s.events, id) == EventsOf(s'.events, id)
    requires s.heard <= s'.heard
    requires |s.wire.calls| <= |s'.wire.calls|
    requires forall c | 0 <= c < |s.wire.calls| :: s.wire.calls[c].id == s'.wire.calls[c].id
    ensures Known(t, s', id)
  {
    HeardGrows(t, s, s', id);
  }

  lemma HeardGrows(t: Texts, s: State, s': State, id: string)
    requires s.heard <= s'.heard
    ensures forall v: Verdict :: Reported(s.heard, id, v) ==> Reported(s'.heard, id, v)
  {
    forall v: Verdict | Reported(s.heard, id, v) ensures Reported(s'.heard, id, v) {
      var j :| 0 <= j < |s.heard| && s.heard[j] == Wire.Response(id, v.ok, v.text);
      assert s'.heard[j] == s.heard[j];
    }
  }

  lemma BootKeepsKnown(t: Texts, s: State, sweepOk: bool, id: string)
    requires Inv(t, s) && !s.up
    ensures Known(t, AfterBoot(s, sweepOk), id)
  {
    assert Known(t, s, id);
  }

  lemma InsertKeepsInv(t: Texts, s: State, a: Action)
    requires Inv(t, s) && a.Insert? && Enabled(s, a)
    ensures Inv(t, Apply(t, s, a))
  {
    var s' := Apply(t, s, a);
    forall id ensures Known(t, s', id) {
      assert Known(t, s, id);
      if id != a.id { Framed(t, s, s', id); }
    }
  }

  lemma SendKeepsInv(t: Texts, s: State, a: Action)
    requires Inv(t, s) && a.Send? && Enabled(s, a)
    ensures Inv(t, Apply(t, s, a))
  {
    var s' := Apply(t, s, a);
    Wire.SendKeepsInv(s.wire, a.id, s.rows[a.id].timeoutMs, a.topicOk, a.published);
    forall id ensures Known(t, s', id) {
      assert Known(t, s, id);
      EventsOfAppend(s.events, Created(a.id, s.rows[a.id].correlation), id);
      if id != a.id { Framed(t, s, s', id); }
    }
  }

  lemma WireStepKeepsInv(t: Texts, s: State, a: Action)
    requires Inv(t, s) && a.WireStep? && Enabled(s, a)
    ensures Inv(t, Apply(t, s, a))
  {
    var s' := Apply(t, s, a);
    Wire.StepKeepsInv(s.wire, a.step);
    WireKeepsIds(s.wire, a.step);
    WireStepRemembers(s, a.step);
    forall id ensures Known(t, s', id) {
      assert Known(t, s, id);
      Framed(t, s, s', id);
    }
  }

  lemma WireKeepsIds(w: Wire.State, step: Wire.Action)
    requires Wire.Inv(w) && Wire.Enabled(w, step)
    ensures |w.calls| <= |Wire.Apply(w, step).calls|
    ensures forall c | 0 <= c < |w.calls| :: w.calls[c].id == Wire.Apply(w, step).calls[c].id
  {
    WireOnlyGrows(w, step);
    forall c: nat | c < |w.calls| ensures w.calls[c].id == Wire.Apply(w, step).calls[c].id {
      Wire.SettledStays(w, step, c);
    }
  }

  lemma WireOnlyGrows(w: Wire.State, step: Wire.Action)
    requires Wire.Enabled(w, step)
    ensures |w.calls| <= |Wire.Apply(w, step).calls|
  {
  }

  lemma WireStepRemembers(s: State, step: Wire.Action)
    requires Remembered(s) && Wire.Enabled(s.wire, step)
    ensures Remembered(AfterWireStep(s, step)) && s.heard <= AfterWireStep(s, step).heard
  {
  }

  lemma VerdictIsExplained(t: Texts, s: State, id: string, c: nat)
    requires Wire.Inv(s.wire) && Remembered(s) && Settled(s.wire, c) && s.wire.calls[c].id == id
    ensures Explained(t, s.heard, id, VerdictOf(t, s.wire, c))
    ensures var v := VerdictOf(t, s.wire, c); v.ok ==> Reported(s.heard, id, v)
  {
    var outcome := s.wire.calls[c].outcome.value;
    if outcome.Answered? {
      assert Wire.CallOk(s.wire, c);
      var j := outcome.arrival;
      assert s.heard[|s.heard| - |s.wire.arrivals| + j] == s.wire.arrivals[j];
    }
  }

  lemma SaveStatusKeepsInv(t: Texts, s: State, a: Action)
    requires Inv(t, s) && a.SaveStatus? && Enabled(s, a)
    ensures Inv(t, Apply(t, s, a))
  {
    var s' := Apply(t, s, a);
    forall id ensures Known(t, s', id) {
      assert Known(t, s, id);
      if id != a.id {
        Framed(t, s, s', id);
      } else {
        VerdictIsExplained(t, s, id, s.flights[id].call);
      }
    }
  }

  lemma SaveResultKeepsInv(t: Texts, s: State, a: Action)
    requires Inv(t, s) && a.SaveResult? && Enabled(s, a)
    ensures Inv(t, Apply(t, s, a))
  {
    var s' := Apply(t, s, a);
    forall id ensures Known(t, s', id) {
      assert Known(t, s, id);
      if id != a.id { Framed(t, s, s', id); }
    }
  }

  lemma CompleteKeepsInv(t: Texts, s: State, a: Action)
    requires Inv(t, s) && a.Complete? && Enabled(s, a)
    ensures Inv(t, Apply(t, s, a))
  {
    var s' := Apply(t, s, a);
    var v := s.flights[a.id].verdict;
    forall id ensures Known(t, s', id) {
      assert Known(t, s, id);
      EventsOfAppend(s.events, Completed(a.id, s.rows[a.id].correlation, Classify(t, v), v.ok), id);
      if id != a.id { Framed(t, s, s', id); }
    }
  }

  lemma DropKeepsInv(t: Texts, s: State, a: Action)
    requires Inv(t, s) && (a.Crash? || a.WriteRejected?) && Enabled(s, a)
    ensures Inv(t, Apply(t, s, a))
  {
    var s' := Apply(t, s, a);
    forall id ensures Known(t, s', id) {
      assert Known(t, s, id);
    }
  }

  lemma StepKeepsInv(t: Texts, s: State, a: Action)
    requires Inv(t, s) && Enabled(s, a)
    ensures Inv(t, Apply(t, s, a))
  {
    match a
    case Boot(sweepOk) => forall id ensures Known(t, Apply(t, s, a), id) { BootKeepsKnown(t, s, sweepOk, id); }
    case Crash => DropKeepsInv(t, s, a);
    case Insert(_, _, _, _) => InsertKeepsInv(t, s, a);
    case Send(_, _, _) => SendKeepsInv(t, s, a);
    case WireStep(_) => WireStepKeepsInv(t, s, a);
    case SaveStatus(_, _) => SaveStatusKeepsInv(t, s, a);
    case SaveResult(_, _) => SaveResultKeepsInv(t, s, a);
    case Complete(_) => CompleteKeepsInv(t, s, a);
    case WriteRejected(_) => DropKeepsInv(t, s, a);
  }

  // ----- runs -----

  predicate IsRun(t: Texts, s: State, run: seq<Action>)
    decreases |run|
  {
    run == [] || (Enabled(s, run[0]) && IsRun(t, Apply(t, s, run[0]), run[1..]))
  }

  function After(t: Texts, s: State, run: seq<Action>): State
    requires IsRun(t, s, run)
    decreases |run|
  {
    if run == [] then s else After(t, Apply(t, s, run[0]), run[1..])
  }

  lemma EmptyInv(t: Texts)
    ensures Inv(t, EMPTY)
  {
    forall id ensures Known(t, EMPTY, id) {
      assert EventsOf(EMPTY.events, id) == [];
    }
  }

  lemma {:induction false} RunKeepsInv(t: Texts, s: State, run: seq<Action>)
    requires Inv(t, s) && IsRun(t, s, run)
    ensures Inv(t, After(t, s, run))
    decreases |run|
  {
    if run != [] {
      StepKeepsInv(t, s, run[0]);
      RunKeepsInv(t, Apply(t, s, run[0]), run[1..]);
    }
  }

  /**
   * In every run, with any crashes and lost replies: a command is announced at most once and completed
   * at most once, in that order and with the row's correlation id; a completed event needs a result row
   * and repeats its `ok` and the row's status; a result row needs the announcement and a terminal
   * status, which is "succeeded" exactly when the result is ok.
   */
  lemma Lifecycle(t: Texts, run: seq<Action>, id: string)
    requires IsRun(t, EMPTY, run)
    ensures var s := After(t, EMPTY, run); var published := EventsOf(s.events, id);
      && (id !in s.rows ==> published == [] && id !in s.results)
      && (id in s.results ==>
            && id in s.rows && !s.rows[id].status.Pending?
            && (s.results[id].ok <==> s.rows[id].status.Succeeded?)
            && published != [])
      && (id in s.rows && published != [] ==>
            && published[0] == Created(id, s.rows[id].correlation)
            && (|published| > 1 ==>
                  && id in s.results
                  && published[1..] == [Completed(id, s.rows[id].correlation, s.rows[id].status, s.results[id].ok)]))
  {
    EmptyInv(t);
    RunKeepsInv(t, EMPTY, run);
    assert Known(t, After(t, EMPTY, run), id);
  }

  /** A stored result is a response with the command's own id, or a gateway error; only a response can be ok. */
  lemma ResultIsExplained(t: Texts, run: seq<Action>, id: string)
    requires IsRun(t, EMPTY, run)
    ensures var s := After(t, EMPTY, run);
      && (id in s.results ==> Explained(t, s.heard, id, s.results[id]))
      && (id in s.results && s.results[id].ok ==> Reported(s.heard, id, s.results[id]))
      && (id in s.rows && s.rows[id].status.Succeeded? ==> exists v: Verdict :: v.ok && Reported(s.heard, id, v))
  {
    EmptyInv(t);
    RunKeepsInv(t, EMPTY, run);
    assert Known(t, After(t, EMPTY, run), id);
  }

  // ----- from the request to the status -----

  /** Row `id` is the one some step of the run inserted, with the correlation id and the timeout of the request. */
  ghost predicate InsertedIn(run: seq<Action>, id: string, row: Row) {
    exists i | 0 <= i < |run| ::
      run[i].Insert? && run[i].id == id && run[i].correlation == row.correlation && run[i].timeoutMs == row.timeoutMs
  }

  lemma StepInserts(t: Texts, s: State, a: Action, id: string)
    requires Enabled(s, a) && id in Apply(t, s, a).rows
    ensures var row := Apply(t, s, a).rows[id];
      || (id in s.rows && row.correlation == s.rows[id].correlation && row.timeoutMs == s.rows[id].timeoutMs)
      || (a.Insert? && a.id == id && row == Row(Pending, a.correlation, a.timeoutMs))
  {
  }

  lemma {:induction false} RowsComeFromRequests(t: Texts, s: State, run: seq<Action>, id: string)
    requires IsRun(t, s, run) && id in After(t, s, run).rows
    ensures var row := After(t, s, run).rows[id];
      || (id in s.rows && row.correlation == s.rows[id].correlation && row.timeoutMs == s.rows[id].timeoutMs)
      || InsertedIn(run, id, row)
    decreases |run|
  {
    if run != [] {
      var s1, row := Apply(t, s, run[0]), After(t, s, run).rows[id];
      RowsComeFromRequests(t, s1, run[1..], id);
      if InsertedIn(run[1..], id, row) {
        var i :| 0 <= i < |run[1..]| && run[1..][i].Insert? && run[1..][i].id == id
                 && run[1..][i].correlation == row.correlation && run[1..][i].timeoutMs == row.timeoutMs;
        assert run[i + 1] == run[1..][i];
      } else {
        StepInserts(t, s, run[0], id);
        assert run[0] == run[0];
      }
    }
  }

  /** Every call made at the gateway is for a stored command, with the timeout in its row. */
  ghost predicate CallsAreOfRows(s: State) {
    forall c | 0 <= c < |s.wire.calls| ::
      s.wire.calls[c].id in s.rows && s.wire.calls[c].timeoutMs == s.rows[s.wire.calls[c].id].timeoutMs
  }

  lemma StepKeepsCalls(t: Texts, s: State, a: Action)
    requires Inv(t, s) && CallsAreOfRows(s) && Enabled(s, a)
    ensures CallsAreOfRows(Apply(t, s, a))
  {
    var s' := Apply(t, s, a);
    if a.WireStep? {
      WireOnlyGrows(s.wire, a.step);
      forall c: nat | c < |s'.wire.calls|
        ensures s'.wire.calls[c].id in s'.rows && s'.wire.calls[c].timeoutMs == s'.rows[s'.wire.calls[c].id].timeoutMs
      {
        Wire.SettledStays(s.wire, a.step, c);
      }
    } else if a.Send? {
      SendHandsOver(t, s, a.id, a.topicOk, a.published);
    }
  }

  lemma {:induction false} RunKeepsCalls(t: Texts, s: State, run: seq<Action>)
    requires Inv(t, s) && CallsAreOfRows(s) && IsRun(t, s, run)
    ensures CallsAreOfRows(After(t, s, run))
    decreases |run|
  {
    if run != [] {
      StepKeepsInv(t, s, run[0]);
      StepKeepsCalls(t, s, run[0]);
      RunKeepsCalls(t, Apply(t, s, run[0]), run[1..]);
    }
  }

  /**
   * In every run: a stored command has the correlation id and the timeout of the request that was
   * dispatched with its id, and whatever the gateway was asked to send for it has that timeout.
   */
  lemma RowsAreRequests(t: Texts, run: seq<Action>, id: string)
    requires IsRun(t, EMPTY, run) && id in After(t, EMPTY, run).rows
    ensures InsertedIn(run, id, After(t, EMPTY, run).rows[id])
    ensures var s := After(t, EMPTY, run);
      forall c | 0 <= c < |s.wire.calls| && s.wire.calls[c].id == id :: s.wire.calls[c].timeoutMs == s.rows[id].timeoutMs
  {
    EmptyInv(t);
    RowsComeFromRequests(t, EMPTY, run, id);
    RunKeepsCalls(t, EMPTY, run);
  }

  /** Dispatching announces the command, and asks the gateway for it with its own id and timeout; the dispatch waits for that call. */
  lemma SendHandsOver(t: Texts, s: State, id: string, topicOk: bool, published: bool)
    requires Inv(t, s) && Enabled(s, Send(id, topicOk, published))
    ensures var s', c := Apply(t, s, Send(id, topicOk, published)), |s.wire.calls|;
      && |s'.wire.calls| == c + 1 && s'.wire.calls[..c] == s.wire.calls
      && s'.wire.calls[c].id == id && s'.wire.calls[c].timeoutMs == s.rows[id].timeoutMs
      && (s'.wire.calls[c].outcome.None? <==> s.wire.connected && id !in s.wire.pending && topicOk && published)
      && id in s'.flights && s'.flights[id] == Awaiting(c)
      && s'.events == s.events + [Created(id, s.rows[id].correlation)] && s'.rows == s.rows && s'.results == s.results
  {
    Wire.SendEffect(s.wire, id, s.rows[id].timeoutMs, topicOk, published);
  }

  /** The status of a command that ended like this. */
  ghost predicate StatusFits(t: Texts, status: Status, ok: bool, text: string) {
    && (status == Succeeded <==> ok)
    && (status == Rejected <==> !ok && t.denied(text))
    && (status == TimedOut <==> !ok && !t.denied(text) && t.mentionsTimeout(text))
    && (status == Failed <==> !ok && !t.denied(text) && !t.mentionsTimeout(text))
  }

  /**
   * When the promise has settled, the status saved is that of the response that answered the call, or of
   * the error with which the gateway ended it; nothing else in the tables changes.
   */
  lemma OutcomeIsSaved(t: Texts, s: State, id: string, replied: bool)
    requires Enabled(s, SaveStatus(id, replied))
    ensures var s', call := Apply(t, s, SaveStatus(id, replied)), s.wire.calls[s.flights[id].call];
      var ok := call.outcome.value.Answered? && s.wire.arrivals[call.outcome.value.arrival].ok;
      var text := if call.outcome.value.Answered? then s.wire.arrivals[call.outcome.value.arrival].result
                  else t.describe(call.id, call.outcome.value);
      && s'.rows.Keys == s.rows.Keys && StatusFits(t, s'.rows[id].status, ok, text)
      && s'.rows[id].correlation == s.rows[id].correlation && s'.rows[id].timeoutMs == s.rows[id].timeoutMs
      && (forall other | other in s.rows && other != id :: s'.rows[other] == s.rows[other])
      && s'.results == s.results && s'.events == s.events
      && (if replied then id in s'.flights && s'.flights[id] == StatusSaved(Verdict(ok, text)) else id !in s'.flights)
  {
  }

  /** In every run: the status of a command with a stored result is that of the result. */
  lemma StatusIsOfResult(t: Texts, run: seq<Action>, id: string)
    requires IsRun(t, EMPTY, run) && id in After(t, EMPTY, run).results
    ensures var s := After(t, EMPTY, run);
      id in s.rows && StatusFits(t, s.rows[id].status, s.results[id].ok, s.results[id].text)
  {
    EmptyInv(t);
    RunKeepsInv(t, EMPTY, run);
    assert Known(t, After(t, EMPTY, run), id);
  }

  // ----- the steps of a dispatch, and what a process leaves behind -----

  /** The new row is pending, with correlation id and timeout of the request; the dispatch goes on exactly if the reply arrived. */
  lemma InsertMakesPending(t: Texts, s: State, id: string, correlation: string, timeoutMs: nat, replied: bool)
    requires Inv(t, s) && Enabled(s, Insert(id, correlation, timeoutMs, replied))
    ensures var s' := Apply(t, s, Insert(id, correlation, timeoutMs, replied));
      && s'.rows == s.rows[id := Row(Pending, correlation, timeoutMs)]
      && (id in s'.flights <==> replied) && (replied ==> s'.flights[id] == Inserted)
      && s'.results == s.results && s'.events == s.events && s'.wire == s.wire && s'.up == s.up
  {
    assert Known(t, s, id);
  }

  /** The result row repeats the verdict the status was saved for; the dispatch goes on exactly if the reply arrived. */
  lemma ResultIsSaved(t: Texts, s: State, id: string, replied: bool)
    requires Enabled(s, SaveResult(id, replied))
    ensures var s', v := Apply(t, s, SaveResult(id, replied)), s.flights[id].verdict;
      && s'.results == s.results[id := v]
      && (if replied then id in s'.flights && s'.flights[id] == ResultSaved(v) else id !in s'.flights)
      && s'.rows == s.rows && s'.events == s.events && s'.wire == s.wire && s'.up == s.up
  {
  }

  /** The completed event closes the dispatch. */
  lemma CompletionIsPublished(t: Texts, s: State, id: string)
    requires Inv(t, s) && Enabled(s, Complete(id))
    ensures var s' := Apply(t, s, Complete(id));
      && s'.events == s.events + [Completed(id, s.rows[id].correlation, s.rows[id].status, s.flights[id].verdict.ok)]
      && id !in s'.flights && s'.rows == s.rows && s'.results == s.results
  {
    assert Known(t, s, id);
  }

  /** A write may be rejected once the promise has settled or the status is saved; that ends the dispatch and changes no table. */
  lemma RejectedWriteEnds(t: Texts, s: State, id: string)
    requires InFlight(s, id)
    ensures s.flights[id].StatusSaved? ==> Enabled(s, WriteRejected(id))
    ensures Enabled(s, SaveStatus(id, true)) ==> Enabled(s, WriteRejected(id))
    ensures Enabled(s, WriteRejected(id)) ==>
      var s' := Apply(t, s, WriteRejected(id));
      id !in s'.flights && s'.rows == s.rows && s'.results == s.results && s'.events == s.events
  {
  }

  /** A process that dies or stops leaves the tables and the events behind, and nothing else. */
  lemma CrashKeepsTables(t: Texts, s: State)
    requires s.up
    ensures Enabled(s, Crash)
    ensures var s' := Apply(t, s, Crash);
      !s'.up && s'.flights == map[] && s'.rows == s.rows && s'.results == s.results && s'.events == s.events
  {
  }

  /** A new process starts with a gateway that has sent nothing and waits for nothing; a successful sweep closes exactly the pending rows. */
  lemma BootStartsFresh(t: Texts, s: State, sweepOk: bool)
    requires Inv(t, s) && !s.up
    ensures Enabled(s, Boot(sweepOk))
    ensures var s' := Apply(t, s, Boot(sweepOk));
      && s'.up && s'.flights == map[] && s'.results == s.results && s'.events == s.events
      && s'.wire.calls == [] && s'.wire.pending == map[] && s'.wire.timers == {} && !s'.wire.connected && s'.wire.now == s.wire.now
      && s'.rows.Keys == s.rows.Keys
      && (forall id | id in s.rows ::
            s'.rows[id].status == (if sweepOk && s.rows[id].status == Pending then TimedOut else s.rows[id].status))
  {
  }

  /** A dispatch with nothing in its way and nothing in between, answered by `r`. */
  function WholeDispatch(id: string, correlation: string, timeoutMs: nat, r: Wire.Response): seq<Action> {
    [Insert(id, correlation, timeoutMs, true)] + ([Send(id, true, true)] + ([WireStep(Wire.Arrive(r))]
      + ([SaveStatus(id, true)] + ([SaveResult(id, true)] + ([Complete(id)] + [])))))
  }

  lemma RunSteps(t: Texts, s: State, a: Action, rest: seq<Action>)
    requires Enabled(s, a) && IsRun(t, Apply(t, s, a), rest)
    ensures IsRun(t, s, [a] + rest) && After(t, s, [a] + rest) == After(t, Apply(t, s, a), rest)
  {
    assert ([a] + rest)[1..] == rest;
  }

  /** It ends with the command's row, its status as the response says, its result row, and its two events in order. */
  lemma DispatchCompletes(t: Texts, s: State, id: string, correlation: string, timeoutMs: nat, r: Wire.Response)
    requires Inv(t, s) && s.up && id !in s.rows && s.wire.connected && id !in s.wire.pending && r.id == id
    ensures IsRun(t, s, WholeDispatch(id, correlation, timeoutMs, r))
    ensures var s' := After(t, s, WholeDispatch(id, correlation, timeoutMs, r));
      && id in s'.rows && s'.rows[id].correlation == correlation && s'.rows[id].timeoutMs == timeoutMs
      && StatusFits(t, s'.rows[id].status, r.ok, r.result)
      && id in s'.results && s'.results[id] == Verdict(r.ok, r.result)
      && s'.events == s.events + [Created(id, correlation), Completed(id, correlation, s'.rows[id].status, r.ok)]
      && id !in s'.flights
  {
    var insert, send, arrive := Insert(id, correlation, timeoutMs, true), Send(id, true, true), WireStep(Wire.Arrive(r));
    InsertMakesPending(t, s, id, correlation, timeoutMs, true);
    StepKeepsInv(t, s, insert);
    var s1 := Apply(t, s, insert);
    SendHandsOver(t, s1, id, true, true);
    StepKeepsInv(t, s1, send);
    var s2 := Apply(t, s1, send);
    ArrivalAnswers(t, s1, s2, id, r);
    StepKeepsInv(t, s2, arrive);
    var s3 := Apply(t, s2, arrive);
    AnsweredCompletes(t, s3, id, r);
    RunSteps(t, s2, arrive, [SaveStatus(id, true)] + ([SaveResult(id, true)] + ([Complete(id)] + [])));
    RunSteps(t, s1, send, [arrive] + ([SaveStatus(id, true)] + ([SaveResult(id, true)] + ([Complete(id)] + []))));
    RunSteps(t, s, insert, [send] + ([arrive] + ([SaveStatus(id, true)] + ([SaveResult(id, true)] + ([Complete(id)] + [])))));
  }

  lemma ArrivalAnswers(t: Texts, s1: State, s2: State, id: string, r: Wire.Response)
    requires Inv(t, s1) && Enabled(s1, Send(id, true, true)) && s2 == Apply(t, s1, Send(id, true, true))
    requires s1.up && s1.wire.connected && id !in s1.wire.pending && r.id == id
    ensures Enabled(s2, WireStep(Wire.Arrive(r)))
    ensures var s3, c := Apply(t, s2, WireStep(Wire.Arrive(r))), |s1.wire.calls|;
      && Answered(s3, id, r) && s3.rows == s2.rows && s3.events == s2.events && s3.results == s2.results && s3.up
  {
    Wire.CommandIsAnswered(s1.wire, id, s1.rows[id].timeoutMs, true, true, [], r);
    SendHandsOver(t, s1, id, true, true);
  }

  /** The dispatch waits for a call that `r` has answered. */
  ghost predicate Answered(s: State, id: string, r: Wire.Response) {
    && InFlight(s, id) && s.flights[id].Awaiting? && Settled(s.wire, s.flights[id].call)
    && s.wire.calls[s.flights[id].call].outcome.value.Answered?
    && s.wire.arrivals[s.wire.calls[s.flights[id].call].outcome.value.arrival] == r
  }

  lemma AnsweredCompletes(t: Texts, s: State, id: string, r: Wire.Response)
    requires Inv(t, s) && Answered(s, id, r)
    ensures var run := [SaveStatus(id, true)] + ([SaveResult(id, true)] + ([Complete(id)] + []));
      && IsRun(t, s, run)
      && var s' := After(t, s, run);
         && id in s'.rows && s'.rows[id].correlation == s.rows[id].correlation && s'.rows[id].timeoutMs == s.rows[id].timeoutMs
         && StatusFits(t, s'.rows[id].status, r.ok, r.result)
         && id in s'.results && s'.results[id] == Verdict(r.ok, r.result)
         && s'.events == s.events + [Completed(id, s.rows[id].correlation, s'.rows[id].status, r.ok)]
         && id !in s'.flights
  {
    OutcomeIsSaved(t, s, id, true);
    StepKeepsInv(t, s, SaveStatus(id, true));
    var s1 := Apply(t, s, SaveStatus(id, true));
    ResultIsSaved(t, s1, id, true);
    StepKeepsInv(t, s1, SaveResult(id, true));
    var s2 := Apply(t, s1, SaveResult(id, true));
    CompletionIsPublished(t, s2, id);
    RunSteps(t, s2, Complete(id), []);
    RunSteps(t, s1, SaveResult(id, true), [Complete(id)] + []);
    RunSteps(t, s, SaveStatus(id, true), [SaveResult(id, true)] + ([Complete(id)] + []));
  }

  // ----- a status settles once -----

  predicate RowKept(before: Row, after: Row) {
    && after.correlation == before.correlation && after.timeoutMs == before.timeoutMs
    && (!before.status.Pending? ==> after.status == before.status)
  }

  lemma StepKeepsRow(t: Texts, s: State, a: Action, id: string)
    requires Inv(t, s) && Enabled(s, a) && id in s.rows
    ensures var s' := Apply(t, s, a);
      && id in s'.rows && RowKept(s.rows[id], s'.rows[id])
      && (id in s.results ==> id in s'.results && s'.results[id] == s.results[id])
  {
    assert Known(t, s, id);
  }

  /** Rows never vanish, and a status changes only from pending to a terminal one, at most once; results never change. */
  lemma {:induction false} StatusSettlesOnce(t: Texts, s: State, run: seq<Action>, id: string)
    requires Inv(t, s) && IsRun(t, s, run) && id in s.rows
    ensures var s' := After(t, s, run);
      && id in s'.rows && RowKept(s.rows[id], s'.rows[id])
      && (id in s.results ==> id in s'.results && s'.results[id] == s.results[id])
    decreases |run|
  {
    if run != [] {
      StepKeepsRow(t, s, run[0], id);
      StepKeepsInv(t, s, run[0]);
      StatusSettlesOnce(t, Apply(t, s, run[0]), run[1..], id);
    }
  }

  /** After a boot whose sweep succeeded, no row of an earlier process is pending, ever again. */
  lemma SweepClosesForGood(t: Texts, s: State, rest: seq<Action>, id: string)
    requires Inv(t, s) && Enabled(s, Boot(true)) && IsRun(t, Apply(t, s, Boot(true)), rest) && id in s.rows
    ensures var s' := After(t, Apply(t, s, Boot(true)), rest);
      && id in s'.rows && !s'.rows[id].status.Pending?
      && s'.rows[id].status == (if s.rows[id].status.Pending? then TimedOut else s.rows[id].status)
  {
    StepKeepsInv(t, s, Boot(true));
    StatusSettlesOnce(t, Apply(t, s, Boot(true)), rest, id);
  }

  // ----- the shutdown -----

  /** The dispatch still waits for a promise that the shutdown dropped, or died with its process. */
  ghost predicate Stranded(s: State, id: string) {
    && id in s.rows && s.rows[id].status.Pending?
    && (id in s.flights ==> s.flights[id].Awaiting? && s.flights[id].call in s.wire.abandoned)
    && (id !in s.flights ==> !s.up)
  }

  lemma StepKeepsStranded(t: Texts, s: State, a: Action, id: string)
    requires Inv(t, s) && Enabled(s, a) && !a.Boot? && Stranded(s, id)
    ensures Stranded(Apply(t, s, a), id)
  {
    assert Known(t, s, id);
    if id in s.flights {
      assert Wire.CallOk(s.wire, s.flights[id].call);
    }
  }

  /** A command whose promise was dropped by the shutdown stays pending until the next boot. */
  lemma {:induction false} StrandedUntilBoot(t: Texts, s: State, run: seq<Action>, id: string)
    requires Inv(t, s) && IsRun(t, s, run) && Stranded(s, id) && forall a | a in run :: !a.Boot?
    ensures var s' := After(t, s, run); id in s'.rows && s'.rows[id].status.Pending?
    decreases |run|
  {
    if run != [] {
      StepKeepsStranded(t, s, run[0], id);
      StepKeepsInv(t, s, run[0]);
      StrandedUntilBoot(t, Apply(t, s, run[0]), run[1..], id);
    }
  }

  /** The shutdown strands, of the dispatches of this process, exactly those that wait for a promise not settled yet. */
  lemma ShutdownStrandsExactly(t: Texts, s: State, id: string)
    requires Inv(t, s) && s.up && id in s.flights
    ensures var waiting := s.flights[id].Awaiting? && s.flights[id].call < |s.wire.calls|
                           && s.wire.calls[s.flights[id].call].outcome.None?;
      Stranded(Apply(t, s, WireStep(Wire.ShutDown)), id) <==> waiting
  {
    assert Known(t, s, id);
    if s.flights[id].Awaiting? {
      assert Wire.CallOk(s.wire, s.flights[id].call);
    }
  }

  /** A command still waiting for its answer at the shutdown is pending from then on, until the next boot. */
  lemma ShutdownLeavesPending(t: Texts, run: seq<Action>, rest: seq<Action>, id: string)
    requires IsRun(t, EMPTY, run) && After(t, EMPTY, run).up && id in After(t, EMPTY, run).flights
    requires var s := After(t, EMPTY, run); s.flights[id].Awaiting? && !Settled(s.wire, s.flights[id].call)
    requires IsRun(t, Apply(t, After(t, EMPTY, run), WireStep(Wire.ShutDown)), rest) && forall a | a in rest :: !a.Boot?
    ensures var s' := After(t, Apply(t, After(t, EMPTY, run), WireStep(Wire.ShutDown)), rest);
      id in s'.rows && s'.rows[id].status.Pending?
  {
    EmptyInv(t);
    RunKeepsInv(t, EMPTY, run);
    var s := After(t, EMPTY, run);
    WaitingIsUnsettled(t, s, id);
    ShutdownStrandsExactly(t, s, id);
    StepKeepsInv(t, s, WireStep(Wire.ShutDown));
    StrandedUntilBoot(t, Apply(t, s, WireStep(Wire.ShutDown)), rest, id);
  }

  lemma WaitingIsUnsettled(t: Texts, s: State, id: string)
    requires Inv(t, s) && id in s.flights && s.flights[id].Awaiting? && !Settled(s.wire, s.flights[id].call)
    ensures s.flights[id].call < |s.wire.calls| && s.wire.calls[s.flights[id].call].outcome.None?
  {
    assert Known(t, s, id);
    assert Wire.CallOk(s.wire, s.flights[id].call);
  }

  // ----- when nothing goes wrong -----

  ghost predicate Finished(t: Texts, s: State, id: string) {
    && id in s.rows && id in s.results && !s.rows[id].status.Pending?
    && EventsOf(s.events, id) == [Created(id, s.rows[id].correlation),
                                  Completed(id, s.rows[id].correlation, s.rows[id].status, s.results[id].ok)]
  }

  ghost predicate AllFinishedOrRunning(t: Texts, s: State) {
    forall id | id in s.rows :: id in s.flights || Finished(t, s, id)
  }

  lemma StepKeepsFinished(t: Texts, s: State, a: Action, id: string)
    requires Inv(t, s) && Enabled(s, a) && Finished(t, s, id)
    ensures Finished(t, Apply(t, s, a), id)
  {
    StepKeepsRow(t, s, a, id);
    StepKeepsInv(t, s, a);
    assert Known(t, s, id) && Known(t, Apply(t, s, a), id);
    if a.Send? { EventsOfAppend(s.events, Created(a.id, s.rows[a.id].correlation), id); }
    if a.Complete? {
      var v := s.flights[a.id].verdict;
      EventsOfAppend(s.events, Completed(a.id, s.rows[a.id].correlation, Classify(t, v), v.ok), id);
    }
  }

  lemma CompleteFinishes(t: Texts, s: State, id: string)
    requires Inv(t, s) && Enabled(s, Complete(id))
    ensures Finished(t, Apply(t, s, Complete(id)), id)
  {
    var v := s.flights[id].verdict;
    assert Known(t, s, id);
    EventsOfAppend(s.events, Completed(id, s.rows[id].correlation, Classify(t, v), v.ok), id);
  }

  lemma CleanStep(t: Texts, s: State, a: Action)
    requires Inv(t, s) && Enabled(s, a) && a.Clean() && AllFinishedOrRunning(t, s)
    ensures AllFinishedOrRunning(t, Apply(t, s, a))
  {
    var s' := Apply(t, s, a);
    forall id | id in s'.rows ensures id in s'.flights || Finished(t, s', id) {
      if id in s.rows && id !in s.flights {
        StepKeepsFinished(t, s, a, id);
      } else if a == Complete(id) {
        CompleteFinishes(t, s, id);
      }
    }
  }

  /** Where no process dies and no write or reply is lost, a command whose dispatch is over has its result row and both events. */
  lemma {:induction false} CleanRunCompletes(t: Texts, s: State, run: seq<Action>)
    requires Inv(t, s) && IsRun(t, s, run) && AllFinishedOrRunning(t, s) && forall a | a in run :: a.Clean()
    ensures AllFinishedOrRunning(t, After(t, s, run))
    decreases |run|
  {
    if run != [] {
      CleanStep(t, s, run[0]);
      StepKeepsInv(t, s, run[0]);
      CleanRunCompletes(t, Apply(t, s, run[0]), run[1..]);
    }
  }

  /** Once a dispatch is over, however it ended, nothing is published or stored for its command any more. */
  lemma {:induction false} EndedStaysEnded(t: Texts, s: State, run: seq<Action>, id: string)
    requires Inv(t, s) && IsRun(t, s, run) && id in s.rows && id !in s.flights
    ensures var s' := After(t, s, run);
      && id !in s'.flights && EventsOf(s'.events, id) == EventsOf(s.events, id)
      && (id in s'.results <==> id in s.results)
    decreases |run|
  {
    if run != [] {
      var a := run[0];
      if a.Send? { EventsOfAppend(s.events, Created(a.id, s.rows[a.id].correlation), id); }
      if a.Complete? {
        var v := s.flights[a.id].verdict;
        EventsOfAppend(s.events, Completed(a.id, s.rows[a.id].correlation, Classify(t, v), v.ok), id);
      }
      StepKeepsInv(t, s, a);
      EndedStaysEnded(t, Apply(t, s, a), run[1..], id);
    }
  }
}
