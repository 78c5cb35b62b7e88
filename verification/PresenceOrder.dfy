/**
 * Exactly when the registry is right, over all runs: time-outs, overlapping bodies of one device and
 * failures included. The order of the lifecycle events and the contents of the row are each decided
 * step by step, by a condition that can be checked before the step.
 */
module PresenceOrder {
  import opened DomainEvents
  import opened Presence
  import opened PresenceRefinement
  import Bus = EventBus

  // ----- what every step keeps, overlaps or not -----

  /** Links are only added, keep their event, and do not go back to waiting. */
  ghost predicate Moves(bus: Bus.State, bus': Bus.State) {
    && |bus.links| <= |bus'.links|
    && (forall k | 0 <= k < |bus.links| :: bus'.links[k].event == bus.links[k].event)
    && (forall k | 0 <= k < |bus.links| :: !bus.links[k].phase.Waiting? ==> !bus'.links[k].phase.Waiting?)
  }

  lemma BusStepMoves(bus: Bus.State, b: Bus.Action)
    requires Bus.Enabled(bus, b)
    ensures Moves(bus, Bus.Apply(bus, b))
  {
    LinksKeepEvents(bus, b);
    forall k | 0 <= k < |bus.links| && !bus.links[k].phase.Waiting? ensures !Bus.Apply(bus, b).links[k].phase.Waiting? {
      StartedStays(bus, b, k);
    }
  }

  lemma StartedStays(bus: Bus.State, b: Bus.Action, k: nat)
    requires Bus.Enabled(bus, b) && k < |bus.links| <= |Bus.Apply(bus, b).links| && !bus.links[k].phase.Waiting?
    ensures !Bus.Apply(bus, b).links[k].phase.Waiting?
  {
  }

  lemma PublishMoves(bus: Bus.State, event: DomainEvent)
    ensures Moves(bus, Bus.AfterPublish(bus, event))
  {
    BusStepMoves(bus, Bus.Publish(event));
  }

  /** Telling the bus how a body ended is a step of the bus or nothing, and publishes nothing. */
  lemma ToldMoves(bus: Bus.State, k: nat, ok: bool)
    requires k < |bus.links|
    ensures Moves(bus, Told(bus, k, ok)) && Told(bus, k, ok).history == bus.history
  {
    if Open(bus, k) {
      BusStepMoves(bus, EndOf(bus, k, ok));
      HistoryStays(bus, EndOf(bus, k, ok));
    }
  }

  lemma MovesTwice(bus: Bus.State, bus1: Bus.State, bus2: Bus.State)
    requires Moves(bus, bus1) && Moves(bus1, bus2)
    ensures Moves(bus, bus2)
  {
  }

  lemma StepMoves(s: State, a: Action)
    requires Enabled(s, a)
    ensures Moves(s.bus, Apply(s, a).bus)
  {
    match a
    case BusStep(b) => BusStepMoves(s.bus, b);
    case Skip(k) => ToldMoves(s.bus, k, true);
    case ReadRow(_) =>
    case FindRow(_) =>
    case SaveRow(k) => PublishMoves(s.bus, Registration(Report(s, k), s.bus.now));
    case UpdateRow(_) =>
    case Announce(k) =>
      ToldMoves(s.bus, k, true);
      var bus1, event := Told(s.bus, k, true), ChangeEvent(Report(s, k), WasOnline(s.bodies[k].before), s.bus.now);
      PublishMoves(bus1, event);
      MovesTwice(s.bus, bus1, Bus.AfterPublish(bus1, event));
    case Fail(k) => ToldMoves(s.bus, k, false);
  }

  predicate Started(s: State, k: nat) {
    k < |s.bus.links| && !s.bus.links[k].phase.Waiting?
  }

  /** Bodies and outcomes belong to started links, and a body that runs has no outcome yet. */
  ghost predicate BodiesStarted(s: State) {
    && (forall k | k in s.bodies :: Started(s, k) && k !in s.outcomes)
    && (forall k | k in s.outcomes :: Started(s, k))
  }

  /** The keys after a step: at most one body more, of the link that starts, and at most one body turned outcome. */
  lemma StepKeys(s: State, a: Action)
    requires Enabled(s, a)
    ensures var s' := Apply(s, a);
      && (forall k | k in s'.bodies :: k in s.bodies || a == BusStep(Bus.Start(k)))
      && (forall k | k in s'.outcomes :: k in s.outcomes || (k in s.bodies && k !in s'.bodies))
      && (forall k | k in s.outcomes :: k in s'.outcomes)
  {
  }

  lemma StepKeepsStarted(s: State, a: Action)
    requires BodiesStarted(s) && Enabled(s, a)
    ensures BodiesStarted(Apply(s, a))
  {
    var s' := Apply(s, a);
    StepMoves(s, a);
    StepKeys(s, a);
    forall k | k in s'.bodies ensures Started(s', k) && k !in s'.outcomes {
      if k in s.bodies {
        assert Started(s, k);
      } else {
        assert a == BusStep(Bus.Start(k)) && s.bus.links[k].phase.Waiting?;
      }
    }
    forall k | k in s'.outcomes ensures Started(s', k) {
      assert Started(s, k);
    }
  }

  // ----- the lifecycle events -----

  predicate Owns(s: State, k: nat, id: string) {
    k < |s.bus.links| && Report(s, k).deviceId == Some(id)
  }

  /** What a step publishes about a device's life. */
  function Emits(s: State, a: Action, id: string): seq<Emission>
    requires Enabled(s, a)
  {
    match a
    case SaveRow(k) => if Owns(s, k, id) then [WasRegistered] else []
    case Announce(k) =>
      if Owns(s, k, id) && WasOnline(s.bodies[k].before) != OnlineOf(Report(s, k)) then [Change(OnlineOf(Report(s, k)))] else []
    case _ => []
  }

  lemma StepEmits(s: State, a: Action, id: string)
    requires Enabled(s, a)
    ensures Emissions(Apply(s, a).bus.history, id) == Emissions(s.bus.history, id) + Emits(s, a, id)
  {
    match a
    case BusStep(b) => BusStepEmitsNothing(s.bus, b, id);
    case Skip(k) => ToldMoves(s.bus, k, true);
    case ReadRow(_) =>
    case FindRow(_) =>
    case SaveRow(k) => PublishEmits(s.bus, Registration(Report(s, k), s.bus.now), id);
    case UpdateRow(_) =>
    case Announce(k) =>
      ToldMoves(s.bus, k, true);
      var was := WasOnline(s.bodies[k].before);
      ChangeEmits(Report(s, k), was, s.bus.now, id);
      PublishEmits(Told(s.bus, k, true), ChangeEvent(Report(s, k), was, s.bus.now), id);
    case Fail(k) => ToldMoves(s.bus, k, false);
  }

  /**
   * What the registry publishes, field by field: one registration when a body saves its device's row, with
   * the base topic of its report; one change event when a body ends whose report differs from the
   * presence it had read, with that presence; and nothing in any other step of a body.
   */
  lemma PublishedByBodies(s: State, a: Action)
    requires Enabled(s, a) && !a.BusStep?
    ensures var before, after := s.bus.history, Apply(s, a).bus.history; var e := Report(s, a.link);
      && before <= after && |after| <= |before| + 1
      && (|after| == |before| + 1 <==>
            a.SaveRow? || (a.Announce? && WasOnline(s.bodies[a.link].before) != (e.payload.Presence? && e.payload.online)))
      && (|after| == |before| + 1 ==>
            var event := after[|before|].event;
            && event.deviceId == e.deviceId && event.timestamp == s.bus.now
            && (a.SaveRow? ==>
                  event.eventType == "device.registered"
                  && event.payload == Registered(if e.payload.Presence? then e.payload.baseTopic else ""))
            && (a.Announce? ==>
                  event.eventType == (if e.payload.Presence? && e.payload.online then "device.online" else "device.offline")
                  && event.payload == Changed(WasOnline(s.bodies[a.link].before))))
  {
    match a
    case Skip(k) => ToldMoves(s.bus, k, true);
    case ReadRow(_) =>
    case FindRow(_) =>
    case SaveRow(_) =>
    case UpdateRow(_) =>
    case Announce(k) => ToldMoves(s.bus, k, true);
    case Fail(k) => ToldMoves(s.bus, k, false);
  }

  /** Everything the bus can do may happen at any time, but for the end of the registry's own attempts and for lifecycle events. */
  lemma OthersGoOn(s: State, b: Bus.Action)
    requires Bus.Enabled(s.bus, b)
    requires b.Publish? ==> !IsLifecycle(b.event)
    requires b.AttemptOk? || b.AttemptFail? || b.BackoffOver? ==>
      b.link < |s.bus.links| && b.target != HandlerIndex(s.bus.links[b.link].targets)
    ensures Enabled(s, BusStep(b)) && Apply(s, BusStep(b)).bus == Bus.Apply(s.bus, b)
  {
  }

  /**
   * How a body ends: ignored without a device id, handled after its announcement, failed where an access
   * rejects, having created a row or not.
   */
  lemma BodiesEnd(s: State, a: Action)
    requires Enabled(s, a) && (a.Skip? || a.Announce? || a.Fail?)
    ensures var k, s' := a.link, Apply(s, a);
      && s'.bodies == s.bodies - {k} && s'.rows == s.rows
      && k in s'.outcomes && s'.outcomes - {k} == s.outcomes - {k}
      && (a.Skip? ==> s'.outcomes[k] == Ignored) && (a.Announce? ==> s'.outcomes[k] == Handled)
      && (a.Fail? ==> s'.outcomes[k] == Failed(s.bodies[k].Updating? && s.bodies[k].created))
  {
  }

  /** If the bus still waits for a body that ends, it delivers one ignored or handled and gives up one failed. */
  lemma BusLearnsEnd(s: State, a: Action)
    requires Structure(s) && Enabled(s, a) && (a.Skip? || a.Announce? || a.Fail?) && Open(s.bus, a.link)
    ensures var s' := Apply(s, a);
      && a.link < |s'.bus.links| && HasHandler(s'.bus.links[a.link])
      && HandlerState(s'.bus.links[a.link]) == (if a.Fail? then Bus.GaveUp else Bus.Delivered)
  {
    SettlesHandler(s, a.link, !a.Fail?);
    if a.Announce? {
      PublishKeepsLinks(Told(s.bus, a.link, true), ChangeEvent(Report(s, a.link), WasOnline(s.bodies[a.link].before), s.bus.now));
    }
  }

  /** What a body has read is nobody, or a row of its device; somebody online only if the row said so. */
  lemma ReadsItsRow(s: State, k: nat)
    requires Enabled(s, ReadRow(k))
    ensures var id, s' := Report(s, k).deviceId.value, Apply(s, ReadRow(k));
      && k in s'.bodies && s'.bodies[k].Looked?
      && (s'.bodies[k].before.None? <==> id !in s.rows) && (id in s.rows ==> s'.bodies[k].before == Some(s.rows[id]))
      && (WasOnline(s'.bodies[k].before) <==> id in s.rows && s.rows[id].online)
      && s'.rows == s.rows && s'.bus == s.bus && s'.bodies - {k} == s.bodies - {k}
  {
  }

  /**
   * What a step does to the rows: saving makes a row with the report's base topic, offline and never seen;
   * updating puts presence and time of the report into an existing row and keeps its base topic; nothing
   * else touches a row, and no step touches another device's.
   */
  lemma RowsExactly(s: State, a: Action, id: string)
    requires Enabled(s, a)
    ensures var rows, rows' := s.rows, Apply(s, a).rows;
      && (id in rows ==> id in rows')
      && (a.SaveRow? && Owns(s, a.link, id) ==>
            id in rows' && !rows'[id].online && rows'[id].lastSeenAt == None && rows'[id].baseTopic == BaseOf(Report(s, a.link)))
      && (a.UpdateRow? && Owns(s, a.link, id) && id in rows ==>
            && rows'[id].online == OnlineOf(Report(s, a.link)) && rows'[id].lastSeenAt == Some(Report(s, a.link).timestamp)
            && rows'[id].baseTopic == rows[id].baseTopic)
      && (!((a.SaveRow? || a.UpdateRow?) && Owns(s, a.link, id)) ==>
            (id in rows' ==> id in rows && rows'[id] == rows[id]))
  {
  }

  /** The bodies past the point at which their device has a row. */
  predicate PastSave(body: Body) {
    body.Updating? || body.Announcing?
  }

  predicate HasRow(s: State, k: nat) {
    k < |s.bus.links| && HasId(Report(s, k)) && Report(s, k).deviceId.value in s.rows
  }

  predicate HasWritten(s: State, k: nat) {
    (k in s.bodies && s.bodies[k].Announcing?) || (k in s.outcomes && s.outcomes[k].Handled?)
  }

  /** A device has a row if and only if it was announced; a body past the save, and a handled report, has one. */
  ghost predicate Rows(s: State) {
    && (forall id :: id in s.rows <==> Emissions(s.bus.history, id) != [])
    && (forall k | k in s.bodies && PastSave(s.bodies[k]) :: HasRow(s, k))
    && (forall k | HasWritten(s, k) :: HasRow(s, k))
  }

  lemma StepRows(s: State, a: Action)
    requires Enabled(s, a)
    ensures var s' := Apply(s, a);
      && s'.rows.Keys == s.rows.Keys + (if a.SaveRow? then {Report(s, a.link).deviceId.value} else {})
      && (forall k | k in s'.bodies && PastSave(s'.bodies[k]) ::
            (k in s.bodies && PastSave(s.bodies[k])) || a == SaveRow(k)
            || (a == FindRow(k) && HasRow(s, k)))
  {
  }

  /** A step adds to the reports that have written the row exactly the one whose body updates it. */
  lemma StepWrites(s: State, a: Action, k: nat)
    requires BodiesStarted(s) && Enabled(s, a)
    ensures HasWritten(Apply(s, a), k) <==> HasWritten(s, k) || a == UpdateRow(k)
  {
    if a == BusStep(Bus.Start(k)) {
      assert !Started(s, k);
    }
  }

  lemma StepKeepsAnnounced(s: State, a: Action, id: string)
    requires Rows(s) && Enabled(s, a)
    ensures id in Apply(s, a).rows <==> Emissions(Apply(s, a).bus.history, id) != []
  {
    StepEmits(s, a, id);
    StepRows(s, a);
    assert a.Announce? ==> HasRow(s, a.link);
  }

  lemma StepKeepsRows(s: State, a: Action)
    requires BodiesStarted(s) && Rows(s) && Enabled(s, a)
    ensures Rows(Apply(s, a))
  {
    var s' := Apply(s, a);
    StepMoves(s, a);
    StepRows(s, a);
    forall id ensures id in s'.rows <==> Emissions(s'.bus.history, id) != [] {
      StepKeepsAnnounced(s, a, id);
    }
    forall k | k in s'.bodies && PastSave(s'.bodies[k]) ensures HasRow(s', k) {
      assert a == SaveRow(k) || HasRow(s, k);
    }
    forall k | HasWritten(s', k) ensures HasRow(s', k) {
      StepWrites(s, a, k);
      assert HasRow(s, k);
    }
  }

  ghost predicate Consistent(s: State) {
    BodiesStarted(s) && Rows(s)
  }

  lemma StepKeepsConsistent(s: State, a: Action)
    requires Consistent(s) && Enabled(s, a)
    ensures Consistent(Apply(s, a))
  {
    StepKeepsStarted(s, a);
    StepKeepsRows(s, a);
  }

  lemma InitialConsistent()
    ensures Consistent(Initial)
  {
  }

  lemma {:induction false} RunKeepsConsistent(s: State, run: seq<Action>)
    requires Consistent(s) && IsRun(s, run)
    ensures Consistent(After(s, run))
    decreases |run|
  {
    if run != [] {
      StepKeepsConsistent(s, run[0]);
      RunKeepsConsistent(Apply(s, run[0]), run[1..]);
    }
  }

  // ----- the order of the lifecycle events -----

  /** The presence last announced, where events alternate. */
  predicate AnnouncedOnline(emitted: seq<Emission>) {
    |emitted| > 0 && |emitted| % 2 == 0
  }

  /**
   * Checked before the step: a body saves a row only if the device has none, and announces a change only
   * if the presence it read is the one last announced.
   */
  predicate InTurn(s: State, a: Action, id: string)
    requires Enabled(s, a)
  {
    match a
    case SaveRow(k) => Owns(s, k, id) ==> id !in s.rows
    case Announce(k) =>
      Owns(s, k, id) && WasOnline(s.bodies[k].before) != OnlineOf(Report(s, k)) ==>
        WasOnline(s.bodies[k].before) == AnnouncedOnline(Emissions(s.bus.history, id))
    case _ => true
  }

  predicate EveryStepInTurn(s: State, run: seq<Action>, id: string)
    requires IsRun(s, run)
    decreases |run|
  {
    run == [] || (InTurn(s, run[0], id) && EveryStepInTurn(Apply(s, run[0]), run[1..], id))
  }

  lemma OneMoreOrdered(emitted: seq<Emission>, e: Emission)
    requires WellOrdered(emitted)
    ensures WellOrdered(emitted + [e])
       <==> e == (if emitted == [] then WasRegistered else if AnnouncedOnline(emitted) then WentOffline else WentOnline)
  {
    var all := emitted + [e];
    assert all[|emitted|] == e;
    forall i | 0 <= i < |emitted| ensures all[i] == emitted[i] {}
  }

  lemma FrontIsOrdered(emitted: seq<Emission>, all: seq<Emission>)
    requires emitted <= all
    ensures WellOrdered(all) ==> WellOrdered(emitted)
  {
    forall i | 0 <= i < |emitted| ensures emitted[i] == all[i] {}
  }

  lemma StepAlternatesExactly(s: State, a: Action, id: string)
    requires Consistent(s) && Enabled(s, a) && WellOrdered(Emissions(s.bus.history, id))
    ensures WellOrdered(Emissions(Apply(s, a).bus.history, id)) <==> InTurn(s, a, id)
  {
    var emitted := Emissions(s.bus.history, id);
    StepEmits(s, a, id);
    if Emits(s, a, id) != [] {
      OneMoreOrdered(emitted, Emits(s, a, id)[0]);
      assert Emits(s, a, id) == [Emits(s, a, id)[0]];
      assert a.Announce? ==> HasRow(s, a.link);
    } else {
      assert emitted + [] == emitted;
    }
  }

  lemma {:induction false} EmissionsGrow(s: State, run: seq<Action>, id: string)
    requires IsRun(s, run)
    ensures Emissions(s.bus.history, id) <= Emissions(After(s, run).bus.history, id)
    decreases |run|
  {
    if run != [] {
      StepEmits(s, run[0], id);
      EmissionsGrow(Apply(s, run[0]), run[1..], id);
    }
  }

  /**
   * In every run, time-outs and overlapping bodies included: a device is registered once and first and
   * then alternates online and offline if and only if every step of the run is in turn.
   */
  lemma {:induction false} AlternatesExactly(s: State, run: seq<Action>, id: string)
    requires Consistent(s) && IsRun(s, run) && WellOrdered(Emissions(s.bus.history, id))
    ensures WellOrdered(Emissions(After(s, run).bus.history, id)) <==> EveryStepInTurn(s, run, id)
    decreases |run|
  {
    if run != [] {
      var s1 := Apply(s, run[0]);
      StepAlternatesExactly(s, run[0], id);
      if InTurn(s, run[0], id) {
        StepKeepsConsistent(s, run[0]);
        AlternatesExactly(s1, run[1..], id);
      } else {
        EmissionsGrow(s1, run[1..], id);
        FrontIsOrdered(Emissions(s1.bus.history, id), Emissions(After(s1, run[1..]).bus.history, id));
      }
    }
  }

  // ----- the row -----

  /** Among the first `n` links, the latest published report of a device that has written the row. */
  ghost function Latest(s: State, id: string, n: nat): (latest: Option<nat>)
    requires n <= |s.bus.links|
    ensures latest.Some? ==> latest.value < n && Owns(s, latest.value, id) && HasWritten(s, latest.value)
    ensures forall k | 0 <= k < n && Owns(s, k, id) && HasWritten(s, k) :: latest.Some? && k <= latest.value
  {
    if n == 0 then None
    else if Owns(s, n - 1, id) && HasWritten(s, n - 1) then Some(n - 1)
    else Latest(s, id, n - 1)
  }

  ghost function LatestOf(s: State, id: string): Option<nat> {
    Latest(s, id, |s.bus.links|)
  }

  /** The row, if any, holds what the latest published of the reports that have written it says. */
  ghost predicate RowIsLatest(s: State, id: string) {
    id in s.rows ==>
      match LatestOf(s, id)
      case None => !s.rows[id].online && s.rows[id].lastSeenAt.None?
      case Some(k) => s.rows[id].online == OnlineOf(Report(s, k)) && s.rows[id].lastSeenAt == Some(Report(s, k).timestamp)
  }

  predicate WritesRow(s: State, a: Action, id: string) {
    (a.SaveRow? || a.UpdateRow?) && Owns(s, a.link, id)
  }

  predicate SameReading(e: DomainEvent, f: DomainEvent) {
    OnlineOf(e) == OnlineOf(f) && e.timestamp == f.timestamp
  }

  /**
   * Checked before the step: no report has written the row that a body replaces with a new one; and the
   * latest report that has written the row a body updates is not later than the body's own, or says the same.
   */
  ghost predicate InOrder(s: State, a: Action, id: string)
    requires Enabled(s, a)
  {
    match a
    case SaveRow(k) => Owns(s, k, id) ==> LatestOf(s, id).None?
    case UpdateRow(k) =>
      Owns(s, k, id) && LatestOf(s, id).Some? && k < LatestOf(s, id).value ==>
        SameReading(Report(s, k), Report(s, LatestOf(s, id).value))
    case _ => true
  }

  /** How the latest writer moves with a step. */
  lemma StepLatest(s: State, a: Action, id: string)
    requires BodiesStarted(s) && Enabled(s, a)
    ensures var latest := LatestOf(s, id);
      LatestOf(Apply(s, a), id) ==
        if a.UpdateRow? && Owns(s, a.link, id) && (latest.None? || latest.value < a.link) then Some(a.link) else latest
  {
    var s' := Apply(s, a);
    StepMoves(s, a);
    forall k: nat ensures HasWritten(s', k) <==> HasWritten(s, k) || a == UpdateRow(k) {
      StepWrites(s, a, k);
    }
    forall k: nat | HasWritten(s', k) ensures k < |s.bus.links| {
      assert Started(s, k);
    }
    LatestMoves(s, s', id, if a.UpdateRow? then Some(a.link) else None);
  }

  /** The latest writer of two states that differ, as far as writers go, in one at most. */
  lemma LatestMoves(s: State, s': State, id: string, writer: Option<nat>)
    requires Moves(s.bus, s'.bus)
    requires forall k: nat :: HasWritten(s', k) <==> HasWritten(s, k) || writer == Some(k)
    requires forall k: nat | HasWritten(s', k) :: k < |s.bus.links|
    ensures var latest := LatestOf(s, id);
      LatestOf(s', id) ==
        if writer.Some? && Owns(s, writer.value, id) && (latest.None? || latest.value < writer.value) then writer else latest
  {
    var latest, latest' := LatestOf(s, id), LatestOf(s', id);
    if latest'.Some? {
      assert HasWritten(s', latest'.value) && Owns(s, latest'.value, id);
    }
    if latest.Some? {
      assert HasWritten(s', latest.value) && Owns(s', latest.value, id);
    }
    if writer.Some? && Owns(s, writer.value, id) {
      assert HasWritten(s', writer.value) && Owns(s', writer.value, id);
    }
  }

  lemma StepRow(s: State, a: Action, id: string)
    requires Rows(s) && Enabled(s, a)
    ensures var rows, rows' := s.rows, Apply(s, a).rows;
      && (WritesRow(s, a, id) ==> id in rows')
      && (WritesRow(s, a, id) && a.SaveRow? ==> !rows'[id].online && rows'[id].lastSeenAt.None?)
      && (WritesRow(s, a, id) && a.UpdateRow? ==>
            rows'[id].online == OnlineOf(Report(s, a.link)) && rows'[id].lastSeenAt == Some(Report(s, a.link).timestamp))
      && (!WritesRow(s, a, id) ==> Get(rows', id) == Get(rows, id))
  {
    assert a.UpdateRow? ==> HasRow(s, a.link);
  }

  /** After a write the row is the latest report's exactly if the write was in order, whatever it was before. */
  lemma StepRowExactly(s: State, a: Action, id: string)
    requires Consistent(s) && Enabled(s, a)
    ensures RowIsLatest(Apply(s, a), id) <==> if WritesRow(s, a, id) then InOrder(s, a, id) else RowIsLatest(s, id)
  {
    StepRow(s, a, id);
    StepLatest(s, a, id);
    StepMoves(s, a);
  }

  /** The last write to the device's row is in order; where there is none, `before`. */
  ghost predicate LastWriteInOrder(s: State, run: seq<Action>, id: string, before: bool)
    requires IsRun(s, run)
    decreases |run|
  {
    if run == [] then before
    else LastWriteInOrder(Apply(s, run[0]), run[1..], id, if WritesRow(s, run[0], id) then InOrder(s, run[0], id) else before)
  }

  /** In every run: the row ends with its latest report's values if and only if the last write to it was in order. */
  lemma {:induction false} RowExactly(s: State, run: seq<Action>, id: string)
    requires Consistent(s) && IsRun(s, run)
    ensures RowIsLatest(After(s, run), id) <==> LastWriteInOrder(s, run, id, RowIsLatest(s, id))
    decreases |run|
  {
    if run != [] {
      StepRowExactly(s, run[0], id);
      StepKeepsConsistent(s, run[0]);
      RowExactly(Apply(s, run[0]), run[1..], id);
    }
  }

  /** The row holds its latest report's values at every point of the run. */
  ghost predicate RowIsLatestThroughout(s: State, run: seq<Action>, id: string)
    requires IsRun(s, run)
    decreases |run|
  {
    RowIsLatest(s, id) && (run == [] || RowIsLatestThroughout(Apply(s, run[0]), run[1..], id))
  }

  ghost predicate EveryWriteInOrder(s: State, run: seq<Action>, id: string)
    requires IsRun(s, run)
    decreases |run|
  {
    run == [] || (InOrder(s, run[0], id) && EveryWriteInOrder(Apply(s, run[0]), run[1..], id))
  }

  /** In every run: at every point the row holds its latest report's values if and only if every write to it is in order. */
  lemma {:induction false} RowThroughoutExactly(s: State, run: seq<Action>, id: string)
    requires Consistent(s) && IsRun(s, run) && RowIsLatest(s, id)
    ensures RowIsLatestThroughout(s, run, id) <==> EveryWriteInOrder(s, run, id)
    decreases |run|
  {
    if run != [] {
      StepRowExactly(s, run[0], id);
      StepKeepsConsistent(s, run[0]);
      if RowIsLatest(Apply(s, run[0]), id) {
        RowThroughoutExactly(Apply(s, run[0]), run[1..], id);
      }
    }
  }

  // ----- the same of the log -----

  lemma LastOfSnoc(log: seq<Entry>, e: Entry)
    ensures LastOnline(log + [e]) == if e.outcome.Handled? then e.online else LastOnline(log)
    ensures LastSeen(log + [e]) == if e.outcome.Handled? then Some(e.timestamp) else LastSeen(log)
  {
    assert (log + [e])[..|log|] == log;
  }

  lemma {:induction false} LatestIsLogged(s: State, id: string, n: nat)
    requires n <= |s.bus.links| && !Busy(s, id)
    ensures var latest, log := Latest(s, id, n), Log(s.bus.links, s.outcomes, id, n);
      && LastOnline(log) == (latest.Some? && OnlineOf(Report(s, latest.value)))
      && LastSeen(log) == if latest.Some? then Some(Report(s, latest.value).timestamp) else None
    decreases n
  {
    if n > 0 {
      LatestIsLogged(s, id, n - 1);
      var front := Log(s.bus.links, s.outcomes, id, n - 1);
      if Owns(s, n - 1, id) && n - 1 in s.outcomes {
        IdleHasNoBody(s, id, n - 1);
        LastOfSnoc(front, EntryOf(Report(s, n - 1), s.outcomes[n - 1]));
        assert Log(s.bus.links, s.outcomes, id, n) == front + [EntryOf(Report(s, n - 1), s.outcomes[n - 1])];
      } else {
        if Owns(s, n - 1, id) { IdleHasNoBody(s, id, n - 1); }
        assert Latest(s, id, n) == Latest(s, id, n - 1);
        assert Log(s.bus.links, s.outcomes, id, n) == front;
      }
    }
  }

  lemma IdleHasNoBody(s: State, id: string, k: nat)
    requires !Busy(s, id) && Owns(s, k, id)
    ensures k !in s.bodies
  {
  }

  /**
   * Over all runs, for a device with no body running: its lifecycle events are in order if and only if
   * every step was in turn; and its row, if it has one, holds its last handled report if and only if the
   * last write to it was in order. A device without a row has published nothing.
   */
  lemma RegistryIsRightExactly(run: seq<Action>, id: string)
    requires IsRun(Initial, run) && !Busy(After(Initial, run), id)
    ensures var s := After(Initial, run); var log := LogOf(s, id);
      && (WellOrdered(Emissions(s.bus.history, id)) <==> EveryStepInTurn(Initial, run, id))
      && ((id in s.rows ==> s.rows[id].online == LastOnline(log) && s.rows[id].lastSeenAt == LastSeen(log))
          <==> LastWriteInOrder(Initial, run, id, true))
      && (id !in s.rows ==> Emissions(s.bus.history, id) == [] && !LastOnline(log))
  {
    var s := After(Initial, run);
    InitialConsistent();
    RunKeepsConsistent(Initial, run);
    AlternatesExactly(Initial, run, id);
    RowExactly(Initial, run, id);
    LatestIsLogged(s, id, |s.bus.links|);
    assert LatestOf(s, id).Some? ==> HasRow(s, LatestOf(s, id).value);
  }

  // ----- bodies that do not overlap meet both conditions -----

  /** In sync with its replay, a device's events are in order, also while a body runs. */
  lemma InSyncIsOrdered(s: State, id: string)
    requires DeviceInSync(s, id)
    ensures WellOrdered(Emissions(s.bus.history, id))
  {
    var r := Replay(LogOf(s, id));
    ReplayMeaning(LogOf(s, id));
    if Busy(s, id) {
      var k :| k in s.bodies && k < |s.bus.links| && Report(s, k).deviceId == Some(id);
      assert BodyInSync(s, k, id);
    }
  }

  /** Where bodies do not overlap, for one because no attempt of the handler times out, both conditions are met. */
  lemma NoOverlapIsEnough(run: seq<Action>, id: string)
    requires IsRun(Initial, run) && (NoOverlap(Initial, run) || InTime(Initial, run))
    ensures EveryStepInTurn(Initial, run, id)
    ensures !Busy(After(Initial, run), id) ==> LastWriteInOrder(Initial, run, id, true)
  {
    if InTime(Initial, run) {
      InTimeIsEnough(run);
    }
    InitialInv();
    RunKeepsInv(Initial, run);
    InSyncIsOrdered(After(Initial, run), id);
    InitialConsistent();
    AlternatesExactly(Initial, run, id);
    if !Busy(After(Initial, run), id) {
      RegistryIsRight(run, id);
      RegistryIsRightExactly(run, id);
    }
  }
}
