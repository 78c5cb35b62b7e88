/**
 * The registry's handler keeps every device in step with the sequential replay of its reports; from
 * that, the claims about whole runs.
 */
module PresenceRefinement {
  import opened DomainEvents
  import opened Presence
  import Bus = EventBus

  // ----- the handler's own steps -----

  lemma HandlerStepKeepsStructure(s: State, s': State, k: nat)
    requires Structure(s) && k in s.bodies
    requires s'.bus == s.bus && s'.outcomes == s.outcomes && s'.bodies.Keys == s.bodies.Keys
    ensures Structure(s')
  {
    forall j | 0 <= j < |s'.bus.links| ensures Tracked(s', j) {
      assert Tracked(s, j);
    }
  }

  lemma PublishKeepsStructure(s: State, s': State, event: DomainEvent)
    requires Structure(s) && s'.bus == Bus.AfterPublish(s.bus, event)
    requires s'.outcomes == s.outcomes && s'.bodies.Keys == s.bodies.Keys
    ensures Structure(s')
  {
    Bus.PublishKeepsInv(s.bus, event);
    PublishStaysOk(s.bus, event);
    var b := Bus.Publish(event);
    assert Bus.Apply(s.bus, b) == s'.bus;
    LinksKeepEvents(s.bus, b);
    forall j | 0 <= j < |s'.bus.links| ensures Tracked(s', j) {
      if j < |s.bus.links| {
        assert Tracked(s, j);
      } else {
        NewLinkIsIdle(s.bus, b, j);
      }
    }
    QuietKeepsAhead(s, s', b);
  }

  function EndOf(bus: Bus.State, k: nat, ok: bool): Bus.Action
    requires k < |bus.links|
  {
    var i := HandlerIndex(bus.links[k].targets);
    if ok then Bus.AttemptOk(k, i) else Bus.AttemptFail(k, i)
  }

  /** How the bus settles an open handler: its one attempt either delivers or gives up. */
  lemma SettlesHandler(s: State, k: nat, ok: bool)
    requires Structure(s) && Open(s.bus, k)
    ensures Bus.Enabled(s.bus, EndOf(s.bus, k, ok)) && Told(s.bus, k, ok) == Bus.Apply(s.bus, EndOf(s.bus, k, ok))
    ensures var links, links' := s.bus.links, Told(s.bus, k, ok).links;
      && |links'| == |links|
      && (forall j | 0 <= j < |links| && j != k :: links'[j] == links[j])
      && links'[k].targets == links[k].targets && links'[k].event == links[k].event
      && HasHandler(links'[k]) && HandlerState(links'[k]) == (if ok then Bus.Delivered else Bus.GaveUp)
    ensures Told(s.bus, k, ok).history == s.bus.history
  {
    OpenIsRunning(s, k);
  }

  /** Telling the bus changes no event and no other link. */
  lemma ToldLeavesEvents(s: State, k: nat, ok: bool)
    requires Structure(s) && k < |s.bus.links|
    ensures var bus' := Told(s.bus, k, ok);
      && |bus'.links| == |s.bus.links| && bus'.history == s.bus.history
      && forall j | 0 <= j < |s.bus.links| :: bus'.links[j].event == s.bus.links[j].event
  {
    if Open(s.bus, k) {
      SettlesHandler(s, k, ok);
    }
  }

  predicate Fits(ok: bool, o: Outcome) {
    if ok then o.Handled? || o.Ignored? else o.Failed?
  }

  lemma TrackedAfterFinish(s: State, k: nat, ok: bool, outcome: Outcome, j: nat)
    requires Structure(s) && k in s.bodies && k < |s.bus.links| && j < |s.bus.links| && Fits(ok, outcome)
    ensures j < |Finish(s, k, ok, outcome).bus.links| && Tracked(Finish(s, k, ok, outcome), j)
  {
    assert Tracked(s, k) && Tracked(s, j);
    ToldLeavesEvents(s, k, ok);
    if Open(s.bus, k) {
      SettlesHandler(s, k, ok);
    }
  }

  lemma FinishKeepsStructure(s: State, k: nat, ok: bool, outcome: Outcome)
    requires Structure(s) && k in s.bodies && k < |s.bus.links| && Fits(ok, outcome)
    ensures Structure(Finish(s, k, ok, outcome))
  {
    var s' := Finish(s, k, ok, outcome);
    if Open(s.bus, k) {
      SettlesHandler(s, k, ok);
      var b := EndOf(s.bus, k, ok);
      Bus.StepKeepsInv(s.bus, b);
      SubscriptionsStayOk(s.bus, b);
      QuietKeepsAhead(s, s', b);
    }
    ToldLeavesEvents(s, k, ok);
    forall j | 0 <= j < |s'.bus.links| ensures Tracked(s', j) {
      TrackedAfterFinish(s, k, ok, outcome, j);
    }
  }

  lemma OtherDeviceInSync(s: State, s': State, k: nat, id: string)
    requires Inv(s) && k in s.bodies && k < |s.bus.links| && Report(s, k).deviceId != Some(id)
    requires Untouched(s, s', id) && s'.bodies - {k} == s.bodies - {k}
    ensures DeviceInSync(s', id)
  {
    assert DeviceInSync(s, id);
    forall j | j in s.bodies || j in s'.bodies ensures j < |s.bus.links| {
      assert j == k || (j in s.bodies - {k} || j in s'.bodies - {k});
    }
    forall j | 0 <= j < |s.bus.links| && Report(s, j).deviceId == Some(id)
      ensures (j in s.bodies <==> j in s'.bodies) && (j in s.bodies ==> s'.bodies[j] == s.bodies[j])
    {
      assert j in s.bodies <==> j in s.bodies - {k};
      assert j in s'.bodies <==> j in s'.bodies - {k};
      assert j in s.bodies ==> (s.bodies - {k})[j] == s.bodies[j];
      assert j in s'.bodies ==> (s'.bodies - {k})[j] == s'.bodies[j];
    }
    UntouchedStaysInSync(s, s', id);
  }

  /** After a step of the device's only body, the device is in sync if that body is. */
  lemma OwnDeviceInSync(s: State, s': State, k: nat, id: string)
    requires Structure(s) && k in s.bodies && k < |s.bus.links| && Report(s, k).deviceId == Some(id)
    requires |s.bus.links| <= |s'.bus.links|
    requires forall j | 0 <= j < |s.bus.links| :: s'.bus.links[j].event == s.bus.links[j].event
    requires s'.bodies - {k} == s.bodies - {k}
    requires if k in s'.bodies then BodyInSync(s', k, id) else
      Get(s'.rows, id) == Replay(LogOf(s', id)).row && Emissions(s'.bus.history, id) == Replay(LogOf(s', id)).emitted
    ensures DeviceInSync(s', id)
  {
    forall j | j in s'.bodies && j < |s'.bus.links| && Report(s', j).deviceId == Some(id) ensures j == k {
      if j != k {
        assert j in s'.bodies - {k};
        assert j in s.bodies && Report(s, j).deviceId == Report(s', j).deviceId;
        OneBodyPerDevice(s, k, j);
      }
    }
    if k in s'.bodies {
      assert Report(s', k).deviceId == Some(id);
    }
  }

  /** A step that only moves the body of one link and, at most, the row of that link's device. */
  lemma QuietInSync(s: State, s': State, k: nat, id: string)
    requires Inv(s) && k in s.bodies && k in s'.bodies && k < |s.bus.links|
    requires s'.bus == s.bus && s'.outcomes == s.outcomes && s'.bodies - {k} == s.bodies - {k}
    requires if Report(s, k).deviceId == Some(id) then BodyInSync(s', k, id) else Get(s'.rows, id) == Get(s.rows, id)
    ensures DeviceInSync(s', id)
  {
    if Report(s, k).deviceId == Some(id) {
      OwnDeviceInSync(s, s', k, id);
    } else {
      OtherDeviceInSync(s, s', k, id);
    }
  }

  /** Reading the row, finding it again and updating it. */
  predicate OnlyOwn(s: State, s': State, k: nat, id: string)
    requires k < |s.bus.links|
  {
    && s'.bus == s.bus && s'.outcomes == s.outcomes && k in s'.bodies && s'.bodies - {k} == s.bodies - {k}
    && (Report(s, k).deviceId != Some(id) ==> Get(s'.rows, id) == Get(s.rows, id))
  }

  lemma HandlerStepIsOwn(s: State, a: Action, k: nat, id: string)
    requires (a == ReadRow(k) || a == FindRow(k) || a == UpdateRow(k)) && Enabled(s, a)
    ensures OnlyOwn(s, Apply(s, a), k, id)
  {
  }

  lemma HandlerStepInSync(s: State, a: Action, k: nat, id: string)
    requires (a == ReadRow(k) || a == FindRow(k) || a == UpdateRow(k)) && Enabled(s, a)
    requires Report(s, k).deviceId == Some(id) && BodyInSync(s, k, id)
    ensures k in Apply(s, a).bodies && k < |Apply(s, a).bus.links| && BodyInSync(Apply(s, a), k, id)
  {
  }

  lemma HandlerStepKeepsInv(s: State, a: Action, k: nat)
    requires Inv(s) && (a == ReadRow(k) || a == FindRow(k) || a == UpdateRow(k)) && Enabled(s, a)
    ensures Inv(Apply(s, a))
  {
    var s' := Apply(s, a);
    HandlerStepIsOwn(s, a, k, "");
    assert s'.bodies.Keys == s.bodies.Keys;
    HandlerStepKeepsStructure(s, s', k);
    forall id ensures DeviceInSync(s', id) {
      HandlerStepIsOwn(s, a, k, id);
      if Report(s, k).deviceId == Some(id) {
        assert DeviceInSync(s, id) && BodyInSync(s, k, id);
        HandlerStepInSync(s, a, k, id);
      }
      QuietInSync(s, s', k, id);
    }
  }

  /** A publication changes no log; it adds to the emissions of its own device only. */
  lemma PublishLeavesLog(bus: Bus.State, outcomes: map<nat, Outcome>, event: DomainEvent, id: string)
    requires forall k | k in outcomes :: k < |bus.links|
    ensures var links' := Bus.AfterPublish(bus, event).links;
      Log(links', outcomes, id, |links'|) == Log(bus.links, outcomes, id, |bus.links|)
  {
    var links' := Bus.AfterPublish(bus, event).links;
    PublishKeepsEvents(bus, event);
    LogStable(bus.links, links', outcomes, id, |bus.links|);
  }

  lemma PublishKeepsEvents(bus: Bus.State, event: DomainEvent)
    ensures var links, links' := bus.links, Bus.AfterPublish(bus, event).links;
      && |links| <= |links'| <= |links| + 1
      && forall j | 0 <= j < |links| :: links'[j].event == links[j].event
  {
  }

  lemma SaveEffect(s: State, k: nat, id: string)
    requires Structure(s) && Enabled(s, SaveRow(k))
    ensures var s' := Apply(s, SaveRow(k)); var own := Report(s, k).deviceId == Some(id);
      && LogOf(s', id) == LogOf(s, id)
      && Emissions(s'.bus.history, id) == Emissions(s.bus.history, id) + (if own then [WasRegistered] else [])
      && |s.bus.links| <= |s'.bus.links|
      && (forall j | 0 <= j < |s.bus.links| :: s'.bus.links[j].event == s.bus.links[j].event)
  {
    var event := Registration(Report(s, k), s.bus.now);
    PublishLeavesLog(s.bus, s.outcomes, event, id);
    PublishEmits(s.bus, event, id);
    PublishKeepsEvents(s.bus, event);
  }

  lemma SavedBodyInSync(s: State, k: nat, id: string)
    requires Structure(s) && Enabled(s, SaveRow(k)) && Report(s, k).deviceId == Some(id) && BodyInSync(s, k, id)
    ensures k in Apply(s, SaveRow(k)).bodies && k < |Apply(s, SaveRow(k)).bus.links|
    ensures BodyInSync(Apply(s, SaveRow(k)), k, id)
  {
    SaveEffect(s, k, id);
  }

  lemma SaveLeavesRest(s: State, k: nat, other: string)
    requires Enabled(s, SaveRow(k)) && Report(s, k).deviceId != Some(other)
    ensures var s' := Apply(s, SaveRow(k)); s'.bodies - {k} == s.bodies - {k} && Get(s'.rows, other) == Get(s.rows, other)
  {
  }

  lemma SaveLeavesBodies(s: State, k: nat)
    requires Enabled(s, SaveRow(k))
    ensures Apply(s, SaveRow(k)).bodies - {k} == s.bodies - {k}
  {
  }

  lemma SaveInSync(s: State, s': State, k: nat, id: string)
    requires Inv(s) && Enabled(s, SaveRow(k)) && s' == Apply(s, SaveRow(k))
    ensures DeviceInSync(s', id)
  {
    SaveEffect(s, k, id);
    assert DeviceInSync(s, id);
    if Report(s, k).deviceId == Some(id) {
      assert BodyInSync(s, k, id);
      SavedBodyInSync(s, k, id);
      SaveLeavesBodies(s, k);
      OwnDeviceInSync(s, s', k, id);
    } else {
      SaveLeavesRest(s, k, id);
      OtherDeviceInSync(s, s', k, id);
    }
  }

  lemma SaveKeepsInv(s: State, k: nat)
    requires Inv(s) && Enabled(s, SaveRow(k))
    ensures Inv(Apply(s, SaveRow(k)))
  {
    var s' := Apply(s, SaveRow(k));
    PublishKeepsStructure(s, s', Registration(Report(s, k), s.bus.now));
    forall id ensures DeviceInSync(s', id) {
      SaveInSync(s, s', k, id);
    }
  }

  lemma ReplaySnoc(log: seq<Entry>, e: Entry)
    ensures Replay(log + [e]) == Digest(Replay(log), e)
  {
    assert (log + [e])[..|log|] == log;
  }

  /** Between two states a device's log and emissions grew by these, and no link changed its event. */
  ghost predicate Advances(s: State, s': State, id: string, entries: seq<Entry>, emitted: seq<Emission>) {
    && LogOf(s', id) == LogOf(s, id) + entries
    && Emissions(s'.bus.history, id) == Emissions(s.bus.history, id) + emitted
    && |s.bus.links| <= |s'.bus.links|
    && (forall j | 0 <= j < |s.bus.links| :: s'.bus.links[j].event == s.bus.links[j].event)
  }

  lemma AdvancesTwice(s: State, s1: State, s2: State, id: string, entries: seq<Entry>, emitted: seq<Emission>)
    requires Advances(s, s1, id, entries, []) && Advances(s1, s2, id, [], emitted)
    ensures Advances(s, s2, id, entries, emitted)
  {
  }

  lemma FinishedLog(links: seq<Bus.Link>, links': seq<Bus.Link>, outcomes: map<nat, Outcome>, k: nat, o: Outcome, id: string)
    requires k < |links| == |links'| && k !in outcomes
    requires forall j | 0 <= j < |links| :: links'[j].event == links[j].event
    requires links[k].event.deviceId == Some(id) ==>
      forall j | k < j < |links| && links[j].event.deviceId == Some(id) :: j !in outcomes
    ensures Log(links', outcomes[k := o], id, |links'|)
         == Log(links, outcomes, id, |links|) + (if links[k].event.deviceId == Some(id) then [EntryOf(links[k].event, o)] else [])
  {
    LogStable(links, links', outcomes[k := o], id, |links|);
    if links[k].event.deviceId == Some(id) {
      LogExtends(links, outcomes, k, o, id, |links|);
    } else {
      LogSkips(links, outcomes, k, o, id, |links|);
    }
  }

  /** What finishing a handler does to the logs. */
  lemma FinishExtendsLog(s: State, k: nat, ok: bool, outcome: Outcome, id: string)
    requires Structure(s) && k in s.bodies && k < |s.bus.links|
    ensures Advances(s, Finish(s, k, ok, outcome), id,
      if Report(s, k).deviceId == Some(id) then [EntryOf(Report(s, k), outcome)] else [], [])
    ensures forall j | j in Finish(s, k, ok, outcome).outcomes :: j < |Finish(s, k, ok, outcome).bus.links|
  {
    LaterAreOpen(s, k, id);
    ToldLeavesEvents(s, k, ok);
    FinishedLog(s.bus.links, Told(s.bus, k, ok).links, s.outcomes, k, outcome, id);
    OnlyLogs(s, Finish(s, k, ok, outcome), id, if Report(s, k).deviceId == Some(id) then [EntryOf(Report(s, k), outcome)] else []);
  }

  lemma OnlyLogs(s: State, s': State, id: string, entries: seq<Entry>)
    requires LogOf(s', id) == LogOf(s, id) + entries && s'.bus.history == s.bus.history
    requires |s.bus.links| == |s'.bus.links|
    requires forall j | 0 <= j < |s.bus.links| :: s'.bus.links[j].event == s.bus.links[j].event
    ensures Advances(s, s', id, entries, [])
  {
  }

  lemma LaterAreOpen(s: State, k: nat, id: string)
    requires Structure(s) && k in s.bodies && k < |s.bus.links|
    ensures k !in s.outcomes
    ensures Report(s, k).deviceId == Some(id) ==>
      forall j | k < j < |s.bus.links| && Report(s, j).deviceId == Some(id) :: j !in s.outcomes
  {
    assert Tracked(s, k);
    if Report(s, k).deviceId == Some(id) {
      forall j | k < j < |s.bus.links| && Report(s, j).deviceId == Some(id) ensures j !in s.outcomes {
        LaterIsUntouched(s, k, j);
      }
    }
  }

  lemma SkipKeepsInv(s: State, k: nat)
    requires Inv(s) && Enabled(s, Skip(k))
    ensures Inv(Apply(s, Skip(k)))
  {
    var s' := Apply(s, Skip(k));
    FinishKeepsStructure(s, k, true, Ignored);
    forall id ensures DeviceInSync(s', id) {
      FinishExtendsLog(s, k, true, Ignored, id);
      if Report(s, k).deviceId == Some(id) {
        assert DeviceInSync(s, id) && BodyInSync(s, k, id);
        ReplaySnoc(LogOf(s, id), EntryOf(Report(s, k), Ignored));
        OwnDeviceInSync(s, s', k, id);
      } else {
        OtherDeviceInSync(s, s', k, id);
      }
    }
  }

  lemma FailKeepsInv(s: State, k: nat)
    requires Inv(s) && Enabled(s, Fail(k))
    ensures Inv(Apply(s, Fail(k)))
  {
    var s' := Apply(s, Fail(k));
    var outcome := s'.outcomes[k];
    FinishKeepsStructure(s, k, false, outcome);
    FailIsFinish(s, k);
    forall id ensures DeviceInSync(s', id) {
      FailInSync(s, s', k, id);
    }
  }

  lemma FailIsFinish(s: State, k: nat)
    requires Structure(s) && Enabled(s, Fail(k))
    ensures var s' := Apply(s, Fail(k)); var outcome := Failed(s.bodies[k].Updating? && s.bodies[k].created);
      && s' == Finish(s, k, false, outcome) && s'.bodies == s.bodies - {k} && s'.rows == s.rows
  {
  }

  /** A body that fails has done all that the replay of a failed report does. */
  lemma FailedInSync(r: Replayed, row: Option<Row>, emitted: seq<Emission>, body: Body, event: DomainEvent)
    requires !body.Announcing? && InSync(r, row, emitted, body, event)
    ensures var r' := Digest(r, EntryOf(event, Failed(body.Updating? && body.created)));
      row == r'.row && emitted == r'.emitted
  {
  }

  lemma FailInSync(s: State, s': State, k: nat, id: string)
    requires Inv(s) && Enabled(s, Fail(k)) && s' == Apply(s, Fail(k))
    ensures DeviceInSync(s', id)
  {
    var outcome, body := Failed(s.bodies[k].Updating? && s.bodies[k].created), s.bodies[k];
    FailIsFinish(s, k);
    FinishExtendsLog(s, k, false, outcome, id);
    assert s'.bodies - {k} == s.bodies - {k};
    if Report(s, k).deviceId == Some(id) {
      assert DeviceInSync(s, id) && BodyInSync(s, k, id);
      FailedInSync(Replay(LogOf(s, id)), Get(s.rows, id), Emissions(s.bus.history, id), body, Report(s, k));
      ReplaySnoc(LogOf(s, id), EntryOf(Report(s, k), outcome));
      OwnDeviceInSync(s, s', k, id);
    } else {
      OtherDeviceInSync(s, s', k, id);
    }
  }

  lemma AnnounceKeepsStructure(s: State, k: nat)
    requires Inv(s) && Enabled(s, Announce(k))
    ensures Structure(Apply(s, Announce(k)))
  {
    var was := WasOnline(s.bodies[k].before);
    FinishKeepsStructure(s, k, true, Handled);
    var s1 := Finish(s, k, true, Handled);
    if was != OnlineOf(Report(s, k)) {
      PublishKeepsStructure(s1, Apply(s, Announce(k)), ChangeEvent(Report(s, k), was, s.bus.now));
    }
  }

  /** What one publication changes, the rest of the state being the same. */
  lemma PublishEffect(s: State, event: DomainEvent, id: string)
    requires forall k | k in s.outcomes :: k < |s.bus.links|
    ensures Advances(s, s.(bus := Bus.AfterPublish(s.bus, event)), id, [], EmissionOf(event, id))
  {
    PublishLeavesLog(s.bus, s.outcomes, event, id);
    PublishEmits(s.bus, event, id);
    PublishKeepsEvents(s.bus, event);
    OnlyEmits(s, s.(bus := Bus.AfterPublish(s.bus, event)), id, EmissionOf(event, id));
  }

  lemma OnlyEmits(s: State, s': State, id: string, emitted: seq<Emission>)
    requires LogOf(s', id) == LogOf(s, id) && Emissions(s'.bus.history, id) == Emissions(s.bus.history, id) + emitted
    requires |s.bus.links| <= |s'.bus.links|
    requires forall j | 0 <= j < |s.bus.links| :: s'.bus.links[j].event == s.bus.links[j].event
    ensures Advances(s, s', id, [], emitted)
  {
  }

  /** `s1` is the state in which the handler has just finished, before the change event goes out. */
  lemma AnnounceIsFinishThenPublish(s: State, k: nat, s1: State)
    requires Structure(s) && Enabled(s, Announce(k))
    requires s1 == Finish(s, k, true, Handled)
    ensures var was := WasOnline(s.bodies[k].before);
      Apply(s, Announce(k)) == if was != OnlineOf(Report(s, k))
        then s1.(bus := Bus.AfterPublish(s1.bus, ChangeEvent(Report(s, k), was, s.bus.now))) else s1
  {
  }

  lemma AnnounceEffect(s: State, k: nat, id: string)
    requires Structure(s) && Enabled(s, Announce(k))
    ensures var s' := Apply(s, Announce(k)); var own := Report(s, k).deviceId == Some(id);
      var changed := WasOnline(s.bodies[k].before) != OnlineOf(Report(s, k));
      Advances(s, s', id, if own then [EntryOf(Report(s, k), Handled)] else [],
               if own && changed then [Change(OnlineOf(Report(s, k)))] else [])
  {
    var was, e := WasOnline(s.bodies[k].before), Report(s, k);
    FinishExtendsLog(s, k, true, Handled, id);
    var s1 := Finish(s, k, true, Handled);
    AnnounceIsFinishThenPublish(s, k, s1);
    if was != OnlineOf(e) {
      ChangeEmits(e, was, s.bus.now, id);
      PublishEffect(s1, ChangeEvent(e, was, s.bus.now), id);
      AdvancesTwice(s, s1, s1.(bus := Bus.AfterPublish(s1.bus, ChangeEvent(e, was, s.bus.now))), id,
                    if e.deviceId == Some(id) then [EntryOf(e, Handled)] else [], EmissionOf(ChangeEvent(e, was, s.bus.now), id));
    }
  }

  lemma ChangeEmits(e: DomainEvent, was: bool, now: int, id: string)
    ensures EmissionOf(ChangeEvent(e, was, now), id) == if e.deviceId == Some(id) then [Change(OnlineOf(e))] else []
  {
  }

  lemma AnnounceLeavesBodies(s: State, k: nat)
    requires Enabled(s, Announce(k))
    ensures Apply(s, Announce(k)).bodies == s.bodies - {k} && Apply(s, Announce(k)).rows == s.rows
  {
  }

  /** An announcing body has done all that the replay of a handled report does. */
  lemma HandledInSync(r: Replayed, row: Option<Row>, emitted: seq<Emission>, body: Body, event: DomainEvent)
    requires body.Announcing? && InSync(r, row, emitted, body, event)
    ensures var r' := Digest(r, EntryOf(event, Handled));
      && row == r'.row
      && emitted + (if WasOnline(body.before) != OnlineOf(event) then [Change(OnlineOf(event))] else []) == r'.emitted
  {
  }

  lemma AnnounceInSync(s: State, s': State, k: nat, id: string)
    requires Inv(s) && Enabled(s, Announce(k)) && s' == Apply(s, Announce(k))
    ensures DeviceInSync(s', id)
  {
    AnnounceEffect(s, k, id);
    AnnounceLeavesBodies(s, k);
    assert s'.bodies - {k} == s.bodies - {k};
    if Report(s, k).deviceId == Some(id) {
      assert DeviceInSync(s, id) && BodyInSync(s, k, id);
      HandledInSync(Replay(LogOf(s, id)), Get(s.rows, id), Emissions(s.bus.history, id), s.bodies[k], Report(s, k));
      ReplaySnoc(LogOf(s, id), EntryOf(Report(s, k), Handled));
      OwnDeviceInSync(s, s', k, id);
    } else {
      OtherDeviceInSync(s, s', k, id);
    }
  }

  lemma AnnounceKeepsInv(s: State, k: nat)
    requires Inv(s) && Enabled(s, Announce(k))
    ensures Inv(Apply(s, Announce(k)))
  {
    var s' := Apply(s, Announce(k));
    AnnounceKeepsStructure(s, k);
    forall id ensures DeviceInSync(s', id) {
      AnnounceInSync(s, s', k, id);
    }
  }

  lemma StepKeepsInv(s: State, a: Action)
    requires Inv(s) && Enabled(s, a) && StartsAlone(s, a)
    ensures Inv(Apply(s, a))
  {
    match a
    case BusStep(b) => BusStepKeepsInv(s, b);
    case Skip(k) => SkipKeepsInv(s, k);
    case ReadRow(k) => HandlerStepKeepsInv(s, a, k);
    case FindRow(k) => HandlerStepKeepsInv(s, a, k);
    case SaveRow(k) => SaveKeepsInv(s, k);
    case UpdateRow(k) => HandlerStepKeepsInv(s, a, k);
    case Announce(k) => AnnounceKeepsInv(s, k);
    case Fail(k) => FailKeepsInv(s, k);
  }

  // ----- whole runs -----

  predicate IsRun(s: State, run: seq<Action>)
    decreases |run|
  {
    run == [] || (Enabled(s, run[0]) && IsRun(Apply(s, run[0]), run[1..]))
  }

  function After(s: State, run: seq<Action>): State
    requires IsRun(s, run)
    decreases |run|
  {
    if run == [] then s else After(Apply(s, run[0]), run[1..])
  }

  /** No report of a device starts while an earlier body of that device still runs. */
  predicate NoOverlap(s: State, run: seq<Action>)
    requires IsRun(s, run)
    decreases |run|
  {
    run == [] || (StartsAlone(s, run[0]) && NoOverlap(Apply(s, run[0]), run[1..]))
  }

  lemma {:induction false} RunKeepsInv(s: State, run: seq<Action>)
    requires Inv(s) && IsRun(s, run) && NoOverlap(s, run)
    ensures Inv(After(s, run))
    decreases |run|
  {
    if run != [] {
      StepKeepsInv(s, run[0]);
      RunKeepsInv(Apply(s, run[0]), run[1..]);
    }
  }

  lemma InitialInv()
    ensures Inv(Initial)
  {
    assert Initial.bus.subscriptions == [PresenceSubscription];
  }

  /**
   * The registry refines the sequential replay: under any interleaving of devices, database accesses,
   * failures and time-outs in which no report starts beside an earlier body of its device, an idle
   * device's row and its published lifecycle events are those of replaying its reports one after the
   * other in publish order, each with the outcome its body had.
   */
  lemma RefinesReplay(run: seq<Action>, id: string)
    requires IsRun(Initial, run) && NoOverlap(Initial, run) && !Busy(After(Initial, run), id)
    ensures var s := After(Initial, run); var r := Replay(LogOf(s, id));
      Get(s.rows, id) == r.row && Emissions(s.bus.history, id) == r.emitted
  {
    InitialInv();
    RunKeepsInv(Initial, run);
    assert DeviceInSync(After(Initial, run), id);
  }

  /** Spelled out: the row, the one registration, and the alternating change events of an idle device. */
  lemma RegistryIsRight(run: seq<Action>, id: string)
    requires IsRun(Initial, run) && NoOverlap(Initial, run) && !Busy(After(Initial, run), id)
    ensures var s := After(Initial, run); var log := LogOf(s, id); var emitted := Emissions(s.bus.history, id);
      && WellOrdered(emitted)
      && (id in s.rows ==>
            && s.rows[id].online == LastOnline(log) && s.rows[id].lastSeenAt == LastSeen(log)
            && |emitted| == 1 + Changes(log))
      && (id !in s.rows ==> emitted == [] && !LastOnline(log))
  {
    RefinesReplay(run, id);
    ReplayMeaning(LogOf(After(Initial, run), id));
  }

  /**
   * The log is complete and agrees with the bus: a report whose handler target is settled is in it unless
   * its body still runs past a time-out; what was delivered was handled or ignored, what failed was given up.
   */
  lemma SettledIsLogged(run: seq<Action>, k: nat)
    requires IsRun(Initial, run) && NoOverlap(Initial, run) && k < |After(Initial, run).bus.links|
    requires var link := After(Initial, run).bus.links[k]; HasHandler(link) && HandlerState(link).Done()
    ensures var s := After(Initial, run); var t := HandlerState(s.bus.links[k]);
      && (k in s.outcomes <==> k !in s.bodies)
      && (t.Delivered? ==> k in s.outcomes && (s.outcomes[k].Handled? || s.outcomes[k].Ignored?))
      && (k in s.outcomes && s.outcomes[k].Failed? ==> t.GaveUp?)
  {
    InitialInv();
    RunKeepsInv(Initial, run);
    assert Tracked(After(Initial, run), k);
  }

  // ----- without time-outs -----

  predicate TimesOut(s: State, a: Action) {
    a.BusStep? && a.a.TimerFires? && a.a.link < |s.bus.links|
    && a.a.target == HandlerIndex(s.bus.links[a.a.link].targets)
  }

  /** No attempt of the registry's handler times out. */
  predicate InTime(s: State, run: seq<Action>)
    requires IsRun(s, run)
    decreases |run|
  {
    run == [] || (!TimesOut(s, run[0]) && InTime(Apply(s, run[0]), run[1..]))
  }

  lemma StepKeepsPunctual(s: State, a: Action)
    requires Inv(s) && Punctual(s) && Enabled(s, a) && !TimesOut(s, a)
    ensures Punctual(Apply(s, a))
  {
    match a
    case BusStep(b) => BusStepKeepsPunctual(s, b);
    case Skip(k) => FinishKeepsPunctual(s, k, true, Ignored);
    case ReadRow(k) => HandlerStepKeepsPunctual(s, a, k);
    case FindRow(k) => HandlerStepKeepsPunctual(s, a, k);
    case SaveRow(k) => SaveKeepsPunctual(s, k);
    case UpdateRow(k) => HandlerStepKeepsPunctual(s, a, k);
    case Announce(k) => AnnounceKeepsPunctual(s, k);
    case Fail(k) => FailKeepsPunctual(s, k);
  }

  lemma FailKeepsPunctual(s: State, k: nat)
    requires Structure(s) && Punctual(s) && Enabled(s, Fail(k))
    ensures Punctual(Apply(s, Fail(k)))
  {
    FailIsFinish(s, k);
    FinishKeepsPunctual(s, k, false, Failed(s.bodies[k].Updating? && s.bodies[k].created));
  }

  lemma SaveKeepsPunctual(s: State, k: nat)
    requires Structure(s) && Punctual(s) && Enabled(s, SaveRow(k))
    ensures Punctual(Apply(s, SaveRow(k)))
  {
    PublishKeepsPunctual(s, Apply(s, SaveRow(k)), Registration(Report(s, k), s.bus.now));
  }

  lemma HandlerStepKeepsPunctual(s: State, a: Action, k: nat)
    requires Punctual(s) && (a == ReadRow(k) || a == FindRow(k) || a == UpdateRow(k)) && Enabled(s, a)
    ensures Punctual(Apply(s, a))
  {
    HandlerStepIsOwn(s, a, k, "");
    assert Apply(s, a).bodies.Keys == s.bodies.Keys;
  }

  lemma AnnounceKeepsPunctual(s: State, k: nat)
    requires Inv(s) && Punctual(s) && Enabled(s, Announce(k))
    ensures Punctual(Apply(s, Announce(k)))
  {
    FinishKeepsPunctual(s, k, true, Handled);
    FinishKeepsStructure(s, k, true, Handled);
    var s1, was := Finish(s, k, true, Handled), WasOnline(s.bodies[k].before);
    AnnounceIsFinishThenPublish(s, k, s1);
    if was != OnlineOf(Report(s, k)) {
      PublishKeepsPunctual(s1, Apply(s, Announce(k)), ChangeEvent(Report(s, k), was, s.bus.now));
    }
  }

  lemma BusStepKeepsPunctual(s: State, b: Bus.Action)
    requires Inv(s) && Punctual(s) && Foreign(s, b) && !TimesOut(s, BusStep(b))
    ensures Punctual(Apply(s, BusStep(b)))
  {
    var s' := Apply(s, BusStep(b));
    forall k | k in s'.bodies ensures Open(s'.bus, k) {
      if b == Bus.Start(k) {
        StartTries(s.bus, k);
        assert Tracked(s, k);
      } else {
        HandlerStays(s, b, k);
      }
    }
    forall k | k in s'.outcomes
      ensures k < |s'.bus.links| && HasHandler(s'.bus.links[k]) && Matched(HandlerState(s'.bus.links[k]), s'.outcomes[k])
    {
      assert Tracked(s, k);
      if b == Bus.Start(k) {
        StartTries(s.bus, k);
      }
      HandlerStays(s, b, k);
    }
  }

  lemma PublishKeepsPunctual(s: State, s': State, event: DomainEvent)
    requires Structure(s) && Punctual(s) && s'.bus == Bus.AfterPublish(s.bus, event)
    requires s'.bodies.Keys == s.bodies.Keys && s'.outcomes == s.outcomes
    ensures Punctual(s')
  {
    PublishKeepsLinks(s.bus, event);
  }

  lemma PublishKeepsLinks(bus: Bus.State, event: DomainEvent)
    ensures bus.links <= Bus.AfterPublish(bus, event).links
  {
  }

  lemma FinishKeepsPunctual(s: State, k: nat, ok: bool, outcome: Outcome)
    requires Structure(s) && Punctual(s) && k in s.bodies && k < |s.bus.links| && Fits(ok, outcome)
    ensures Punctual(Finish(s, k, ok, outcome))
  {
    SettlesHandler(s, k, ok);
  }

  lemma {:induction false} InTimeIsAlone(s: State, run: seq<Action>)
    requires Inv(s) && Punctual(s) && IsRun(s, run) && InTime(s, run)
    ensures NoOverlap(s, run) && Punctual(After(s, run))
    decreases |run|
  {
    if run != [] {
      PunctualStartsAlone(s, run[0]);
      StepKeepsPunctual(s, run[0]);
      StepKeepsInv(s, run[0]);
      InTimeIsAlone(Apply(s, run[0]), run[1..]);
    }
  }

  /**
   * As long as no attempt of the handler times out, bodies never overlap, so all of the above holds; and
   * what the bus delivered is exactly what was handled or ignored, what it gave up exactly what failed.
   */
  lemma InTimeIsEnough(run: seq<Action>)
    requires IsRun(Initial, run) && InTime(Initial, run)
    ensures NoOverlap(Initial, run)
    ensures var s := After(Initial, run);
      forall k | k in s.outcomes :: k < |s.bus.links| && HasHandler(s.bus.links[k])
        && (HandlerState(s.bus.links[k]).Delivered? <==> s.outcomes[k].Handled? || s.outcomes[k].Ignored?)
        && (HandlerState(s.bus.links[k]).GaveUp? <==> s.outcomes[k].Failed?)
  {
    InitialInv();
    InTimeIsAlone(Initial, run);
    var s := After(Initial, run);
    forall k | k in s.outcomes
      ensures k < |s.bus.links| && HasHandler(s.bus.links[k])
        && (HandlerState(s.bus.links[k]).Delivered? <==> s.outcomes[k].Handled? || s.outcomes[k].Ignored?)
        && (HandlerState(s.bus.links[k]).GaveUp? <==> s.outcomes[k].Failed?)
    {
      assert Matched(HandlerState(s.bus.links[k]), s.outcomes[k]);
    }
  }
}
