/**
 * What can go wrong with the registry when bodies of one device overlap. In both runs the handler of a
 * device's first report times out after its read, the second report is started, and both bodies go on.
 */
module PresenceOverlap {
  import opened DomainEvents
  import opened EventPattern
  import opened Segments
  import opened Presence
  import opened PresenceRefinement
  import opened PresenceOrder
  import Bus = EventBus

  // ----- runs, step after step -----

  /** The run leads from `s` to `s'`. */
  ghost predicate Leads(s: State, run: seq<Action>, s': State) {
    IsRun(s, run) && After(s, run) == s'
  }

  lemma {:induction false} Then(s: State, run: seq<Action>, s1: State, a: Action)
    requires Leads(s, run, s1) && Enabled(s1, a)
    ensures Leads(s, run + [a], Apply(s1, a))
    decreases |run|
  {
    if run == [] {
      assert run + [a] == [a];
    } else {
      Then(Apply(s, run[0]), run[1..], s1, a);
      assert (run + [a])[1..] == run[1..] + [a];
    }
  }

  /** What is known of a state as far as the device goes. */
  datatype View = View(row: Option<Row>, bodies: map<nat, Body>, outcomes: map<nat, Outcome>, emitted: seq<Emission>)

  function ViewOf(s: State, id: string): View {
    View(Get(s.rows, id), s.bodies, s.outcomes, Emissions(s.bus.history, id))
  }

  // ----- a report reaches the registry -----

  lemma {:induction false} AcceptsItself(p: seq<string>)
    ensures Accepts(p, p)
  {
    if p != [] && p[0] != "**" {
      AcceptsItself(p[1..]);
    }
  }

  function Reported(id: string, online: bool, at: int): DomainEvent {
    DomainEvent(DEVICE_PRESENCE_REPORTED, Some(id), at, Payload.Presence("base", online))
  }

  predicate IsReport(event: DomainEvent, id: string) {
    event.eventType == DEVICE_PRESENCE_REPORTED && event.deviceId == Some(id) && id != ""
  }

  lemma ReportIsMatched(subscription: Bus.Subscription, event: DomainEvent)
    requires subscription.pattern == event.eventType
    ensures Bus.TargetsOf([subscription], event) == [subscription]
  {
    AcceptsItself(Split(event.eventType, '.'));
    assert [subscription][1..] == [];
  }

  /** The link of a report, as it is published at instant 0. */
  function NewLink(event: DomainEvent, id: string, previous: Option<nat>): Bus.Link {
    Bus.Link(event, id, [PresenceSubscription], previous, 0, Bus.Waiting, [Bus.Idle], false)
  }

  /** What publishing a report at instant 0 does to the bus. */
  lemma PublishedBus(bus: Bus.State, event: DomainEvent, id: string)
    requires bus.subscriptions == [PresenceSubscription] && bus.now == 0 && IsReport(event, id)
    ensures var bus' := Bus.AfterPublish(bus, event);
      && bus'.links == bus.links + [NewLink(event, id, if id in bus.lanes then Some(bus.lanes[id]) else None)]
      && bus'.lanes == bus.lanes[id := |bus.links|]
      && bus'.subscriptions == bus.subscriptions && bus'.now == 0
  {
    ReportIsMatched(PresenceSubscription, event);
    assert Bus.AllIdle(1) == [Bus.Idle];
  }

  lemma PublishReport(s: State, event: DomainEvent, id: string)
    requires IsReport(event, id)
    ensures Enabled(s, BusStep(Bus.Publish(event)))
    ensures Apply(s, BusStep(Bus.Publish(event))) == s.(bus := Bus.AfterPublish(s.bus, event))
    ensures ViewOf(Apply(s, BusStep(Bus.Publish(event))), id) == ViewOf(s, id)
  {
    ReportIsNoLifecycle(event, id);
    StepEmits(s, BusStep(Bus.Publish(event)), id);
  }

  lemma ReportIsNoLifecycle(event: DomainEvent, id: string)
    requires IsReport(event, id)
    ensures !IsLifecycle(event)
  {
    assert |DEVICE_PRESENCE_REPORTED| != |DEVICE_REGISTERED|;
    assert |DEVICE_PRESENCE_REPORTED| != |DEVICE_ONLINE| && |DEVICE_PRESENCE_REPORTED| != |DEVICE_OFFLINE|;
  }

  // ----- the opening: the first body outlives its attempt, the second one starts -----

  function TwoReports(first: DomainEvent, second: DomainEvent): seq<Action> {
    [] + [BusStep(Bus.Publish(first))] + [BusStep(Bus.Publish(second))]
  }

  lemma TwoReportsArePublished(first: DomainEvent, second: DomainEvent, id: string) returns (s: State)
    requires IsReport(first, id) && IsReport(second, id)
    ensures Leads(Initial, TwoReports(first, second), s) && ViewOf(s, id) == View(None, map[], map[], []) && s.bus.now == 0
    ensures s.bus.links == [NewLink(first, id, None), NewLink(second, id, Some(0))]
  {
    assert Initial.bus.subscriptions == [PresenceSubscription];
    PublishReport(Initial, first, id);
    PublishedBus(Initial.bus, first, id);
    Then(Initial, [], Initial, BusStep(Bus.Publish(first)));
    var s1 := Apply(Initial, BusStep(Bus.Publish(first)));
    PublishReport(s1, second, id);
    PublishedBus(s1.bus, second, id);
    Then(Initial, [] + [BusStep(Bus.Publish(first))], s1, BusStep(Bus.Publish(second)));
    s := Apply(s1, BusStep(Bus.Publish(second)));
  }

  lemma HandlerIsFirst(link: Bus.Link)
    requires link.targets == [PresenceSubscription] && |link.progress| == 1
    ensures HandlerIndex(link.targets) == 0 && HasHandler(link) && HandlerState(link) == link.progress[0]
  {
  }

  /** A report enters the handler. */
  lemma StartStep(s: State, k: nat)
    requires k < |s.bus.links| && s.bus.links[k].targets == [PresenceSubscription] && |s.bus.links[k].progress| == 1
    requires s.bus.links[k].phase.Waiting? && Bus.Ready(s.bus.links, k)
    ensures Enabled(s, BusStep(Bus.Start(k)))
    ensures Apply(s, BusStep(Bus.Start(k))) == s.(
      bus := s.bus.(links := s.bus.links[k :=
        s.bus.links[k].(phase := Bus.Running(s.bus.now), progress := [Bus.Attempting(0, s.bus.now + 10000)])]),
      bodies := s.bodies[k := Entered])
  {
    HandlerIsFirst(s.bus.links[k]);
    assert Bus.AfterStart(s.bus, k).links[k].progress == [Bus.Attempting(0, s.bus.now + 10000)];
  }

  function StartedFirst(first: DomainEvent, id: string): Bus.Link {
    NewLink(first, id, None).(phase := Bus.Running(0), progress := [Bus.Attempting(0, 10000)])
  }

  function FirstWaits(first: DomainEvent, second: DomainEvent): seq<Action> {
    TwoReports(first, second) + [BusStep(Bus.Start(0))] + [ReadRow(0)] + [BusStep(Bus.Advance(10000))]
  }

  /** Link `k` delivers this report to the registry. */
  predicate Delivers(links: seq<Bus.Link>, k: nat, event: DomainEvent) {
    && k < |links| && links[k].targets == [PresenceSubscription] && |links[k].progress| == 1
    && links[k].event == event
  }

  lemma ReadStep(s: State, k: nat, event: DomainEvent, id: string)
    requires k in s.bodies && s.bodies[k] == Entered && Delivers(s.bus.links, k, event) && IsReport(event, id)
    ensures Enabled(s, ReadRow(k)) && Apply(s, ReadRow(k)) == s.(bodies := s.bodies[k := Looked(Get(s.rows, id))])
  {
    HandlerIsFirst(s.bus.links[k]);
  }

  lemma FirstHasStarted(run: seq<Action>, s0: State, first: DomainEvent, second: DomainEvent, id: string) returns (s: State)
    requires Leads(Initial, run, s0) && ViewOf(s0, id) == View(None, map[], map[], []) && s0.bus.now == 0
    requires s0.bus.links == [NewLink(first, id, None), NewLink(second, id, Some(0))]
    ensures Leads(Initial, run + [BusStep(Bus.Start(0))], s)
    ensures ViewOf(s, id) == View(None, map[0 := Entered], map[], []) && s.bus.now == 0
    ensures s.bus.links == [StartedFirst(first, id), NewLink(second, id, Some(0))]
  {
    StartStep(s0, 0);
    Then(Initial, run, s0, BusStep(Bus.Start(0)));
    s := Apply(s0, BusStep(Bus.Start(0)));
  }

  lemma FirstHasRead(first: DomainEvent, second: DomainEvent, id: string) returns (s: State)
    requires IsReport(first, id) && IsReport(second, id)
    ensures Leads(Initial, TwoReports(first, second) + [BusStep(Bus.Start(0))] + [ReadRow(0)], s)
    ensures ViewOf(s, id) == View(None, map[0 := Looked(None)], map[], []) && s.bus.now == 0
    ensures s.bus.links == [StartedFirst(first, id), NewLink(second, id, Some(0))]
  {
    var s0 := TwoReportsArePublished(first, second, id);
    s0 := FirstHasStarted(TwoReports(first, second), s0, first, second, id);
    ReadStep(s0, 0, first, id);
    Then(Initial, TwoReports(first, second) + [BusStep(Bus.Start(0))], s0, ReadRow(0));
    s := Apply(s0, ReadRow(0));
  }

  lemma AdvanceStep(s: State, ms: nat)
    ensures Enabled(s, BusStep(Bus.Advance(ms)))
    ensures Apply(s, BusStep(Bus.Advance(ms))) == s.(bus := s.bus.(now := s.bus.now + ms))
  {
  }

  lemma FirstIsWaiting(first: DomainEvent, second: DomainEvent, id: string) returns (s: State)
    requires IsReport(first, id) && IsReport(second, id)
    ensures Leads(Initial, FirstWaits(first, second), s)
    ensures ViewOf(s, id) == View(None, map[0 := Looked(None)], map[], []) && s.bus.now == 10000
    ensures s.bus.links == [StartedFirst(first, id), NewLink(second, id, Some(0))]
  {
    var s0 := FirstHasRead(first, second, id);
    AdvanceStep(s0, 10000);
    Then(Initial, TwoReports(first, second) + [BusStep(Bus.Start(0))] + [ReadRow(0)], s0, BusStep(Bus.Advance(10000)));
    s := Apply(s0, BusStep(Bus.Advance(10000)));
  }

  /** The timer fires, the bus gives up and the link settles. */
  lemma TimeOut(s: State)
    requires |s.bus.links| > 0 && s.bus.links[0].targets == [PresenceSubscription] && s.bus.now == 10000
    requires s.bus.links[0].phase == Bus.Running(0) && s.bus.links[0].progress == [Bus.Attempting(0, 10000)]
    ensures Enabled(s, BusStep(Bus.TimerFires(0, 0)))
    ensures var s1 := Apply(s, BusStep(Bus.TimerFires(0, 0)));
      && Enabled(s1, BusStep(Bus.Settle(0)))
      && var s2 := Apply(s1, BusStep(Bus.Settle(0)));
         s2 == s.(bus := s2.bus) && s2.bus.history == s.bus.history
         && s2.bus.links == s.bus.links[0 := s.bus.links[0].(phase := Bus.Settled(10000), progress := [Bus.GaveUp])]
  {
    assert [Bus.Attempting(0, 10000)][0 := Bus.GaveUp] == [Bus.GaveUp];
  }

  function Opening(first: DomainEvent, second: DomainEvent): seq<Action> {
    FirstWaits(first, second) + [BusStep(Bus.TimerFires(0, 0))] + [BusStep(Bus.Settle(0))] + [BusStep(Bus.Start(1))]
  }

  /** Both reports of the device are being handled, and the device is like this. */
  predicate Looks(s: State, first: DomainEvent, second: DomainEvent, id: string, v: View) {
    && IsReport(first, id) && IsReport(second, id)
    && Delivers(s.bus.links, 0, first) && Delivers(s.bus.links, 1, second) && ViewOf(s, id) == v
  }

  lemma BothRun(first: DomainEvent, second: DomainEvent, id: string) returns (s: State)
    requires IsReport(first, id) && IsReport(second, id)
    ensures Leads(Initial, Opening(first, second), s)
    ensures Looks(s, first, second, id, View(None, map[0 := Looked(None), 1 := Entered], map[], []))
  {
    var s0 := FirstIsWaiting(first, second, id);
    TimeOut(s0);
    Then(Initial, FirstWaits(first, second), s0, BusStep(Bus.TimerFires(0, 0)));
    var s1 := Apply(s0, BusStep(Bus.TimerFires(0, 0)));
    Then(Initial, FirstWaits(first, second) + [BusStep(Bus.TimerFires(0, 0))], s1, BusStep(Bus.Settle(0)));
    var s2 := Apply(s1, BusStep(Bus.Settle(0)));
    StartStep(s2, 1);
    Then(Initial, FirstWaits(first, second) + [BusStep(Bus.TimerFires(0, 0))] + [BusStep(Bus.Settle(0))], s2, BusStep(Bus.Start(1)));
    s := Apply(s2, BusStep(Bus.Start(1)));
  }

  // ----- steps of the two bodies -----

  function ReportOf(a: Action, first: DomainEvent, second: DomainEvent): DomainEvent
    requires !a.BusStep?
  {
    if a.link == 0 then first else second
  }

  /** The body of link `a.link` may take this step next. */
  predicate MayGo(v: View, a: Action) {
    !a.BusStep? && a.link < 2 && a.link in v.bodies
    && match a
       case ReadRow(k) => v.bodies[k].Entered?
       case FindRow(k) => v.bodies[k].Looked?
       case SaveRow(k) => v.bodies[k].Creating?
       case UpdateRow(k) => v.bodies[k].Updating? && v.row.Some?
       case Announce(k) => v.bodies[k].Announcing?
       case _ => false
  }

  /** The device after that step, `e` being the report of the body. */
  function Next(v: View, a: Action, e: DomainEvent): View
    requires MayGo(v, a)
  {
    match a
    case ReadRow(k) => v.(bodies := v.bodies[k := Looked(v.row)])
    case FindRow(k) =>
      var before := v.bodies[k].before;
      v.(bodies := v.bodies[k := if v.row.Some? then Updating(before, false) else Creating(before)])
    case SaveRow(k) =>
      View(Some(NewRow(BaseOf(e))), v.bodies[k := Updating(v.bodies[k].before, true)], v.outcomes, v.emitted + [WasRegistered])
    case UpdateRow(k) =>
      v.(row := Some(v.row.value.(online := OnlineOf(e), lastSeenAt := Some(e.timestamp))),
         bodies := v.bodies[k := Announcing(v.bodies[k].before, v.bodies[k].created)])
    case Announce(k) =>
      View(v.row, v.bodies - {k}, v.outcomes[k := Handled],
           v.emitted + (if WasOnline(v.bodies[k].before) != OnlineOf(e) then [Change(OnlineOf(e))] else []))
  }

  lemma PublishKeepsDelivery(bus: Bus.State, event: DomainEvent, j: nat, e: DomainEvent)
    requires Delivers(bus.links, j, e)
    ensures Delivers(Bus.AfterPublish(bus, event).links, j, e)
  {
    PublishKeepsLinks(bus, event);
  }

  lemma ToldKeepsDelivery(bus: Bus.State, k: nat, j: nat, e: DomainEvent)
    requires k < |bus.links| && bus.links[k].targets == [PresenceSubscription] && Delivers(bus.links, j, e)
    ensures Delivers(Told(bus, k, true).links, j, e)
  {
  }

  lemma BodyKeepsDelivery(s: State, a: Action, j: nat, e: DomainEvent)
    requires Enabled(s, a) && !a.BusStep? && !a.Skip? && !a.Fail?
    requires s.bus.links[a.link].targets == [PresenceSubscription] && Delivers(s.bus.links, j, e)
    ensures Delivers(Apply(s, a).bus.links, j, e)
  {
    if a.SaveRow? {
      PublishKeepsDelivery(s.bus, Registration(Report(s, a.link), s.bus.now), j, e);
    } else if a.Announce? {
      ToldKeepsDelivery(s.bus, a.link, j, e);
      PublishKeepsDelivery(Told(s.bus, a.link, true), ChangeEvent(Report(s, a.link), WasOnline(s.bodies[a.link].before), s.bus.now), j, e);
    }
  }

  lemma BodyStep(s: State, first: DomainEvent, second: DomainEvent, id: string, v: View, a: Action)
    requires Looks(s, first, second, id, v) && MayGo(v, a)
    ensures Enabled(s, a) && Looks(Apply(s, a), first, second, id, Next(v, a, ReportOf(a, first, second)))
  {
    HandlerIsFirst(s.bus.links[a.link]);
    StepEmits(s, a, id);
    BodyKeepsDelivery(s, a, 0, first);
    BodyKeepsDelivery(s, a, 1, second);
  }

  /** These steps of the two bodies, one after the other, lead from one view of the device to the other. */
  predicate Becomes(v: View, steps: seq<Action>, v': View, first: DomainEvent, second: DomainEvent)
    decreases |steps|
  {
    if steps == [] then v == v'
    else MayGo(v, steps[0]) && Becomes(Next(v, steps[0], ReportOf(steps[0], first, second)), steps[1..], v', first, second)
  }

  lemma BecomesBy(v: View, a: Action, v1: View, rest: seq<Action>, v': View, first: DomainEvent, second: DomainEvent)
    requires MayGo(v, a) && Next(v, a, ReportOf(a, first, second)) == v1 && Becomes(v1, rest, v', first, second)
    ensures Becomes(v, [a] + rest, v', first, second)
  {
    assert ([a] + rest)[1..] == rest;
  }

  /** One more step of a body, at the end of a run. */
  lemma Goes(run: seq<Action>, s: State, first: DomainEvent, second: DomainEvent, id: string, v: View, a: Action)
    returns (s': State)
    requires Leads(Initial, run, s) && Looks(s, first, second, id, v) && MayGo(v, a)
    ensures Leads(Initial, run + [a], s') && Looks(s', first, second, id, Next(v, a, ReportOf(a, first, second)))
  {
    BodyStep(s, first, second, id, v, a);
    Then(Initial, run, s, a);
    s' := Apply(s, a);
  }

  lemma {:induction false} GoOn(run: seq<Action>, s: State, first: DomainEvent, second: DomainEvent, id: string,
                                v: View, steps: seq<Action>, v': View) returns (s': State)
    requires Leads(Initial, run, s) && Looks(s, first, second, id, v) && Becomes(v, steps, v', first, second)
    ensures Leads(Initial, run + steps, s') && Looks(s', first, second, id, v')
    decreases |steps|
  {
    if steps == [] {
      assert run + steps == run;
      s' := s;
    } else {
      var s1 := Goes(run, s, first, second, id, v, steps[0]);
      s' := GoOn(run + [steps[0]], s1, first, second, id, Next(v, steps[0], ReportOf(steps[0], first, second)), steps[1..], v');
      assert run + [steps[0]] + steps[1..] == run + steps;
    }
  }

  // ----- the run that breaks the order -----

  const BothEntered := View(None, map[0 := Looked(None), 1 := Entered], map[], [])

  const SecondHandles := [ReadRow(1)] + ([FindRow(1)] + ([SaveRow(1)] + ([UpdateRow(1)] + ([Announce(1)] + []))))
  const FirstHandles := [FindRow(0)] + ([UpdateRow(0)] + ([Announce(0)] + []))

  lemma SecondIsHandled(e: DomainEvent)
    requires OnlineOf(e)
    ensures Becomes(BothEntered, SecondHandles,
      View(Some(Row(BaseOf(e), true, Some(e.timestamp))), map[0 := Looked(None)], map[1 := Handled], [WasRegistered, WentOnline]), e, e)
  {
    var v1 := BothEntered.(bodies := map[0 := Looked(None), 1 := Looked(None)]);
    var v2 := BothEntered.(bodies := map[0 := Looked(None), 1 := Creating(None)]);
    var v3 := View(Some(NewRow(BaseOf(e))), map[0 := Looked(None), 1 := Updating(None, true)], map[], [WasRegistered]);
    var v4 := v3.(row := Some(Row(BaseOf(e), true, Some(e.timestamp))), bodies := map[0 := Looked(None), 1 := Announcing(None, true)]);
    var v5 := View(v4.row, map[0 := Looked(None)], map[1 := Handled], [WasRegistered, WentOnline]);
    BecomesBy(v4, Announce(1), v5, [], v5, e, e);
    BecomesBy(v3, UpdateRow(1), v4, [Announce(1)] + [], v5, e, e);
    BecomesBy(v2, SaveRow(1), v3, [UpdateRow(1)] + ([Announce(1)] + []), v5, e, e);
    BecomesBy(v1, FindRow(1), v2, [SaveRow(1)] + ([UpdateRow(1)] + ([Announce(1)] + [])), v5, e, e);
    BecomesBy(BothEntered, ReadRow(1), v1, [FindRow(1)] + ([SaveRow(1)] + ([UpdateRow(1)] + ([Announce(1)] + []))), v5, e, e);
  }

  lemma FirstIsHandled(e: DomainEvent, row: Row)
    requires OnlineOf(e)
    ensures Becomes(View(Some(row), map[0 := Looked(None)], map[1 := Handled], [WasRegistered, WentOnline]), FirstHandles,
      View(Some(row.(online := true, lastSeenAt := Some(e.timestamp))), map[], map[0 := Handled, 1 := Handled],
           [WasRegistered, WentOnline, WentOnline]), e, e)
  {
    var v0 := View(Some(row), map[0 := Looked(None)], map[1 := Handled], [WasRegistered, WentOnline]);
    var v1 := v0.(bodies := map[0 := Updating(None, false)]);
    var v2 := View(Some(row.(online := true, lastSeenAt := Some(e.timestamp))), map[0 := Announcing(None, false)],
                   map[1 := Handled], [WasRegistered, WentOnline]);
    var v3 := View(v2.row, map[], map[0 := Handled, 1 := Handled], [WasRegistered, WentOnline, WentOnline]);
    BecomesBy(v2, Announce(0), v3, [], v3, e, e);
    BecomesBy(v1, UpdateRow(0), v2, [Announce(0)] + [], v3, e, e);
    BecomesBy(v0, FindRow(0), v1, [UpdateRow(0)] + ([Announce(0)] + []), v3, e, e);
  }

  function TwiceOnline(id: string): seq<Action> {
    Opening(Reported(id, true, 0), Reported(id, true, 0)) + SecondHandles + FirstHandles
  }

  lemma TwiceOnlineRuns(id: string) returns (s: State)
    requires id != ""
    ensures Leads(Initial, TwiceOnline(id), s)
    ensures ViewOf(s, id) == View(Some(Row("base", true, Some(0))), map[], map[0 := Handled, 1 := Handled],
                                  [WasRegistered, WentOnline, WentOnline])
  {
    var e := Reported(id, true, 0);
    s := BothRun(e, e, id);
    SecondIsHandled(e);
    s := GoOn(Opening(e, e), s, e, e, id, BothEntered, SecondHandles,
              View(Some(Row("base", true, Some(0))), map[0 := Looked(None)], map[1 := Handled], [WasRegistered, WentOnline]));
    FirstIsHandled(e, Row("base", true, Some(0)));
    s := GoOn(Opening(e, e) + SecondHandles, s, e, e, id,
              View(Some(Row("base", true, Some(0))), map[0 := Looked(None)], map[1 := Handled], [WasRegistered, WentOnline]), FirstHandles,
              View(Some(Row("base", true, Some(0))), map[], map[0 := Handled, 1 := Handled], [WasRegistered, WentOnline, WentOnline]));
  }

  /**
   * A device reports twice that it is online; the body of the first report goes on after the second one
   * has been handled. The device is announced online twice in a row, and nothing runs any more.
   */
  lemma OverlapBreaksAlternation(id: string)
    requires id != ""
    ensures var run := TwiceOnline(id);
      && IsRun(Initial, run) && !Busy(After(Initial, run), id)
      && Emissions(After(Initial, run).bus.history, id) == [WasRegistered, WentOnline, WentOnline]
      && !WellOrdered(Emissions(After(Initial, run).bus.history, id))
      && !EveryStepInTurn(Initial, run, id) && !NoOverlap(Initial, run)
  {
    var s := TwiceOnlineRuns(id);
    assert [WasRegistered, WentOnline, WentOnline][2] == WentOnline;
    DisorderMeansOutOfTurn(TwiceOnline(id), id);
  }

  lemma DisorderMeansOutOfTurn(run: seq<Action>, id: string)
    requires IsRun(Initial, run) && !WellOrdered(Emissions(After(Initial, run).bus.history, id))
    ensures !EveryStepInTurn(Initial, run, id) && !NoOverlap(Initial, run)
  {
    InitialConsistent();
    AlternatesExactly(Initial, run, id);
    if NoOverlap(Initial, run) {
      NoOverlapIsEnough(run, id);
    }
  }

  // ----- the run that applies a flap backwards -----

  const FirstSaves := [FindRow(0)] + ([SaveRow(0)] + [])
  const SecondOverwrites := [ReadRow(1)] + ([FindRow(1)] + ([UpdateRow(1)] + ([Announce(1)] + [])))
  const FirstOverwrites := [UpdateRow(0)] + ([Announce(0)] + [])

  lemma FirstHasSaved(on: DomainEvent, off: DomainEvent)
    ensures Becomes(BothEntered, FirstSaves,
      View(Some(NewRow(BaseOf(on))), map[0 := Updating(None, true), 1 := Entered], map[], [WasRegistered]), on, off)
  {
    var v1 := BothEntered.(bodies := map[0 := Creating(None), 1 := Entered]);
    var v2 := View(Some(NewRow(BaseOf(on))), map[0 := Updating(None, true), 1 := Entered], map[], [WasRegistered]);
    BecomesBy(v1, SaveRow(0), v2, [], v2, on, off);
    BecomesBy(BothEntered, FindRow(0), v1, [SaveRow(0)] + [], v2, on, off);
  }

  lemma SecondHasOverwritten(on: DomainEvent, off: DomainEvent, row: Row)
    requires !OnlineOf(off) && !row.online
    ensures Becomes(View(Some(row), map[0 := Updating(None, true), 1 := Entered], map[], [WasRegistered]), SecondOverwrites,
      View(Some(row.(lastSeenAt := Some(off.timestamp))), map[0 := Updating(None, true)], map[1 := Handled], [WasRegistered]), on, off)
  {
    var v0 := View(Some(row), map[0 := Updating(None, true), 1 := Entered], map[], [WasRegistered]);
    var v1 := v0.(bodies := map[0 := Updating(None, true), 1 := Looked(Some(row))]);
    var v2 := v0.(bodies := map[0 := Updating(None, true), 1 := Updating(Some(row), false)]);
    var v3 := v0.(row := Some(row.(lastSeenAt := Some(off.timestamp))),
                  bodies := map[0 := Updating(None, true), 1 := Announcing(Some(row), false)]);
    var v4 := View(v3.row, map[0 := Updating(None, true)], map[1 := Handled], [WasRegistered]);
    BecomesBy(v3, Announce(1), v4, [], v4, on, off);
    BecomesBy(v2, UpdateRow(1), v3, [Announce(1)] + [], v4, on, off);
    BecomesBy(v1, FindRow(1), v2, [UpdateRow(1)] + ([Announce(1)] + []), v4, on, off);
    BecomesBy(v0, ReadRow(1), v1, [FindRow(1)] + ([UpdateRow(1)] + ([Announce(1)] + [])), v4, on, off);
  }

  lemma FirstHasOverwritten(on: DomainEvent, off: DomainEvent, row: Row)
    requires OnlineOf(on)
    ensures Becomes(View(Some(row), map[0 := Updating(None, true)], map[1 := Handled], [WasRegistered]), FirstOverwrites,
      View(Some(row.(online := true, lastSeenAt := Some(on.timestamp))), map[], map[0 := Handled, 1 := Handled],
           [WasRegistered, WentOnline]), on, off)
  {
    var v0 := View(Some(row), map[0 := Updating(None, true)], map[1 := Handled], [WasRegistered]);
    var v1 := View(Some(row.(online := true, lastSeenAt := Some(on.timestamp))), map[0 := Announcing(None, true)],
                   map[1 := Handled], [WasRegistered]);
    var v2 := View(v1.row, map[], map[0 := Handled, 1 := Handled], [WasRegistered, WentOnline]);
    BecomesBy(v1, Announce(0), v2, [], v2, on, off);
    BecomesBy(v0, UpdateRow(0), v1, [Announce(0)] + [], v2, on, off);
  }

  /** Online at instant 0, offline at instant 1. */
  function Flap(id: string): seq<Action> {
    Opening(Reported(id, true, 0), Reported(id, false, 1)) + FirstSaves + SecondOverwrites + FirstOverwrites
  }

  lemma FlapRuns(id: string) returns (s: State)
    requires id != ""
    ensures Leads(Initial, Flap(id), s)
    ensures Looks(s, Reported(id, true, 0), Reported(id, false, 1), id,
      View(Some(Row("base", true, Some(0))), map[], map[0 := Handled, 1 := Handled], [WasRegistered, WentOnline]))
  {
    var on, off := Reported(id, true, 0), Reported(id, false, 1);
    s := BothRun(on, off, id);
    FirstHasSaved(on, off);
    var v1 := View(Some(NewRow("base")), map[0 := Updating(None, true), 1 := Entered], map[], [WasRegistered]);
    s := GoOn(Opening(on, off), s, on, off, id, BothEntered, FirstSaves, v1);
    SecondHasOverwritten(on, off, NewRow("base"));
    var v2 := View(Some(Row("base", false, Some(1))), map[0 := Updating(None, true)], map[1 := Handled], [WasRegistered]);
    s := GoOn(Opening(on, off) + FirstSaves, s, on, off, id, v1, SecondOverwrites, v2);
    FirstHasOverwritten(on, off, Row("base", false, Some(1)));
    s := GoOn(Opening(on, off) + FirstSaves + SecondOverwrites, s, on, off, id, v2, FirstOverwrites,
              View(Some(Row("base", true, Some(0))), map[], map[0 := Handled, 1 := Handled], [WasRegistered, WentOnline]));
  }

  /**
   * A device reports online and then offline. The second report is handled before the first body updates
   * the row, so the row ends with the older report, online, although the report handled last in publish
   * order is offline. The events published are in order: only the row shows it.
   */
  lemma FlapIsAppliedBackwards(id: string)
    requires id != ""
    ensures var run := Flap(id);
      && IsRun(Initial, run) && !Busy(After(Initial, run), id)
      && var s := After(Initial, run);
         && id in s.rows && s.rows[id] == Row("base", true, Some(0))
         && !LastOnline(LogOf(s, id)) && LastSeen(LogOf(s, id)) == Some(1)
         && WellOrdered(Emissions(s.bus.history, id)) && EveryStepInTurn(Initial, run, id)
         && !LastWriteInOrder(Initial, run, id, true) && !NoOverlap(Initial, run)
  {
    var s := FlapRuns(id);
    FlapEnd(s, id);
    BackwardsMeansOutOfOrder(Flap(id), id);
  }

  lemma FlapEnd(s: State, id: string)
    requires Looks(s, Reported(id, true, 0), Reported(id, false, 1), id,
      View(Some(Row("base", true, Some(0))), map[], map[0 := Handled, 1 := Handled], [WasRegistered, WentOnline]))
    ensures !Busy(s, id) && !LastOnline(LogOf(s, id)) && LastSeen(LogOf(s, id)) == Some(1)
    ensures WellOrdered(Emissions(s.bus.history, id))
  {
    assert HasWritten(s, 1) && Owns(s, 1, id);
    assert LatestOf(s, id) == Some(1);
    LatestIsLogged(s, id, |s.bus.links|);
  }

  lemma BackwardsMeansOutOfOrder(run: seq<Action>, id: string)
    requires IsRun(Initial, run) && !Busy(After(Initial, run), id)
    requires var s := After(Initial, run); id in s.rows && s.rows[id].online != LastOnline(LogOf(s, id))
    ensures !LastWriteInOrder(Initial, run, id, true) && !NoOverlap(Initial, run)
    ensures WellOrdered(Emissions(After(Initial, run).bus.history, id)) ==> EveryStepInTurn(Initial, run, id)
  {
    RegistryIsRightExactly(run, id);
    if NoOverlap(Initial, run) {
      NoOverlapIsEnough(run, id);
    }
  }
}
