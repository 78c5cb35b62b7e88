/**
 * The device registry as a consumer of the bus. Each database access of `handlePresenceReported` is a
 * step of its own, interleaved with every other step of the bus and of other handler bodies. A body
 * whose attempt times out runs on. As long as no report of a device starts while an earlier body of that
 * device still runs, the result is a sequential replay of each device's reports.
 */
module Presence {
  import opened DomainEvents
  import Bus = EventBus

  // ----- what one device's reports amount to -----

  datatype Row = Row(baseTopic: string, online: bool, lastSeenAt: Option<int>)

  datatype Emission = WasRegistered | WentOnline | WentOffline

  /** How the handling of one report ended. `created`: a failed handler had already saved a new row. */
  datatype Outcome = Ignored | Failed(created: bool) | Handled

  datatype Entry = Entry(outcome: Outcome, baseTopic: string, online: bool, timestamp: int)

  datatype Replayed = Replayed(row: Option<Row>, emitted: seq<Emission>)

  function NewRow(baseTopic: string): Row { Row(baseTopic, false, None) }

  function Change(online: bool): Emission { if online then WentOnline else WentOffline }

  function WasOnline(row: Option<Row>): bool { row.Some? && row.value.online }

  /** The sequential effect of one report. */
  function Digest(r: Replayed, e: Entry): Replayed {
    var created := if r.row.None? then [WasRegistered] else [];
    var base := if r.row.None? then NewRow(e.baseTopic) else r.row.value;
    match e.outcome
    case Ignored => r
    case Failed(c) => if c then Replayed(Some(base), r.emitted + created) else r
    case Handled =>
      Replayed(
        Some(base.(online := e.online, lastSeenAt := Some(e.timestamp))),
        r.emitted + created + (if WasOnline(r.row) != e.online then [Change(e.online)] else []))
  }

  /** The reports of one device, one after the other. */
  function Replay(log: seq<Entry>): Replayed {
    if log == [] then Replayed(None, []) else Digest(Replay(log[..|log| - 1]), log[|log| - 1])
  }

  /** The presence a device last reported successfully. */
  function LastOnline(log: seq<Entry>): bool {
    if log == [] then false
    else if log[|log| - 1].outcome.Handled? then log[|log| - 1].online
    else LastOnline(log[..|log| - 1])
  }

  function LastSeen(log: seq<Entry>): Option<int> {
    if log == [] then None
    else if log[|log| - 1].outcome.Handled? then Some(log[|log| - 1].timestamp)
    else LastSeen(log[..|log| - 1])
  }

  /** How often the successfully reported presence changed, starting from offline. */
  function Changes(log: seq<Entry>): nat {
    if log == [] then 0
    else
      var front, last := log[..|log| - 1], log[|log| - 1];
      Changes(front) + (if last.outcome.Handled? && last.online != LastOnline(front) then 1 else 0)
  }

  /** Registered once, first; then online, offline, online, ... */
  ghost predicate WellOrdered(emitted: seq<Emission>) {
    forall i | 0 <= i < |emitted| ::
      emitted[i] == (if i == 0 then WasRegistered else if i % 2 == 1 then WentOnline else WentOffline)
  }

  /**
   * A device's row holds the last successfully handled report; it was registered exactly once if it has
   * a row; the change events alternate starting with online, one per real change.
   */
  lemma {:induction false} ReplayMeaning(log: seq<Entry>)
    ensures var r := Replay(log);
      && (r.row.Some? ==> r.row.value.online == LastOnline(log) && r.row.value.lastSeenAt == LastSeen(log))
      && (r.row.None? ==> !LastOnline(log) && LastSeen(log) == None && r.emitted == [])
      && WellOrdered(r.emitted)
      && (r.row.Some? ==> |r.emitted| == 1 + Changes(log))
      && (LastOnline(log) <==> |r.emitted| > 0 && |r.emitted| % 2 == 0)
      && (r.row.None? ==> Changes(log) == 0)
  {
    if log != [] {
      ReplayMeaning(log[..|log| - 1]);
      var r := Replay(log[..|log| - 1]);
      var e := log[|log| - 1];
      DigestOrder(r, e);
    }
  }

  lemma DigestOrder(r: Replayed, e: Entry)
    requires WellOrdered(r.emitted) && (r.row.None? ==> r.emitted == []) && (r.row.Some? ==> r.emitted != [])
    requires WasOnline(r.row) <==> |r.emitted| > 0 && |r.emitted| % 2 == 0
    ensures WellOrdered(Digest(r, e).emitted)
  {
  }

  // ----- the machine -----

  /** Where a running handler body stands; `before` is the row it read first. */
  datatype Body =
    | Entered
    | Looked(before: Option<Row>)
    | Creating(before: Option<Row>)
    | Updating(before: Option<Row>, created: bool)
    | Announcing(before: Option<Row>, created: bool)

  /** `bodies` and `outcomes` are indexed by the link of the bus that delivers the report. */
  datatype State = State(bus: Bus.State, rows: map<string, Row>, bodies: map<nat, Body>, outcomes: map<nat, Outcome>)

  /** `onModuleInit` subscribes with the default options; it is the first subscription. */
  const PRESENCE_ID: nat := 0
  const Subscribing := Bus.Subscribe(DEVICE_PRESENCE_REPORTED, 0, 100, 10000)
  const PresenceSubscription := Bus.Subscription(PRESENCE_ID, DEVICE_PRESENCE_REPORTED, 0, 100, 10000)
  const Initial := State(Bus.Apply(Bus.Initial, Subscribing), map[], map[], map[])

  datatype Action =
    | BusStep(a: Bus.Action)
    | Skip(link: nat)
    | ReadRow(link: nat)
    | FindRow(link: nat)
    | SaveRow(link: nat)
    | UpdateRow(link: nat)
    | Announce(link: nat)
    | Fail(link: nat)

  /** The position of the registry's subscription among the targets of a link. */
  function HandlerIndex(targets: seq<Bus.Subscription>): (i: nat)
    ensures i <= |targets|
    ensures i < |targets| ==> targets[i].id == PRESENCE_ID
  {
    if targets == [] then 0
    else if targets[0].id == PRESENCE_ID then 0
    else 1 + HandlerIndex(targets[1..])
  }

  predicate HasHandler(link: Bus.Link) {
    HandlerIndex(link.targets) < |link.targets| && |link.targets| == |link.progress|
  }

  function HandlerState(link: Bus.Link): Bus.TargetState
    requires HasHandler(link)
  {
    link.progress[HandlerIndex(link.targets)]
  }

  predicate IsLifecycle(event: DomainEvent) {
    event.eventType == DEVICE_REGISTERED || event.eventType == DEVICE_ONLINE || event.eventType == DEVICE_OFFLINE
  }

  /** The end of an attempt of the registry's own handler: it comes from the handler's body. */
  predicate TouchesHandler(s: State, a: Bus.Action) {
    (a.AttemptOk? || a.AttemptFail? || a.BackoffOver?)
    && a.link < |s.bus.links| && a.target == HandlerIndex(s.bus.links[a.link].targets)
  }

  /** Everything else that can happen, time-outs included: only the registry publishes lifecycle events. */
  predicate Foreign(s: State, a: Bus.Action) {
    Bus.Enabled(s.bus, a) && !TouchesHandler(s, a) && (a.Publish? ==> !IsLifecycle(a.event))
  }

  function Report(s: State, k: nat): DomainEvent
    requires k < |s.bus.links|
  {
    s.bus.links[k].event
  }

  predicate HasId(event: DomainEvent) {
    event.deviceId.Some? && event.deviceId.value != ""
  }

  function Get(rows: map<string, Row>, id: string): Option<Row> {
    if id in rows then Some(rows[id]) else None
  }

  /** The body of link `k` is running, whether its attempt is still open or has timed out. */
  predicate Runs(s: State, k: nat) {
    k in s.bodies && k < |s.bus.links| && HasHandler(s.bus.links[k])
  }

  /** The bus still waits for the handler of link `k`. */
  predicate Open(bus: Bus.State, k: nat) {
    k < |bus.links| && HasHandler(bus.links[k]) && HandlerState(bus.links[k]).Attempting?
  }

  predicate Enabled(s: State, a: Action) {
    match a
    case BusStep(b) => Foreign(s, b)
    case Skip(k) => Runs(s, k) && s.bodies[k].Entered? && !HasId(Report(s, k))
    case ReadRow(k) => Runs(s, k) && s.bodies[k].Entered? && HasId(Report(s, k))
    case FindRow(k) => Runs(s, k) && s.bodies[k].Looked? && HasId(Report(s, k))
    case SaveRow(k) => Runs(s, k) && s.bodies[k].Creating? && HasId(Report(s, k))
    case UpdateRow(k) => Runs(s, k) && s.bodies[k].Updating? && HasId(Report(s, k))
    case Announce(k) => Runs(s, k) && s.bodies[k].Announcing? && HasId(Report(s, k))
    case Fail(k) => Runs(s, k) && !s.bodies[k].Announcing? && HasId(Report(s, k))
  }

  function BaseOf(event: DomainEvent): string {
    if event.payload.Presence? then event.payload.baseTopic else ""
  }

  function OnlineOf(event: DomainEvent): bool {
    event.payload.Presence? && event.payload.online
  }

  /** The events a report leads to are stamped with the instant of their publication. */
  function Registration(event: DomainEvent, now: int): DomainEvent {
    DomainEvent(DEVICE_REGISTERED, event.deviceId, now, Registered(BaseOf(event)))
  }

  function ChangeEvent(event: DomainEvent, was: bool, now: int): DomainEvent {
    DomainEvent(if OnlineOf(event) then DEVICE_ONLINE else DEVICE_OFFLINE, event.deviceId, now, Changed(was))
  }

  /** The bus learns how a handler ended, if it still waits for it. */
  function Told(bus: Bus.State, k: nat, ok: bool): Bus.State
    requires k < |bus.links|
  {
    var i := HandlerIndex(bus.links[k].targets);
    if !Open(bus, k) then bus
    else Bus.Apply(bus, if ok then Bus.AttemptOk(k, i) else Bus.AttemptFail(k, i))
  }

  /** The body of link `k` ends with `outcome`; its promise resolves if `ok`, and rejects otherwise. */
  function Finish(s: State, k: nat, ok: bool, outcome: Outcome): State
    requires k < |s.bus.links|
  {
    s.(bus := Told(s.bus, k, ok), bodies := s.bodies - {k}, outcomes := s.outcomes[k := outcome])
  }

  function Apply(s: State, a: Action): State
    requires Enabled(s, a)
  {
    match a
    case BusStep(b) =>
      var s1 := s.(bus := Bus.Apply(s.bus, b));
      if b.Start? && HasHandler(s.bus.links[b.link]) then s1.(bodies := s.bodies[b.link := Entered]) else s1
    case Skip(k) => Finish(s, k, true, Ignored)
    case ReadRow(k) =>
      s.(bodies := s.bodies[k := Looked(Get(s.rows, Report(s, k).deviceId.value))])
    case FindRow(k) =>
      var before := s.bodies[k].before;
      s.(bodies := s.bodies[k :=
        if Report(s, k).deviceId.value in s.rows then Updating(before, false) else Creating(before)])
    case SaveRow(k) =>
      var e := Report(s, k);
      State(
        Bus.AfterPublish(s.bus, Registration(e, s.bus.now)),
        s.rows[e.deviceId.value := NewRow(BaseOf(e))],
        s.bodies[k := Updating(s.bodies[k].before, true)],
        s.outcomes)
    case UpdateRow(k) =>
      var e := Report(s, k);
      var id := e.deviceId.value;
      var rows := if id in s.rows
        then s.rows[id := s.rows[id].(online := OnlineOf(e), lastSeenAt := Some(e.timestamp))] else s.rows;
      s.(rows := rows, bodies := s.bodies[k := Announcing(s.bodies[k].before, s.bodies[k].created)])
    case Announce(k) =>
      var e := Report(s, k);
      var was := WasOnline(s.bodies[k].before);
      var s1 := Finish(s, k, true, Handled);
      if was != OnlineOf(e) then s1.(bus := Bus.AfterPublish(s1.bus, ChangeEvent(e, was, s.bus.now))) else s1
    case Fail(k) => Finish(s, k, false, Failed(s.bodies[k].Updating? && s.bodies[k].created))
  }

  // ----- the abstraction: per device, the outcomes of its reports in publish order -----

  function EntryOf(event: DomainEvent, outcome: Outcome): Entry {
    Entry(outcome, BaseOf(event), OnlineOf(event), event.timestamp)
  }

  /** The finished reports of a device among the first `n` links of the bus. */
  function Log(links: seq<Bus.Link>, outcomes: map<nat, Outcome>, id: string, n: nat): seq<Entry>
    requires n <= |links|
  {
    if n == 0 then []
    else
      Log(links, outcomes, id, n - 1)
      + (if n - 1 in outcomes && links[n - 1].event.deviceId == Some(id)
         then [EntryOf(links[n - 1].event, outcomes[n - 1])] else [])
  }

  function LogOf(s: State, id: string): seq<Entry> {
    Log(s.bus.links, s.outcomes, id, |s.bus.links|)
  }

  /** The lifecycle events of a device, in the order they were published. */
  function Emissions(history: seq<Bus.Publication>, id: string): seq<Emission> {
    if history == [] then []
    else
      var e := history[|history| - 1].event;
      Emissions(history[..|history| - 1], id)
      + (if e.deviceId == Some(id) && IsLifecycle(e)
         then [if e.eventType == DEVICE_REGISTERED then WasRegistered else Change(e.eventType == DEVICE_ONLINE)]
         else [])
  }

  // ----- the invariant -----

  /** Subscription objects are told apart by their ids, and the registry's one never changes. */
  predicate Distinct(subscriptions: seq<Bus.Subscription>) {
    && (forall i, j | 0 <= i < j < |subscriptions| :: subscriptions[i].id != subscriptions[j].id)
    && (forall i | 0 <= i < |subscriptions| :: subscriptions[i].id == PRESENCE_ID ==> subscriptions[i] == PresenceSubscription)
  }

  ghost predicate SubscriptionsOk(bus: Bus.State) {
    && bus.nextId >= 1
    && Distinct(bus.subscriptions)
    && (forall i | 0 <= i < |bus.subscriptions| :: bus.subscriptions[i].id < bus.nextId)
    && TargetsAllDistinct(bus.links)
  }

  ghost predicate TargetsAllDistinct(links: seq<Bus.Link>) {
    forall k | 0 <= k < |links| :: Distinct(links[k].targets)
  }

  /**
   * Bodies and outcomes beside the bus: an open attempt has a running body, a body runs at most on after
   * the bus gave up, and whatever the bus has delivered or given up either still runs or has its outcome.
   */
  predicate Tracked(s: State, k: nat)
    requires k < |s.bus.links|
  {
    TrackedAt(s.bus.links[k], k in s.bodies, if k in s.outcomes then Some(s.outcomes[k]) else None)
  }

  predicate TrackedAt(link: Bus.Link, running: bool, outcome: Option<Outcome>) {
    && (running ==> HasHandler(link) && (HandlerState(link).Attempting? || HandlerState(link).GaveUp?) && outcome.None?)
    && (HasHandler(link) && HandlerState(link).Attempting? ==> running)
    && (HasHandler(link) && HandlerState(link).Done() ==> running || outcome.Some?)
    && (outcome.Some? ==> HasHandler(link) && HandlerState(link).Done() && Agrees(HandlerState(link), outcome.value))
  }

  /** What the bus made of a handler that ended so: only a resolved one is delivered, a rejected one never. */
  predicate Agrees(t: Bus.TargetState, o: Outcome) {
    (t.Delivered? ==> o.Handled? || o.Ignored?) && (o.Failed? ==> t.GaveUp?)
  }

  /** The handler has not been called for this link. */
  predicate Untried(link: Bus.Link) {
    HasHandler(link) ==> HandlerState(link).Idle?
  }

  /** While a body runs, no later report of its device has been started. */
  ghost predicate Ahead(s: State) {
    forall k, j | k in s.bodies && k < j < |s.bus.links| && SameDevice(s.bus.links, k, j) :: Untried(s.bus.links[j])
  }

  predicate SameDevice(links: seq<Bus.Link>, k: nat, j: nat)
    requires k < |links| && j < |links|
  {
    links[k].event.deviceId.Some? && links[k].event.deviceId == links[j].event.deviceId
  }

  /** What a body at `body` has done so far to a device whose finished reports amount to `r`. */
  predicate InSync(r: Replayed, row: Option<Row>, emitted: seq<Emission>, body: Body, event: DomainEvent) {
    match body
    case Entered => row == r.row && emitted == r.emitted
    case Looked(before) => row == r.row == before && emitted == r.emitted
    case Creating(before) => row == r.row == before == None && emitted == r.emitted
    case Updating(before, created) =>
      && before == r.row && created == before.None?
      && row == Some(if created then NewRow(BaseOf(event)) else before.value)
      && emitted == r.emitted + (if created then [WasRegistered] else [])
    case Announcing(before, created) =>
      && before == r.row && created == before.None?
      && row == Some((if created then NewRow(BaseOf(event)) else before.value).(
           online := OnlineOf(event), lastSeenAt := Some(event.timestamp)))
      && emitted == r.emitted + (if created then [WasRegistered] else [])
  }

  ghost predicate BodyInSync(s: State, k: nat, id: string)
    requires k in s.bodies && k < |s.bus.links|
  {
    InSync(Replay(LogOf(s, id)), Get(s.rows, id), Emissions(s.bus.history, id), s.bodies[k], Report(s, k))
  }

  predicate Busy(s: State, id: string) {
    exists k | k in s.bodies :: k < |s.bus.links| && Report(s, k).deviceId == Some(id)
  }

  ghost predicate DeviceInSync(s: State, id: string) {
    && (forall k | k in s.bodies && k < |s.bus.links| && Report(s, k).deviceId == Some(id) :: BodyInSync(s, k, id))
    && (!Busy(s, id) ==>
          Get(s.rows, id) == Replay(LogOf(s, id)).row && Emissions(s.bus.history, id) == Replay(LogOf(s, id)).emitted)
  }

  ghost predicate Structure(s: State) {
    && Bus.Inv(s.bus)
    && SubscriptionsOk(s.bus)
    && (forall k | k in s.bodies || k in s.outcomes :: k < |s.bus.links|)
    && (forall k | 0 <= k < |s.bus.links| :: Tracked(s, k))
    && Ahead(s)
  }

  /** The step does not start a report of a device whose earlier body still runs. */
  predicate StartsAlone(s: State, a: Action)
    requires Enabled(s, a)
  {
    a.BusStep? && a.a.Start? && HasHandler(s.bus.links[a.a.link]) && Report(s, a.a.link).deviceId.Some? ==>
      !Busy(s, Report(s, a.a.link).deviceId.value)
  }

  ghost predicate Inv(s: State) {
    Structure(s) && forall id :: DeviceInSync(s, id)
  }

  // ----- lists of reports and emissions -----

  lemma {:induction false} LogStable(links: seq<Bus.Link>, links': seq<Bus.Link>, outcomes: map<nat, Outcome>, id: string, n: nat)
    requires n <= |links| && n <= |links'|
    requires forall k | 0 <= k < n :: links'[k].event == links[k].event
    ensures Log(links', outcomes, id, n) == Log(links, outcomes, id, n)
  {
    if n > 0 {
      LogStable(links, links', outcomes, id, n - 1);
    }
  }

  /** Finishing the latest started report of a device appends it to that device's log. */
  lemma {:induction false} LogExtends(links: seq<Bus.Link>, outcomes: map<nat, Outcome>, k: nat, o: Outcome, id: string, n: nat)
    requires k < n <= |links| && k !in outcomes && links[k].event.deviceId == Some(id)
    requires forall j | k < j < n && links[j].event.deviceId == Some(id) :: j !in outcomes
    ensures Log(links, outcomes[k := o], id, n) == Log(links, outcomes, id, n) + [EntryOf(links[k].event, o)]
    decreases n
  {
    if n - 1 == k {
      LogSkips(links, outcomes, k, o, id, k);
    } else {
      LogExtends(links, outcomes, k, o, id, n - 1);
    }
  }

  /** An outcome outside the first `n` links, or of another device, does not show. */
  lemma {:induction false} LogSkips(links: seq<Bus.Link>, outcomes: map<nat, Outcome>, k: nat, o: Outcome, id: string, n: nat)
    requires n <= |links|
    requires k < n ==> links[k].event.deviceId != Some(id)
    ensures Log(links, outcomes[k := o], id, n) == Log(links, outcomes, id, n)
  {
    if n > 0 {
      LogSkips(links, outcomes, k, o, id, n - 1);
    }
  }

  lemma EmissionsExtend(history: seq<Bus.Publication>, p: Bus.Publication, id: string)
    ensures Emissions(history + [p], id) == Emissions(history, id)
      + (if p.event.deviceId == Some(id) && IsLifecycle(p.event)
         then [if p.event.eventType == DEVICE_REGISTERED then WasRegistered else Change(p.event.eventType == DEVICE_ONLINE)]
         else [])
  {
    assert (history + [p])[..|history|] == history;
  }

  lemma PublishHistory(bus: Bus.State, event: DomainEvent)
    ensures Bus.AfterPublish(bus, event).history == bus.history + [Bus.Publication(event, bus.subscriptions)]
  {
  }

  /** What one publication adds to the emissions of a device. */
  function EmissionOf(event: DomainEvent, id: string): seq<Emission> {
    if event.deviceId == Some(id) && IsLifecycle(event)
    then [if event.eventType == DEVICE_REGISTERED then WasRegistered else Change(event.eventType == DEVICE_ONLINE)]
    else []
  }

  lemma PublishEmits(bus: Bus.State, event: DomainEvent, id: string)
    ensures Emissions(Bus.AfterPublish(bus, event).history, id) == Emissions(bus.history, id) + EmissionOf(event, id)
  {
    PublishHistory(bus, event);
    EmissionsExtend(bus.history, Bus.Publication(event, bus.subscriptions), id);
  }

  // ----- subscriptions -----

  lemma {:induction false} TargetsAreSubscriptions(subscriptions: seq<Bus.Subscription>, event: DomainEvent)
    ensures forall t | t in Bus.TargetsOf(subscriptions, event) :: t in subscriptions
  {
    if subscriptions != [] {
      TargetsAreSubscriptions(subscriptions[1..], event);
    }
  }

  lemma DistinctTail(subscriptions: seq<Bus.Subscription>)
    requires Distinct(subscriptions) && subscriptions != []
    ensures Distinct(subscriptions[1..])
    ensures forall t | t in subscriptions[1..] :: t.id != subscriptions[0].id
  {
  }

  lemma DistinctCons(first: Bus.Subscription, rest: seq<Bus.Subscription>)
    requires Distinct(rest) && (forall t | t in rest :: t.id != first.id)
    requires first.id == PRESENCE_ID ==> first == PresenceSubscription
    ensures Distinct([first] + rest)
  {
    var all := [first] + rest;
    forall i, j | 0 <= i < j < |all| ensures all[i].id != all[j].id {
      assert all[j] == rest[j - 1] && rest[j - 1] in rest;
    }
  }

  lemma {:induction false} TargetsDistinct(subscriptions: seq<Bus.Subscription>, event: DomainEvent)
    requires Distinct(subscriptions)
    ensures Distinct(Bus.TargetsOf(subscriptions, event))
  {
    if subscriptions != [] {
      DistinctTail(subscriptions);
      TargetsDistinct(subscriptions[1..], event);
      TargetsAreSubscriptions(subscriptions[1..], event);
      DistinctCons(subscriptions[0], Bus.TargetsOf(subscriptions[1..], event));
    }
  }

  lemma {:induction false} RemoveDistinct(subscriptions: seq<Bus.Subscription>, id: nat)
    requires Distinct(subscriptions)
    ensures Distinct(Bus.Remove(subscriptions, id))
    ensures forall t | t in Bus.Remove(subscriptions, id) :: t in subscriptions
  {
    if subscriptions != [] {
      DistinctTail(subscriptions);
      if subscriptions[0].id != id {
        RemoveDistinct(subscriptions[1..], id);
        DistinctCons(subscriptions[0], Bus.Remove(subscriptions[1..], id));
      }
    }
  }

  lemma DistinctSnoc(subscriptions: seq<Bus.Subscription>, nextId: nat, last: Bus.Subscription)
    requires Distinct(subscriptions) && nextId >= 1 && last.id == nextId
    requires forall i | 0 <= i < |subscriptions| :: subscriptions[i].id < nextId
    ensures Distinct(subscriptions + [last])
  {
  }

  lemma SubscriptionsStayOk(bus: Bus.State, a: Bus.Action)
    requires SubscriptionsOk(bus) && Bus.Enabled(bus, a)
    ensures SubscriptionsOk(Bus.Apply(bus, a))
  {
    if a.Publish? {
      PublishStaysOk(bus, a.event);
    } else if a.Subscribe? {
      DistinctSnoc(bus.subscriptions, bus.nextId,
                   Bus.Subscription(bus.nextId, a.pattern, a.retries, a.backoffMs, a.timeoutMs));
    } else if a.Unsubscribe? {
      RemovalStaysOk(bus, a.id);
    } else {
      DeliveryLeavesSubscriptions(bus, a);
      LinksKeepEvents(bus, a);
      var links, links' := bus.links, Bus.Apply(bus, a).links;
      forall k | 0 <= k < |links'| ensures Distinct(links'[k].targets) {
        assert Distinct(links[k].targets);
      }
    }
  }

  lemma DeliveryLeavesSubscriptions(bus: Bus.State, a: Bus.Action)
    requires Bus.Enabled(bus, a) && !a.Publish? && !a.Subscribe? && !a.Unsubscribe?
    ensures var bus' := Bus.Apply(bus, a);
      bus'.subscriptions == bus.subscriptions && bus'.nextId == bus.nextId && |bus'.links| == |bus.links|
  {
  }

  lemma RemovalStaysOk(bus: Bus.State, id: nat)
    requires SubscriptionsOk(bus)
    ensures SubscriptionsOk(Bus.Apply(bus, Bus.Unsubscribe(id)))
  {
    RemoveDistinct(bus.subscriptions, id);
    var left := Bus.Remove(bus.subscriptions, id);
    forall i | 0 <= i < |left| ensures left[i].id < bus.nextId {
      assert left[i] in left;
      assert left[i] in bus.subscriptions;
    }
  }

  lemma PublishStaysOk(bus: Bus.State, event: DomainEvent)
    requires SubscriptionsOk(bus)
    ensures SubscriptionsOk(Bus.AfterPublish(bus, event))
  {
    TargetsDistinct(bus.subscriptions, event);
    var bus' := Bus.AfterPublish(bus, event);
    if |bus'.links| > |bus.links| {
      AppendDistinct(bus.links, bus'.links[|bus.links|]);
      assert bus'.links == bus.links + [bus'.links[|bus.links|]];
    }
  }

  lemma AppendDistinct(links: seq<Bus.Link>, link: Bus.Link)
    requires TargetsAllDistinct(links) && Distinct(link.targets)
    ensures TargetsAllDistinct(links + [link])
  {
  }

  /** No step of the bus changes what a link delivers, or to whom. */
  lemma LinksKeepEvents(bus: Bus.State, a: Bus.Action)
    requires Bus.Enabled(bus, a)
    ensures var bus' := Bus.Apply(bus, a);
      && |bus.links| <= |bus'.links|
      && forall k | 0 <= k < |bus.links| ::
           bus'.links[k].event == bus.links[k].event && bus'.links[k].targets == bus.links[k].targets
  {
    LinksOnlyGrow(bus, a);
    forall k | 0 <= k < |bus.links|
      ensures Bus.Apply(bus, a).links[k].event == bus.links[k].event && Bus.Apply(bus, a).links[k].targets == bus.links[k].targets
    {
      LinkKeepsEvent(bus, a, k);
    }
  }

  lemma LinksOnlyGrow(bus: Bus.State, a: Bus.Action)
    requires Bus.Enabled(bus, a)
    ensures |bus.links| <= |Bus.Apply(bus, a).links|
  {
  }

  lemma LinkKeepsEvent(bus: Bus.State, a: Bus.Action, k: nat)
    requires Bus.Enabled(bus, a) && k < |bus.links| <= |Bus.Apply(bus, a).links|
    ensures Bus.Apply(bus, a).links[k].event == bus.links[k].event
    ensures Bus.Apply(bus, a).links[k].targets == bus.links[k].targets
  {
  }

  // ----- handlers and the bus -----

  lemma SameDeviceSameLane(s: State, i: nat, j: nat)
    requires Bus.Inv(s.bus) && i < |s.bus.links| && j < |s.bus.links|
    requires Report(s, i).deviceId == Report(s, j).deviceId
    ensures Bus.SameLane(s.bus.links, i, j)
  {
    assert s.bus.links[i].Coherent() && s.bus.links[j].Coherent();
  }

  /** An open handler belongs to a running link, and its one attempt is the last one. */
  lemma OpenIsRunning(s: State, k: nat)
    requires Structure(s) && Open(s.bus, k)
    ensures s.bus.links[k].phase.Running? && HandlerState(s.bus.links[k]).attempt == 0 && k in s.bodies
    ensures s.bus.links[k].targets[HandlerIndex(s.bus.links[k].targets)] == PresenceSubscription
  {
    assert Tracked(s, k);
    var i := HandlerIndex(s.bus.links[k].targets);
    Bus.BusyIsRunning(s.bus, k, i);
    assert s.bus.links[k].Coherent() && Distinct(s.bus.links[k].targets);
    assert Bus.InRange(s.bus.links[k].targets[i], s.bus.links[k].progress[i]);
  }

  /** While a device's handler runs, none of its later reports has been touched. */
  lemma LaterIsUntouched(s: State, k: nat, j: nat)
    requires Structure(s) && k in s.bodies && k < j < |s.bus.links| && SameDevice(s.bus.links, k, j)
    ensures j !in s.bodies && j !in s.outcomes
  {
    assert Untried(s.bus.links[j]) && Tracked(s, j);
  }

  /** A device has at most one running handler body. */
  lemma OneBodyPerDevice(s: State, k: nat, j: nat)
    requires Structure(s) && k in s.bodies && j in s.bodies
    requires k < |s.bus.links| && j < |s.bus.links| && SameDevice(s.bus.links, k, j)
    ensures j == k
  {
    if k < j {
      LaterIsUntouched(s, k, j);
    } else if j < k {
      LaterIsUntouched(s, j, k);
    }
  }

  /** A handler not called yet stays so until its link starts. */
  lemma UntriedStays(bus: Bus.State, b: Bus.Action, j: nat)
    requires Bus.Inv(bus) && Bus.Enabled(bus, b) && j < |bus.links| && Untried(bus.links[j]) && b != Bus.Start(j)
    ensures j < |Bus.Apply(bus, b).links| && Untried(Bus.Apply(bus, b).links[j])
  {
    assert bus.links[j].Coherent();
    Bus.StepKeepsInv(bus, b);
    LinksKeepEvents(bus, b);
    assert Bus.Apply(bus, b).links[j].Coherent();
    if HasHandler(bus.links[j]) {
      Bus.ProgressStays(bus, b, j, HandlerIndex(bus.links[j].targets));
    }
  }

  /** When a link starts, no later report of its device has been started. */
  lemma StartingIsFirst(s: State, k: nat, j: nat)
    requires Structure(s) && Bus.Enabled(s.bus, Bus.Start(k)) && k < j < |s.bus.links| && SameDevice(s.bus.links, k, j)
    ensures Untried(s.bus.links[j])
  {
    SameDeviceSameLane(s, k, j);
    assert s.bus.links[k].Coherent() && s.bus.links[j].Coherent();
  }

  /** A step of the bus that starts no report keeps later reports unstarted, whatever bodies end. */
  lemma QuietKeepsAhead(s: State, s': State, b: Bus.Action)
    requires Structure(s) && Bus.Enabled(s.bus, b) && !b.Start?
    requires s'.bus == Bus.Apply(s.bus, b) && s'.bodies.Keys <= s.bodies.Keys
    ensures Ahead(s')
  {
    LinksKeepEvents(s.bus, b);
    forall k, j | k in s'.bodies && k < j < |s'.bus.links| && SameDevice(s'.bus.links, k, j) ensures Untried(s'.bus.links[j]) {
      if j < |s.bus.links| {
        assert k in s.bodies && SameDevice(s.bus.links, k, j);
        UntriedStays(s.bus, b, j);
      } else {
        NewLinkIsIdle(s.bus, b, j);
      }
    }
  }

  lemma StartKeepsAhead(s: State, b: Bus.Action)
    requires Structure(s) && Foreign(s, b) && b.Start? && StartsAlone(s, BusStep(b))
    ensures Ahead(Apply(s, BusStep(b)))
  {
    var s' := Apply(s, BusStep(b));
    LinksKeepEvents(s.bus, b);
    forall k, j | k in s'.bodies && k < j < |s'.bus.links| && SameDevice(s'.bus.links, k, j) ensures Untried(s'.bus.links[j]) {
      assert SameDevice(s.bus.links, k, j);
      if j == b.link {
        StartingIsAlone(s, k, j);
      } else {
        if k == b.link {
          StartingIsFirst(s, k, j);
        } else {
          assert k in s.bodies;
        }
        UntriedStays(s.bus, b, j);
      }
    }
  }

  /** A report that may start alone has no earlier body of its device running, or no handler to call. */
  lemma StartingIsAlone(s: State, k: nat, j: nat)
    requires Structure(s) && Bus.Enabled(s.bus, Bus.Start(j)) && Foreign(s, Bus.Start(j))
    requires StartsAlone(s, BusStep(Bus.Start(j)))
    requires k < |s.bus.links| && SameDevice(s.bus.links, k, j) && k in Apply(s, BusStep(Bus.Start(j))).bodies && k != j
    ensures Untried(Apply(s, BusStep(Bus.Start(j))).bus.links[j])
  {
    assert s.bus.links[j].Coherent();
    assert k in s.bodies && Report(s, k).deviceId == Some(Report(s, j).deviceId.value);
    assert Busy(s, Report(s, j).deviceId.value);
  }

  /** Where no body runs past its attempt, every report starts alone. */
  lemma PunctualStartsAlone(s: State, a: Action)
    requires Structure(s) && Punctual(s) && Enabled(s, a)
    ensures StartsAlone(s, a)
  {
    if a.BusStep? && a.a.Start? && Report(s, a.a.link).deviceId.Some? {
      var id, k := Report(s, a.a.link).deviceId.value, a.a.link;
      forall j | j in s.bodies && j < |s.bus.links| ensures Report(s, j).deviceId != Some(id) {
        if Report(s, j).deviceId == Some(id) {
          OpenIsRunning(s, j);
          SameDeviceSameLane(s, j, k);
          SameDeviceSameLane(s, k, j);
          if j < k {
            Bus.ReadyMeansFirst(s.bus.links, k, j);
          }
        }
      }
    }
  }

  /** Every running body's attempt is open, and the bus gave up exactly the bodies that failed. */
  ghost predicate Punctual(s: State) {
    && (forall k | k in s.bodies :: Open(s.bus, k))
    && (forall k | k in s.outcomes :: k < |s.bus.links| && HasHandler(s.bus.links[k]) && Matched(HandlerState(s.bus.links[k]), s.outcomes[k]))
  }

  predicate Matched(t: Bus.TargetState, o: Outcome) {
    t.Done() && (t.GaveUp? <==> o.Failed?)
  }

  /** Steps that do not concern the registry's target leave it where it was, except that links start and time out. */
  lemma HandlerStays(s: State, b: Bus.Action, k: nat)
    requires Bus.Inv(s.bus) && Foreign(s, b) && k < |s.bus.links| && HasHandler(s.bus.links[k]) && b != Bus.Start(k)
    requires b != Bus.TimerFires(k, HandlerIndex(s.bus.links[k].targets))
    ensures k < |Bus.Apply(s.bus, b).links|
    ensures var link' := Bus.Apply(s.bus, b).links[k];
      HasHandler(link') && HandlerState(link') == HandlerState(s.bus.links[k])
  {
    Bus.ProgressStays(s.bus, b, k, HandlerIndex(s.bus.links[k].targets));
  }

  /** A time-out of the handler makes the bus give up: there is no retry. */
  lemma HandlerTimesOut(s: State, k: nat)
    requires Structure(s) && k < |s.bus.links| && HasHandler(s.bus.links[k])
    requires Bus.Enabled(s.bus, Bus.TimerFires(k, HandlerIndex(s.bus.links[k].targets)))
    ensures Open(s.bus, k) && k in s.bodies
    ensures k < |Bus.Apply(s.bus, Bus.TimerFires(k, HandlerIndex(s.bus.links[k].targets))).links|
    ensures var link' := Bus.Apply(s.bus, Bus.TimerFires(k, HandlerIndex(s.bus.links[k].targets))).links[k];
      HasHandler(link') && HandlerState(link').GaveUp?
  {
    OpenIsRunning(s, k);
  }

  lemma StartTries(bus: Bus.State, k: nat)
    requires Bus.Inv(bus) && Bus.Enabled(bus, Bus.Start(k))
    ensures HasHandler(bus.links[k]) <==> HasHandler(Bus.Apply(bus, Bus.Start(k)).links[k])
    ensures HasHandler(bus.links[k]) ==> HandlerState(bus.links[k]).Idle? && Open(Bus.Apply(bus, Bus.Start(k)), k)
  {
    assert bus.links[k].Coherent();
  }

  lemma AfterBusStep(s: State, b: Bus.Action)
    requires Foreign(s, b)
    ensures var s' := Apply(s, BusStep(b));
      && s'.bus == Bus.Apply(s.bus, b) && s'.rows == s.rows && s'.outcomes == s.outcomes
      && s'.bodies == if b.Start? && HasHandler(s.bus.links[b.link]) then s.bodies[b.link := Entered] else s.bodies
  {
  }

  lemma TrackedAfterBusStep(s: State, b: Bus.Action, k: nat)
    requires Structure(s) && Foreign(s, b) && k < |Bus.Apply(s.bus, b).links|
    ensures k < |Apply(s, BusStep(b)).bus.links| && Tracked(Apply(s, BusStep(b)), k)
  {
    AfterBusStep(s, b);
    if k >= |s.bus.links| {
      NewLinkIsIdle(s.bus, b, k);
    } else {
      assert Tracked(s, k);
      LinkAfterBusStep(s, b, k);
    }
  }

  /** What a step of the bus does to one link, as far as its handler goes. */
  lemma LinkAfterBusStep(s: State, b: Bus.Action, k: nat)
    requires Structure(s) && Foreign(s, b) && k < |s.bus.links|
    ensures k < |Bus.Apply(s.bus, b).links|
    ensures var link, link' := s.bus.links[k], Bus.Apply(s.bus, b).links[k];
      && (HasHandler(link') <==> HasHandler(link))
      && (HasHandler(link) ==>
            || (HandlerState(link') == HandlerState(link) && b != Bus.Start(k))
            || (b == Bus.Start(k) && HandlerState(link).Idle? && HandlerState(link').Attempting?)
            || (b != Bus.Start(k) && HandlerState(link).Attempting? && HandlerState(link').GaveUp?))
  {
    if b == Bus.Start(k) {
      StartTries(s.bus, k);
    } else if HasHandler(s.bus.links[k]) {
      if b == Bus.TimerFires(k, HandlerIndex(s.bus.links[k].targets)) {
        HandlerTimesOut(s, k);
      } else {
        HandlerStays(s, b, k);
      }
    } else {
      NoHandlerStays(s.bus, b, k);
    }
  }

  lemma NoHandlerStays(bus: Bus.State, b: Bus.Action, k: nat)
    requires Bus.Inv(bus) && Bus.Enabled(bus, b) && k < |bus.links| && !HasHandler(bus.links[k])
    ensures k < |Bus.Apply(bus, b).links| && !HasHandler(Bus.Apply(bus, b).links[k])
  {
    assert bus.links[k].Coherent();
    LinksKeepEvents(bus, b);
  }

  lemma NewLinkIsIdle(bus: Bus.State, b: Bus.Action, k: nat)
    requires Bus.Enabled(bus, b) && |bus.links| <= k < |Bus.Apply(bus, b).links|
    ensures b.Publish? && k == |bus.links|
    ensures HasHandler(Bus.Apply(bus, b).links[k]) ==> HandlerState(Bus.Apply(bus, b).links[k]).Idle?
  {
  }

  // ----- keeping the devices in sync -----

  /** What is known of a device when nothing of it changed between two states. */
  ghost predicate Untouched(s: State, s': State, id: string) {
    && LogOf(s', id) == LogOf(s, id)
    && Emissions(s'.bus.history, id) == Emissions(s.bus.history, id)
    && Get(s'.rows, id) == Get(s.rows, id)
    && |s.bus.links| <= |s'.bus.links|
    && (forall k | 0 <= k < |s.bus.links| :: s'.bus.links[k].event == s.bus.links[k].event)
  }

  lemma UntouchedStaysInSync(s: State, s': State, id: string)
    requires DeviceInSync(s, id) && Untouched(s, s', id)
    requires forall k | k in s.bodies || k in s'.bodies :: k < |s.bus.links|
    requires forall k | 0 <= k < |s.bus.links| && Report(s, k).deviceId == Some(id) ::
      (k in s.bodies <==> k in s'.bodies) && (k in s.bodies ==> s'.bodies[k] == s.bodies[k])
    ensures DeviceInSync(s', id)
  {
    forall k | k in s'.bodies && k < |s'.bus.links| && Report(s', k).deviceId == Some(id) ensures BodyInSync(s', k, id) {
      assert Report(s, k) == Report(s', k);
      assert BodyInSync(s, k, id);
    }
    BusyTransfers(s, s', id);
  }

  lemma BusyTransfers(s: State, s': State, id: string)
    requires forall k | k in s.bodies && k < |s.bus.links| && Report(s, k).deviceId == Some(id) ::
      k in s'.bodies && k < |s'.bus.links| && Report(s', k).deviceId == Some(id)
    ensures Busy(s, id) ==> Busy(s', id)
  {
    if Busy(s, id) {
      var k :| k in s.bodies && k < |s.bus.links| && Report(s, k).deviceId == Some(id);
      assert k in s'.bodies && Report(s', k).deviceId == Some(id);
    }
  }

  lemma BusStepLeavesLog(bus: Bus.State, b: Bus.Action, outcomes: map<nat, Outcome>, id: string)
    requires Bus.Enabled(bus, b) && forall k | k in outcomes :: k < |bus.links|
    ensures var links' := Bus.Apply(bus, b).links;
      Log(links', outcomes, id, |links'|) == Log(bus.links, outcomes, id, |bus.links|)
  {
    var links' := Bus.Apply(bus, b).links;
    LinksKeepEvents(bus, b);
    LogStable(bus.links, links', outcomes, id, |bus.links|);
    if |links'| > |bus.links| {
      NewLinkIsIdle(bus, b, |links'| - 1);
    }
  }

  lemma BusStepEmitsNothing(bus: Bus.State, b: Bus.Action, id: string)
    requires Bus.Enabled(bus, b) && (b.Publish? ==> !IsLifecycle(b.event))
    ensures Emissions(Bus.Apply(bus, b).history, id) == Emissions(bus.history, id)
  {
    if b.Publish? {
      PublishEmits(bus, b.event, id);
    } else {
      HistoryStays(bus, b);
    }
  }

  lemma HistoryStays(bus: Bus.State, b: Bus.Action)
    requires Bus.Enabled(bus, b) && !b.Publish?
    ensures Bus.Apply(bus, b).history == bus.history
  {
  }

  lemma BusStepLeavesDevice(s: State, b: Bus.Action, id: string)
    requires Structure(s) && Foreign(s, b)
    ensures Untouched(s, Apply(s, BusStep(b)), id)
  {
    LinksKeepEvents(s.bus, b);
    BusStepLeavesLog(s.bus, b, s.outcomes, id);
    BusStepEmitsNothing(s.bus, b, id);
  }

  lemma BusStepKeepsSync(s: State, b: Bus.Action, id: string)
    requires Inv(s) && Foreign(s, b) && StartsAlone(s, BusStep(b))
    ensures DeviceInSync(Apply(s, BusStep(b)), id)
  {
    var s' := Apply(s, BusStep(b));
    BusStepLeavesDevice(s, b, id);
    assert DeviceInSync(s, id);
    if b.Start? && HasHandler(s.bus.links[b.link]) && Report(s, b.link).deviceId == Some(id) {
      EnteringIsInSync(s, b, id);
    } else {
      UntouchedStaysInSync(s, s', id);
    }
  }

  lemma EnteringIsInSync(s: State, b: Bus.Action, id: string)
    requires Inv(s) && Foreign(s, b) && StartsAlone(s, BusStep(b)) && b.Start? && HasHandler(s.bus.links[b.link])
    requires Report(s, b.link).deviceId == Some(id)
    ensures DeviceInSync(Apply(s, BusStep(b)), id)
  {
    var s' := Apply(s, BusStep(b));
    BusStepLeavesDevice(s, b, id);
    assert DeviceInSync(s, id) && !Busy(s, id);
    forall k | k in s'.bodies && k < |s'.bus.links| && Report(s', k).deviceId == Some(id) ensures BodyInSync(s', k, id) {
      assert k in s.bodies || k == b.link;
    }
    assert b.link in s'.bodies && Report(s', b.link).deviceId == Some(id);
  }

  lemma BusStepKeepsInv(s: State, b: Bus.Action)
    requires Inv(s) && Foreign(s, b) && StartsAlone(s, BusStep(b))
    ensures Inv(Apply(s, BusStep(b)))
  {
    var s' := Apply(s, BusStep(b));
    Bus.StepKeepsInv(s.bus, b);
    SubscriptionsStayOk(s.bus, b);
    LinksKeepEvents(s.bus, b);
    forall k | 0 <= k < |s'.bus.links| ensures Tracked(s', k) {
      TrackedAfterBusStep(s, b, k);
    }
    if b.Start? {
      StartKeepsAhead(s, b);
    } else {
      QuietKeepsAhead(s, s', b);
    }
    forall id ensures DeviceInSync(s', id) {
      BusStepKeepsSync(s, b, id);
    }
  }
}
