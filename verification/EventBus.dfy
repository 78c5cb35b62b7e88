/**
 * The in-process event bus as a state machine. A published event with targets becomes a link of a
 * promise chain; every reaction of the runtime (a link starts, a handler settles, a timer fires, a
 * back-off ends, a link settles, its clean-up runs) is a step of its own, in any order.
 */
module EventBus {
  import opened DomainEvents
  import opened EventPattern

  const GLOBAL_LANE := "_global"

  /** `id` stands for the identity of the subscription object. */
  datatype Subscription = Subscription(id: nat, pattern: string, retries: nat, backoffMs: nat, timeoutMs: nat)

  /** Where one target of a link stands. `attempt` counts from 0. */
  datatype TargetState =
    | Idle
    | Attempting(attempt: nat, deadline: nat)
    | BackingOff(attempt: nat, due: nat)
    | Delivered
    | GaveUp
  {
    predicate Done() { Delivered? || GaveUp? }
  }

  datatype Phase = Waiting | Running(startedAt: nat) | Settled(settledAt: nat)

  /** The promise that delivers one event to its targets, chained to the promise it found in its lane. */
  datatype Link = Link(
    event: DomainEvent, lane: string, targets: seq<Subscription>, previous: Option<nat>, publishedAt: nat,
    phase: Phase, progress: seq<TargetState>, cleaned: bool)
  {
    predicate AllDone() {
      forall i | 0 <= i < |progress| :: progress[i].Done()
    }

    /** Progress and phase agree. */
    predicate Coherent() {
      && |progress| == |targets| >= 1
      && lane == LaneOf(event)
      && (phase.Waiting? ==> forall i | 0 <= i < |progress| :: progress[i].Idle?)
      && (phase.Running? ==> forall i | 0 <= i < |progress| :: !progress[i].Idle?)
      && (phase.Settled? ==> AllDone())
      && (cleaned ==> phase.Settled?)
      && forall i | 0 <= i < |progress| :: InRange(targets[i], progress[i])
    }
  }

  /** The attempt number never exceeds what the subscription allows; the last one is not backed off. */
  predicate InRange(sub: Subscription, t: TargetState) {
    && (t.Attempting? ==> t.attempt <= sub.retries)
    && (t.BackingOff? ==> t.attempt < sub.retries)
  }

  datatype Counters = Counters(published: nat, delivered: nat, failed: nat, timedOut: nat)

  /** One call of `publish`: the event and the subscriptions registered at that moment. */
  datatype Publication = Publication(event: DomainEvent, subscriptions: seq<Subscription>)

  datatype State = State(
    now: nat, nextId: nat, subscriptions: seq<Subscription>, lanes: map<string, nat>, inFlight: set<nat>,
    counters: Counters, links: seq<Link>, history: seq<Publication>)

  const Initial := State(0, 0, [], map[], {}, Counters(0, 0, 0, 0), [], [])

  function LaneOf(event: DomainEvent): string {
    if event.deviceId.Some? then event.deviceId.value else GLOBAL_LANE
  }

  /** The subscriptions whose pattern matches the event's type, in the order they were made. */
  function TargetsOf(subscriptions: seq<Subscription>, event: DomainEvent): seq<Subscription> {
    if subscriptions == [] then []
    else
      (if Matches(subscriptions[0].pattern, event.eventType) then [subscriptions[0]] else [])
      + TargetsOf(subscriptions[1..], event)
  }

  /** The wait after a failed attempt: it doubles with every attempt. */
  function Delay(backoffMs: nat, attempt: nat): nat {
    if attempt == 0 then backoffMs else 2 * Delay(backoffMs, attempt - 1)
  }

  // ----- steps -----

  datatype Action =
    | Publish(event: DomainEvent)
    | Subscribe(pattern: string, retries: nat, backoffMs: nat, timeoutMs: nat)
    | Unsubscribe(id: nat)
    | Start(link: nat)
    | AttemptOk(link: nat, target: nat)
    | AttemptFail(link: nat, target: nat)
    | TimerFires(link: nat, target: nat)
    | BackoffOver(link: nat, target: nat)
    | Settle(link: nat)
    | CleanUp(link: nat)
    | Advance(ms: nat)
  {
    /** A step of the delivery machinery itself, as opposed to its users and the clock. */
    predicate Internal() {
      Start? || AttemptOk? || AttemptFail? || TimerFires? || BackoffOver? || Settle? || CleanUp?
    }
  }

  predicate HasTarget(s: State, k: nat, i: nat) {
    k < |s.links| && i < |s.links[k].progress| && |s.links[k].targets| == |s.links[k].progress|
  }

  /** The link may start: it was chained to no link, or to one that has settled. */
  predicate Ready(links: seq<Link>, k: nat)
    requires k < |links|
  {
    var p := links[k].previous;
    p.None? || (p.value < |links| && links[p.value].phase.Settled?)
  }

  predicate Enabled(s: State, a: Action) {
    match a
    case Publish(_) => true
    case Subscribe(_, _, _, _) => true
    case Unsubscribe(_) => true
    case Start(k) => k < |s.links| && s.links[k].phase.Waiting? && Ready(s.links, k)
    case AttemptOk(k, i) => HasTarget(s, k, i) && s.links[k].progress[i].Attempting?
    case AttemptFail(k, i) => HasTarget(s, k, i) && s.links[k].progress[i].Attempting?
    case TimerFires(k, i) =>
      HasTarget(s, k, i) && s.links[k].progress[i].Attempting? && s.links[k].progress[i].deadline <= s.now
    case BackoffOver(k, i) =>
      HasTarget(s, k, i) && s.links[k].progress[i].BackingOff? && s.links[k].progress[i].due <= s.now
    case Settle(k) => k < |s.links| && s.links[k].phase.Running? && s.links[k].AllDone()
    case CleanUp(k) => k < |s.links| && s.links[k].phase.Settled? && !s.links[k].cleaned
    case Advance(_) => true
  }

  /** No target has been attempted yet. */
  function AllIdle(n: nat): seq<TargetState> {
    seq(n, _ => Idle)
  }

  /** A new link behind the tail of its lane. */
  function Enqueue(s: State, event: DomainEvent, targets: seq<Subscription>): State {
    var lane := LaneOf(event);
    var previous := if lane in s.lanes then Some(s.lanes[lane]) else None;
    var current := |s.links|;
    var link := Link(event, lane, targets, previous, s.now, Waiting, AllIdle(|targets|), false);
    s.(links := s.links + [link], lanes := s.lanes[lane := current], inFlight := s.inFlight + {current})
  }

  function AfterPublish(s: State, event: DomainEvent): State {
    var targets := TargetsOf(s.subscriptions, event);
    var s1 := s.(
      counters := s.counters.(published := s.counters.published + 1),
      history := s.history + [Publication(event, s.subscriptions)]);
    if targets == [] then s1 else Enqueue(s1, event, targets)
  }

  function Remove(subscriptions: seq<Subscription>, id: nat): seq<Subscription> {
    if subscriptions == [] then []
    else if subscriptions[0].id == id then subscriptions[1..]
    else [subscriptions[0]] + Remove(subscriptions[1..], id)
  }

  /** `runHandler` begins an attempt: the timer is armed. */
  function Begin(sub: Subscription, attempt: nat, now: nat): TargetState {
    Attempting(attempt, now + sub.timeoutMs)
  }

  /** The `catch` branch of `runHandler`. */
  function AfterFailure(sub: Subscription, attempt: nat, now: nat): TargetState {
    if attempt == sub.retries then GaveUp else BackingOff(attempt, now + Delay(sub.backoffMs, attempt))
  }

  function WithProgress(s: State, k: nat, i: nat, t: TargetState): State
    requires HasTarget(s, k, i)
  {
    var link := s.links[k];
    s.(links := s.links[k := link.(progress := link.progress[i := t])])
  }

  function AfterFailed(s: State, k: nat, i: nat): State
    requires HasTarget(s, k, i) && s.links[k].progress[i].Attempting?
  {
    var t := AfterFailure(s.links[k].targets[i], s.links[k].progress[i].attempt, s.now);
    var s1 := WithProgress(s, k, i, t);
    if t.GaveUp? then s1.(counters := s.counters.(failed := s.counters.failed + 1)) else s1
  }

  function AfterStart(s: State, k: nat): State
    requires k < |s.links|
  {
    var link := s.links[k];
    s.(links := s.links[k := link.(
      phase := Running(s.now),
      progress := seq(|link.targets|, i requires 0 <= i < |link.targets| => Begin(link.targets[i], 0, s.now)))])
  }

  function AfterCleanUp(s: State, k: nat): State
    requires k < |s.links|
  {
    var link := s.links[k];
    s.(links := s.links[k := link.(cleaned := true)],
       inFlight := s.inFlight - {k},
       lanes := if link.lane in s.lanes && s.lanes[link.lane] == k then s.lanes - {link.lane} else s.lanes)
  }

  function Apply(s: State, a: Action): State
    requires Enabled(s, a)
  {
    match a
    case Publish(event) => AfterPublish(s, event)
    case Subscribe(pattern, retries, backoffMs, timeoutMs) =>
      s.(subscriptions := s.subscriptions + [Subscription(s.nextId, pattern, retries, backoffMs, timeoutMs)],
         nextId := s.nextId + 1)
    case Unsubscribe(id) => s.(subscriptions := Remove(s.subscriptions, id))
    case Start(k) => AfterStart(s, k)
    case AttemptOk(k, i) =>
      WithProgress(s, k, i, Delivered).(counters := s.counters.(delivered := s.counters.delivered + 1))
    case AttemptFail(k, i) => AfterFailed(s, k, i)
    case TimerFires(k, i) =>
      AfterFailed(s.(counters := s.counters.(timedOut := s.counters.timedOut + 1)), k, i)
    case BackoffOver(k, i) =>
      WithProgress(s, k, i, Begin(s.links[k].targets[i], s.links[k].progress[i].attempt + 1, s.now))
    case Settle(k) => s.(links := s.links[k := s.links[k].(phase := Settled(s.now))])
    case CleanUp(k) => AfterCleanUp(s, k)
    case Advance(ms) => s.(now := s.now + ms)
  }

  // ----- the invariant behind the ordering -----

  ghost predicate SameLane(links: seq<Link>, i: nat, j: nat)
    requires i < |links| && j < |links|
  {
    links[i].lane == links[j].lane
  }

  /** No link of the lane of `k` was published after `k`. */
  ghost predicate LastOfLane(links: seq<Link>, k: nat)
    requires k < |links|
  {
    forall j | k < j < |links| :: !SameLane(links, k, j)
  }

  /** A link was chained to the link published just before it in its lane, or to nothing left open. */
  ghost predicate Chained(links: seq<Link>, k: nat)
    requires k < |links|
  {
    match links[k].previous
    case None => forall i | 0 <= i < k :: SameLane(links, i, k) ==> links[i].phase.Settled?
    case Some(p) => p < k && SameLane(links, p, k) && forall i | p < i < k :: !SameLane(links, i, k)
  }

  /** `lanes` holds, per lane, the last published link for as long as that link is not cleaned up. */
  ghost predicate LanesHoldLast(links: seq<Link>, lanes: map<string, nat>) {
    && (forall lane {:trigger lanes[lane]} | lane in lanes ::
          lanes[lane] < |links| && links[lanes[lane]].lane == lane
          && !links[lanes[lane]].cleaned && LastOfLane(links, lanes[lane]))
    && (forall k {:trigger LastOfLane(links, k)} | 0 <= k < |links| :: !links[k].cleaned && LastOfLane(links, k) ==> links[k].lane in lanes)
  }

  /** Per lane: no link has started before every earlier link has settled. */
  ghost predicate InOrder(links: seq<Link>) {
    forall i, j | 0 <= i < j < |links| :: SameLane(links, i, j) && !links[j].phase.Waiting? ==> links[i].phase.Settled?
  }

  ghost predicate FlightIsUncleaned(links: seq<Link>, inFlight: set<nat>) {
    forall k: nat :: k in inFlight <==> k < |links| && !links[k].cleaned
  }

  ghost predicate AllCoherent(links: seq<Link>) {
    forall k | 0 <= k < |links| :: links[k].Coherent()
  }

  ghost predicate AllChained(links: seq<Link>) {
    forall k | 0 <= k < |links| :: Chained(links, k)
  }

  ghost predicate Inv(s: State) {
    && AllCoherent(s.links)
    && AllChained(s.links)
    && LanesHoldLast(s.links, s.lanes)
    && InOrder(s.links)
    && FlightIsUncleaned(s.links, s.inFlight)
  }

  /** The last link published on a lane, if there is one. */
  lemma {:induction false} FindLast(links: seq<Link>, lane: string, n: nat) returns (last: nat)
    requires n <= |links|
    requires exists i | 0 <= i < n :: links[i].lane == lane
    ensures last < n && links[last].lane == lane
    ensures forall j | last < j < n :: links[j].lane != lane
  {
    if links[n - 1].lane == lane {
      last := n - 1;
    } else {
      last := FindLast(links, lane, n - 1);
    }
  }

  lemma LastIsUnique(links: seq<Link>, a: nat, b: nat)
    requires a < |links| && b < |links| && links[a].lane == links[b].lane
    requires LastOfLane(links, a) && LastOfLane(links, b)
    ensures a == b
  {
    assert a < b ==> !SameLane(links, a, b);
    assert b < a ==> !SameLane(links, b, a);
  }

  /** The inductive core: while any link of a lane is open, `lanes` holds that lane's last link. */
  lemma OpenLaneIsHeld(s: State, k: nat)
    requires Inv(s) && k < |s.links| && !s.links[k].phase.Settled?
    ensures s.links[k].lane in s.lanes && k <= s.lanes[s.links[k].lane]
    ensures LastOfLane(s.links, s.lanes[s.links[k].lane])
  {
    var last := FindLast(s.links, s.links[k].lane, |s.links|);
    assert LastOfLane(s.links, last);
    assert last >= k;
    assert SameLane(s.links, k, last);
    assert !s.links[last].cleaned by { assert s.links[last].Coherent(); }
    LastIsUnique(s.links, last, s.lanes[s.links[k].lane]);
  }

  lemma AppendKeepsOrder(links: seq<Link>, link: Link)
    requires AllChained(links) && InOrder(links) && link.phase.Waiting?
    requires Chained(links + [link], |links|)
    ensures AllChained(links + [link]) && InOrder(links + [link])
  {
    var links', n := links + [link], |links|;
    forall k | 0 <= k < n ensures Chained(links', k) {
      assert Chained(links, k);
      forall i | 0 <= i < k ensures SameLane(links', i, k) == SameLane(links, i, k) {}
    }
    forall i, j | 0 <= i < j <= n && SameLane(links', i, j) && !links'[j].phase.Waiting?
      ensures links'[i].phase.Settled?
    {
      assert SameLane(links, i, j);
    }
  }

  lemma PublishKeepsInv(s: State, event: DomainEvent)
    requires Inv(s)
    ensures Inv(AfterPublish(s, event))
  {
    var s' := AfterPublish(s, event);
    if TargetsOf(s.subscriptions, event) != [] {
      var link := s'.links[|s.links|];
      NewLinkIsChained(s, event);
      AppendKeepsOrder(s.links, link);
      LanesAfterPublish(s, event);
      assert link.Coherent();
    }
  }

  lemma NewLinkIsChained(s: State, event: DomainEvent)
    requires Inv(s) && TargetsOf(s.subscriptions, event) != []
    ensures Chained(AfterPublish(s, event).links, |s.links|)
  {
    var s', n, lane := AfterPublish(s, event), |s.links|, LaneOf(event);
    if lane in s.lanes {
      var p := s.lanes[lane];
      assert LastOfLane(s.links, p);
      forall i | p < i < n ensures !SameLane(s'.links, i, n) {
        assert !SameLane(s.links, p, i);
      }
    } else {
      forall i | 0 <= i < n && SameLane(s'.links, i, n) ensures s'.links[i].phase.Settled? {
        if !s.links[i].phase.Settled? {
          OpenLaneIsHeld(s, i);
        }
      }
    }
  }

  lemma LanesAfterPublish(s: State, event: DomainEvent)
    requires Inv(s) && TargetsOf(s.subscriptions, event) != []
    ensures LanesHoldLast(AfterPublish(s, event).links, AfterPublish(s, event).lanes)
  {
    var s', n, lane := AfterPublish(s, event), |s.links|, LaneOf(event);
    forall l | l in s'.lanes
      ensures s'.lanes[l] < |s'.links| && s'.links[s'.lanes[l]].lane == l
      ensures !s'.links[s'.lanes[l]].cleaned && LastOfLane(s'.links, s'.lanes[l])
    {
      if l != lane {
        var k := s.lanes[l];
        assert LastOfLane(s.links, k);
        forall j | k < j <= n ensures !SameLane(s'.links, k, j) {
          if j < n { assert !SameLane(s.links, k, j); }
        }
      }
    }
    forall k | 0 <= k <= n && !s'.links[k].cleaned && LastOfLane(s'.links, k) ensures s'.links[k].lane in s'.lanes {
      if k < n {
        forall j | k < j < n ensures !SameLane(s.links, k, j) {
          assert !SameLane(s'.links, k, j);
        }
        assert LastOfLane(s.links, k);
      }
    }
  }

  /** Replacing one link by a later stage of itself keeps everything that does not speak of clean-up. */
  lemma StageKeepsOrder(links: seq<Link>, k: nat, link: Link)
    requires k < |links| && AllChained(links) && InOrder(links)
    requires link.lane == links[k].lane && link.previous == links[k].previous
    requires links[k].phase.Settled? ==> link.phase.Settled?
    requires links[k].phase.Waiting? && !link.phase.Waiting? ==> Ready(links, k)
    ensures AllChained(links[k := link]) && InOrder(links[k := link])
  {
    var links' := links[k := link];
    forall j | 0 <= j < |links| ensures Chained(links', j) {
      assert Chained(links, j);
      forall i | 0 <= i < j ensures SameLane(links', i, j) == SameLane(links, i, j) {}
    }
    forall i, j | 0 <= i < j < |links| && SameLane(links', i, j) && !links'[j].phase.Waiting?
      ensures links'[i].phase.Settled?
    {
      assert SameLane(links, i, j);
      if j == k && links[k].phase.Waiting? {
        ReadyMeansFirst(links, k, i);
      }
    }
  }

  /** When a link may start, every earlier link of its lane has settled. */
  lemma ReadyMeansFirst(links: seq<Link>, k: nat, i: nat)
    requires AllChained(links) && InOrder(links) && i < k < |links|
    requires Ready(links, k) && SameLane(links, i, k)
    ensures links[i].phase.Settled?
  {
    assert Chained(links, k);
    if links[k].previous.Some? {
      var p := links[k].previous.value;
      assert forall m | p < m < k :: !SameLane(links, m, k);
      if i < p {
        assert SameLane(links, i, p);
      }
    }
  }

  lemma StageKeepsLanes(links: seq<Link>, lanes: map<string, nat>, k: nat, link: Link)
    requires k < |links| && LanesHoldLast(links, lanes)
    requires link.lane == links[k].lane && link.cleaned == links[k].cleaned
    ensures LanesHoldLast(links[k := link], lanes)
  {
    var links' := links[k := link];
    forall j | 0 <= j < |links| ensures LastOfLane(links', j) == LastOfLane(links, j) {
      forall i | j < i < |links| ensures SameLane(links', j, i) == SameLane(links, j, i) {}
    }
  }

  lemma StageKeepsInv(s: State, k: nat, link: Link)
    requires Inv(s) && k < |s.links| && link.Coherent()
    requires link.lane == s.links[k].lane && link.previous == s.links[k].previous
    requires link.cleaned == s.links[k].cleaned
    requires s.links[k].phase.Settled? ==> link.phase.Settled?
    requires s.links[k].phase.Waiting? && !link.phase.Waiting? ==> Ready(s.links, k)
    ensures Inv(s.(links := s.links[k := link]))
  {
    StageKeepsOrder(s.links, k, link);
    StageKeepsLanes(s.links, s.lanes, k, link);
  }

  lemma CleanUpKeepsLanes(links: seq<Link>, lanes: map<string, nat>, k: nat, link: Link)
    requires k < |links| && LanesHoldLast(links, lanes) && !links[k].cleaned
    requires link == links[k].(cleaned := true)
    ensures LanesHoldLast(links[k := link], if link.lane in lanes && lanes[link.lane] == k then lanes - {link.lane} else lanes)
  {
    var links' := links[k := link];
    var lanes' := if link.lane in lanes && lanes[link.lane] == k then lanes - {link.lane} else lanes;
    forall j | 0 <= j < |links| ensures LastOfLane(links', j) == LastOfLane(links, j) {
      forall i | j < i < |links| ensures SameLane(links', j, i) == SameLane(links, j, i) {}
    }
    forall l | l in lanes' ensures lanes'[l] != k {}
    forall j | 0 <= j < |links'| && !links'[j].cleaned && LastOfLane(links', j) ensures links'[j].lane in lanes' {
      assert links[j].lane in lanes;
      if links[j].lane == link.lane && lanes[link.lane] == k {
        LastIsUnique(links, j, k);
      }
    }
  }

  lemma CleanUpKeepsInv(s: State, k: nat)
    requires Inv(s) && Enabled(s, CleanUp(k))
    ensures Inv(AfterCleanUp(s, k))
  {
    var link := s.links[k].(cleaned := true);
    StageKeepsOrder(s.links, k, link);
    CleanUpKeepsLanes(s.links, s.lanes, k, link);
    assert link.Coherent() by { assert s.links[k].Coherent(); }
  }

  lemma TargetStepKeepsInv(s: State, k: nat, i: nat, t: TargetState)
    requires Inv(s) && HasTarget(s, k, i) && s.links[k].phase.Running?
    requires !t.Idle? && InRange(s.links[k].targets[i], t)
    ensures Inv(WithProgress(s, k, i, t))
  {
    var link := s.links[k].(progress := s.links[k].progress[i := t]);
    StageKeepsInv(s, k, link);
  }

  /** A target that is being attempted or backed off belongs to a running link. */
  lemma BusyIsRunning(s: State, k: nat, i: nat)
    requires Inv(s) && HasTarget(s, k, i)
    requires s.links[k].progress[i].Attempting? || s.links[k].progress[i].BackingOff?
    ensures s.links[k].phase.Running?
  {
    assert s.links[k].Coherent();
    assert !s.links[k].progress[i].Done();
  }

  /** Every step keeps the invariant. */
  lemma StepKeepsInv(s: State, a: Action)
    requires Inv(s) && Enabled(s, a)
    ensures Inv(Apply(s, a))
  {
    match a
    case Publish(event) => PublishKeepsInv(s, event);
    case Start(k) => StartKeepsInv(s, k);
    case AttemptOk(k, i) => DeliveryKeepsInv(s, k, i);
    case AttemptFail(k, i) => FailureKeepsInv(s, k, i);
    case TimerFires(k, i) => TimeoutKeepsInv(s, k, i);
    case BackoffOver(k, i) => RetryKeepsInv(s, k, i);
    case Settle(k) => SettleKeepsInv(s, k);
    case CleanUp(k) => CleanUpKeepsInv(s, k);
    case Subscribe(_, _, _, _) =>
    case Unsubscribe(_) =>
    case Advance(_) =>
  }

  lemma StartKeepsInv(s: State, k: nat)
    requires Inv(s) && Enabled(s, Start(k))
    ensures Inv(AfterStart(s, k))
  {
    assert s.links[k].Coherent();
    StageKeepsInv(s, k, AfterStart(s, k).links[k]);
  }

  lemma SettleKeepsInv(s: State, k: nat)
    requires Inv(s) && Enabled(s, Settle(k))
    ensures Inv(Apply(s, Settle(k)))
  {
    assert s.links[k].Coherent();
    StageKeepsInv(s, k, s.links[k].(phase := Settled(s.now)));
  }

  lemma DeliveryKeepsInv(s: State, k: nat, i: nat)
    requires Inv(s) && Enabled(s, AttemptOk(k, i))
    ensures Inv(Apply(s, AttemptOk(k, i)))
  {
    BusyIsRunning(s, k, i);
    TargetStepKeepsInv(s, k, i, Delivered);
  }

  lemma RetryKeepsInv(s: State, k: nat, i: nat)
    requires Inv(s) && Enabled(s, BackoffOver(k, i))
    ensures Inv(Apply(s, BackoffOver(k, i)))
  {
    BusyIsRunning(s, k, i);
    assert s.links[k].Coherent();
    TargetStepKeepsInv(s, k, i, Begin(s.links[k].targets[i], s.links[k].progress[i].attempt + 1, s.now));
  }

  lemma TimeoutKeepsInv(s: State, k: nat, i: nat)
    requires Inv(s) && Enabled(s, TimerFires(k, i))
    ensures Inv(Apply(s, TimerFires(k, i)))
  {
    FailureKeepsInv(s.(counters := s.counters.(timedOut := s.counters.timedOut + 1)), k, i);
  }

  lemma FailureKeepsInv(s: State, k: nat, i: nat)
    requires Inv(s) && HasTarget(s, k, i) && s.links[k].progress[i].Attempting?
    ensures Inv(AfterFailed(s, k, i))
  {
    BusyIsRunning(s, k, i);
    assert s.links[k].Coherent();
    TargetStepKeepsInv(s, k, i, AfterFailure(s.links[k].targets[i], s.links[k].progress[i].attempt, s.now));
  }

  // ----- whole runs -----

  /** A run from `s`: each action is enabled where it happens. */
  predicate IsRun(s: State, run: seq<Action>)
    decreases |run|
  {
    run == [] || (Enabled(s, run[0]) && IsRun(Apply(s, run[0]), run[1..]))
  }

  function After(s: State, run: seq<Action>): State
    requires IsRun(s, run)
    decreases |run|
  {
    if run == [] then s else After(Apply(s, run[0]), run[1..])
  }

  lemma {:induction false} RunKeepsInv(s: State, run: seq<Action>)
    requires Inv(s) && IsRun(s, run)
    ensures Inv(After(s, run))
    decreases |run|
  {
    if run != [] {
      StepKeepsInv(s, run[0]);
      RunKeepsInv(Apply(s, run[0]), run[1..]);
    }
  }

  /** In every reachable state, while any link of a lane is open, `lanes` holds that lane's last link. */
  lemma LanesHoldOpenLane(run: seq<Action>, k: nat)
    requires IsRun(Initial, run)
    requires var s := After(Initial, run); k < |s.links| && !s.links[k].phase.Settled?
    ensures var s := After(Initial, run); var lane := s.links[k].lane;
      && lane in s.lanes && k <= s.lanes[lane] < |s.links|
      && s.links[s.lanes[lane]].lane == lane && LastOfLane(s.links, s.lanes[lane])
  {
    RunKeepsInv(Initial, run);
    OpenLaneIsHeld(After(Initial, run), k);
  }

  /**
   * Per-lane FIFO, in every interleaving: as long as some target of an event is neither delivered nor
   * given up, no target of any later event of that lane has been attempted.
   */
  lemma LaneIsFifo(run: seq<Action>, early: nat, late: nat, i: nat, j: nat)
    requires IsRun(Initial, run)
    requires var links := After(Initial, run).links;
      && early < late < |links| && LaneOf(links[early].event) == LaneOf(links[late].event)
      && i < |links[early].progress| && j < |links[late].progress|
    ensures var links := After(Initial, run).links;
      !links[early].progress[i].Done() ==> links[late].progress[j].Idle?
  {
    RunKeepsInv(Initial, run);
    var links := After(Initial, run).links;
    assert links[early].Coherent() && links[late].Coherent();
    if !links[early].progress[i].Done() {
      assert SameLane(links, early, late);
    }
  }

  lemma HeldIsInFlight(s: State, lane: string)
    requires Inv(s) && lane in s.lanes
    ensures s.lanes[lane] in s.inFlight
  {
  }

  /** `drain` returns when nothing is in flight: then everything published so far is settled. */
  lemma DrainedIsSettled(run: seq<Action>)
    requires IsRun(Initial, run)
    requires After(Initial, run).inFlight == {}
    ensures forall k: nat, i: nat :: HasTarget(After(Initial, run), k, i) ==> After(Initial, run).links[k].progress[i].Done()
    ensures After(Initial, run).lanes == map[]
  {
    var s := After(Initial, run);
    RunKeepsInv(Initial, run);
    forall k: nat, i: nat | HasTarget(s, k, i) ensures s.links[k].progress[i].Done() {
      assert k !in s.inFlight;
      assert s.links[k].Coherent();
    }
    forall lane | lane in s.lanes ensures false {
      HeldIsInFlight(s, lane);
    }
  }

  /** An attempt action on one target. */
  predicate Attempts(a: Action, k: nat, i: nat) {
    (a.AttemptOk? || a.AttemptFail? || a.TimerFires? || a.BackoffOver?) && a.link == k && a.target == i
  }

  /** A step leaves a target alone unless it starts its link or is an attempt action on it. */
  lemma ProgressStays(s: State, a: Action, k: nat, i: nat)
    requires Enabled(s, a) && HasTarget(s, k, i) && a != Start(k) && !Attempts(a, k, i)
    ensures HasTarget(Apply(s, a), k, i) && Apply(s, a).links[k].progress[i] == s.links[k].progress[i]
    ensures Apply(s, a).links[k].targets == s.links[k].targets && Apply(s, a).links[k].event == s.links[k].event
  {
  }

  /** What is done stays done: a settled (event, target) pair never changes again. */
  lemma DoneStaysDone(s: State, a: Action, k: nat, i: nat)
    requires Inv(s) && Enabled(s, a) && HasTarget(s, k, i) && s.links[k].progress[i].Done()
    ensures HasTarget(Apply(s, a), k, i) && Apply(s, a).links[k].progress[i] == s.links[k].progress[i]
    ensures Apply(s, a).links[k].targets == s.links[k].targets && Apply(s, a).links[k].event == s.links[k].event
  {
    assert s.links[k].Coherent();
    ProgressStays(s, a, k, i);
  }
}
