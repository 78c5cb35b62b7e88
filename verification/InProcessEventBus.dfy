/**
 * The bus object. Each method is what one uninterrupted turn of the runtime does to its fields; the
 * promise chain itself (`promises`) belongs to the runtime. Every method is a step of EventBus or of
 * EventBusHandlers.
 */
module InProcessEventBus {
  import opened DomainEvents
  import opened EventPattern
  import opened EventBus
  import Handlers = EventBusHandlers

  lemma {:induction false} RemoveAt(subscriptions: seq<Subscription>, index: nat, id: nat)
    requires index <= |subscriptions| && forall i | 0 <= i < index :: subscriptions[i].id != id
    requires index < |subscriptions| ==> subscriptions[index].id == id
    ensures Remove(subscriptions, id)
         == if index < |subscriptions| then subscriptions[..index] + subscriptions[index + 1..] else subscriptions
    decreases |subscriptions|
  {
    if index > 0 {
      RemoveAt(subscriptions[1..], index - 1, id);
    }
  }

  class Bus {
    var subscriptions: seq<Subscription>
    var lanes: map<string, nat>
    var inFlight: set<nat>
    var published: nat
    var delivered: nat
    var failed: nat
    var timedOut: nat
    var nextId: nat
    var promises: seq<Link>
    var now: nat
    var running: set<Handlers.Call>
    ghost var history: seq<Publication>

    ghost function Model(): State
      reads this
    {
      State(now, nextId, subscriptions, lanes, inFlight, Counters(published, delivered, failed, timedOut), promises, history)
    }

    /** With the handler calls that have begun and not ended. */
    ghost function Whole(): Handlers.State
      reads this
    {
      Handlers.State(Model(), running)
    }

    constructor ()
      ensures Whole() == Handlers.Initial
    {
      running := {};
      subscriptions, lanes, inFlight, promises := [], map[], {}, [];
      published, delivered, failed, timedOut, nextId, now := 0, 0, 0, 0, 0, 0;
      history := [];
    }

    method SelectTargets(event: DomainEvent) returns (targets: seq<Subscription>)
      ensures targets == TargetsOf(subscriptions, event)
    {
      targets := [];
      var i := 0;
      while i < |subscriptions|
        invariant 0 <= i <= |subscriptions|
        invariant targets + TargetsOf(subscriptions[i..], event) == TargetsOf(subscriptions, event)
      {
        var matched := MatchesPattern(subscriptions[i].pattern, event.eventType);
        assert subscriptions[i..][1..] == subscriptions[i + 1..];
        if matched {
          targets := targets + [subscriptions[i]];
        }
        i := i + 1;
      }
    }

    method Publish(event: DomainEvent)
      modifies this`published, this`history, this`promises, this`lanes, this`inFlight
      ensures Model() == Apply(old(Model()), Action.Publish(event))
    {
      published := published + 1;
      history := history + [Publication(event, subscriptions)];
      var targets := SelectTargets(event);
      if |targets| != 0 {
        Chain(event, targets);
      }
    }

    /** Chains a new promise behind the tail of the event's lane and makes it the tail. */
    method Chain(event: DomainEvent, targets: seq<Subscription>)
      modifies this`promises, this`lanes, this`inFlight
      ensures Model() == Enqueue(old(Model()), event, targets)
    {
      var lane := if event.deviceId.Some? then event.deviceId.value else GLOBAL_LANE;
      var previous: Option<nat> := if lane in lanes then Some(lanes[lane]) else None;
      var current := |promises|;
      promises := promises + [Link(event, lane, targets, previous, now, Waiting, AllIdle(|targets|), false)];
      lanes := lanes[lane := current];
      inFlight := inFlight + {current};
    }

    method Subscribe(pattern: string, retries: nat, backoffMs: nat, timeoutMs: nat) returns (id: nat)
      modifies this`subscriptions, this`nextId
      ensures Model() == Apply(old(Model()), Action.Subscribe(pattern, retries, backoffMs, timeoutMs))
      ensures id == old(nextId)
    {
      id := nextId;
      subscriptions := subscriptions + [Subscription(id, pattern, retries, backoffMs, timeoutMs)];
      nextId := nextId + 1;
    }

    /** The function that `subscribe` returns: find the subscription, splice it out. */
    method Unsubscribe(id: nat)
      modifies this`subscriptions
      ensures Model() == Apply(old(Model()), Action.Unsubscribe(id))
    {
      var index := 0;
      while index < |subscriptions| && subscriptions[index].id != id
        invariant 0 <= index <= |subscriptions|
        invariant forall i | 0 <= i < index :: subscriptions[i].id != id
      {
        index := index + 1;
      }
      RemoveAt(subscriptions, index, id);
      if index < |subscriptions| {
        subscriptions := subscriptions[..index] + subscriptions[index + 1..];
      }
    }

    /** `deliver` begins: `runHandler` of every target enters its first attempt. */
    method StartDelivery(k: nat)
      requires Enabled(Model(), Start(k))
      modifies this`promises, this`running
      ensures Whole() == Handlers.Apply(old(Whole()), Handlers.BusStep(Start(k)))
    {
      var targets := promises[k].targets;
      var progress: seq<TargetState> := [];
      for i := 0 to |targets|
        invariant |progress| == i
        invariant promises == old(promises)
        invariant forall j | 0 <= j < i :: progress[j] == Begin(targets[j], 0, now)
        invariant running == old(running) + set j | 0 <= j < i :: Handlers.Call(k, j, 0)
      {
        progress := progress + [Attempting(0, now + targets[i].timeoutMs)];
        running := running + {Handlers.Call(k, i, 0)};
      }
      assert progress == AfterStart(Model(), k).links[k].progress;
      promises := promises[k := promises[k].(phase := Running(now), progress := progress)];
    }

    method SetProgress(k: nat, i: nat, t: TargetState)
      requires HasTarget(Model(), k, i)
      modifies this`promises
      ensures Model() == WithProgress(old(Model()), k, i, t)
    {
      var link := promises[k];
      promises := promises[k := link.(progress := link.progress[i := t])];
    }

    /**
     * A handler call ends. It reaches the promise of its own attempt, and only if that is still open does
     * anything happen: a late end is swallowed.
     */
    method HandlerEnded(c: Handlers.Call, ok: bool)
      requires Handlers.Enabled(Whole(), Handlers.HandlerEnds(c, ok))
      modifies this`promises, this`delivered, this`failed, this`running
      ensures Whole() == Handlers.Apply(old(Whole()), Handlers.HandlerEnds(c, ok))
    {
      running := running - {c};
      if c.link >= |promises| || c.target >= |promises[c.link].progress|
         || |promises[c.link].targets| != |promises[c.link].progress| {
        return;
      }
      var t := promises[c.link].progress[c.target];
      if !t.Attempting? || t.attempt != c.attempt {
        return;
      }
      if ok {
        HandlerResolved(c.link, c.target);
      } else {
        HandlerRejected(c.link, c.target);
      }
    }

    method HandlerResolved(k: nat, i: nat)
      requires Enabled(Model(), AttemptOk(k, i))
      modifies this`promises, this`delivered
      ensures Model() == Apply(old(Model()), AttemptOk(k, i))
    {
      SetProgress(k, i, Delivered);
      delivered := delivered + 1;
    }

    /** The `catch` branch: the last failure is counted, any other one is backed off. */
    method HandlerRejected(k: nat, i: nat)
      requires Enabled(Model(), AttemptFail(k, i))
      modifies this`promises, this`failed
      ensures Model() == Apply(old(Model()), AttemptFail(k, i))
    {
      var sub, attempt := promises[k].targets[i], promises[k].progress[i].attempt;
      if attempt == sub.retries {
        SetProgress(k, i, GaveUp);
        failed := failed + 1;
      } else {
        SetProgress(k, i, BackingOff(attempt, now + Delay(sub.backoffMs, attempt)));
      }
    }

    /** The timer of `withTimeout`: it counts the time-out and rejects the attempt; the handler call runs on. */
    method TimerFired(k: nat, i: nat)
      requires Enabled(Model(), TimerFires(k, i))
      modifies this`promises, this`failed, this`timedOut
      ensures Whole() == Handlers.Apply(old(Whole()), Handlers.BusStep(TimerFires(k, i)))
    {
      timedOut := timedOut + 1;
      HandlerRejected(k, i);
    }

    method BackoffElapsed(k: nat, i: nat)
      requires Enabled(Model(), BackoffOver(k, i))
      modifies this`promises, this`running
      ensures Whole() == Handlers.Apply(old(Whole()), Handlers.BusStep(BackoffOver(k, i)))
    {
      var sub, attempt := promises[k].targets[i], promises[k].progress[i].attempt + 1;
      SetProgress(k, i, Attempting(attempt, now + sub.timeoutMs));
      running := running + {Handlers.Call(k, i, attempt)};
    }

    method LinkSettled(k: nat)
      requires Enabled(Model(), Settle(k))
      modifies this`promises
      ensures Model() == Apply(old(Model()), Settle(k))
    {
      promises := promises[k := promises[k].(phase := Settled(now))];
    }

    /** The `finally` of a link. */
    method Finally(k: nat)
      requires Enabled(Model(), CleanUp(k))
      modifies this`promises, this`inFlight, this`lanes
      ensures Model() == Apply(old(Model()), CleanUp(k))
    {
      var lane := promises[k].lane;
      promises := promises[k := promises[k].(cleaned := true)];
      inFlight := inFlight - {k};
      if lane in lanes && lanes[lane] == k {
        lanes := lanes - {lane};
      }
    }

    /** One test of the loop in `drain`: with nothing in flight, every link has settled. */
    method DrainMayReturn() returns (done: bool)
      requires Inv(Model())
      ensures done <==> inFlight == {}
      ensures done ==> forall k | 0 <= k < |promises| :: promises[k].phase.Settled?
    {
      done := inFlight == {};
      assert done ==> forall k | 0 <= k < |promises| :: k !in inFlight && promises[k].Coherent();
    }
  }
}
