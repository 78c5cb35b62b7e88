/**
 * The registry's handler as the code runs it when nothing else touches its device meanwhile, which is
 * what Presence proves of the bus. Any database access may reject; the handler then stops there.
 */
module DevicesService {
  import opened DomainEvents
  import opened Presence
  import Bus = EventBus
  import InProcessEventBus

  /** Which of the handler's database accesses reject. */
  datatype Faults = Faults(read: bool, find: bool, save: bool, update: bool)

  class Devices {
    var rows: map<string, Row>
    const bus: InProcessEventBus.Bus

    constructor (bus: InProcessEventBus.Bus)
      ensures this.bus == bus && rows == map[]
    {
      this.bus := bus;
      rows := map[];
    }

    /** The device's row and published lifecycle events. */
    ghost function Seen(id: string): Replayed
      reads this, bus
    {
      Replayed(Get(rows, id), Emissions(bus.history, id))
    }

    method Announce(event: DomainEvent)
      modifies bus
      ensures rows == old(rows)
      ensures forall id :: Seen(id) == Replayed(Get(rows, id), old(Seen(id)).emitted + EmissionOf(event, id))
    {
      ghost var before := bus.Model();
      bus.Publish(event);
      forall id ensures Emissions(bus.history, id) == Emissions(before.history, id) + EmissionOf(event, id) {
        PublishEmits(before, event, id);
      }
    }

    /** False when a database access rejected; `created` tells whether a row was saved. */
    method FindOrCreate(id: string, event: DomainEvent, faults: Faults) returns (ok: bool, created: bool)
      requires id != "" && event.deviceId == Some(id)
      modifies this, bus
      ensures ok <==> !faults.find && (id in old(rows) || !faults.save)
      ensures created <==> ok && id !in old(rows)
      ensures rows == if created then old(rows)[id := NewRow(BaseOf(event))] else old(rows)
      ensures Seen(id) == Digest(old(Seen(id)), EntryOf(event, Failed(created)))
      ensures forall other | other != id :: Seen(other) == old(Seen(other))
    {
      if faults.find {
        return false, false;
      }
      if id in rows {
        return true, false;
      }
      if faults.save {
        return false, false;
      }
      rows := rows[id := NewRow(BaseOf(event))];
      var registration := Registration(event, bus.now);
      Announce(registration);
      assert EmissionOf(registration, id) == [WasRegistered];
      return true, true;
    }

    /** One report is digested exactly as the sequential replay digests it; other devices are untouched. */
    method HandlePresenceReported(event: DomainEvent, faults: Faults) returns (outcome: Outcome)
      modifies this, bus
      ensures HasId(event) ==> Seen(event.deviceId.value) == Digest(old(Seen(event.deviceId.value)), EntryOf(event, outcome))
      ensures forall other | event.deviceId != Some(other) :: Seen(other) == old(Seen(other))
      ensures outcome == Ignored <==> !HasId(event)
      ensures HasId(event) ==> (outcome == Handled <==>
        !faults.read && !faults.find && !faults.update && (event.deviceId.value in old(rows) || !faults.save))
    {
      if event.deviceId.None? || event.deviceId.value == "" {
        return Ignored;
      }
      var id := event.deviceId.value;
      if faults.read {
        return Failed(false);
      }
      var before := Get(rows, id);
      var ok, created := FindOrCreate(id, event, faults);
      if !ok || faults.update {
        return Failed(created);
      }
      rows := rows[id := rows[id].(online := OnlineOf(event), lastSeenAt := Some(event.timestamp))];
      var was := WasOnline(before);
      if was != OnlineOf(event) {
        var change := ChangeEvent(event, was, bus.now);
        Announce(change);
        assert EmissionOf(change, id) == [Change(OnlineOf(event))];
      }
      outcome := Handled;
    }
  }
}
