/** The event envelope that crosses module boundaries, as far as the bus and the registry look at it. */
module DomainEvents {
  datatype Option<+T> = None | Some(value: T)

  datatype Payload =
    | Presence(baseTopic: string, online: bool)
    | Registered(baseTopic: string)
    | Changed(previous: bool)
    | Opaque

  datatype DomainEvent = DomainEvent(eventType: string, deviceId: Option<string>, timestamp: int, payload: Payload)

  const DEVICE_PRESENCE_REPORTED := "device.presence.reported"
  const DEVICE_REGISTERED := "device.registered"
  const DEVICE_ONLINE := "device.online"
  const DEVICE_OFFLINE := "device.offline"
}
