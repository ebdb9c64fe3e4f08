/// The control frames relays exchange: what a change becomes for an upstream, and what a relay does
/// with a frame a device sent.
module ControlFrames {
  import opened Protocol
  import opened RoutingTable
  import opened RegistryRuns
  import opened Snapshots

  datatype ControlFrame =
    | Announce(devices: seq<AnnouncedDevice>)
    | DeviceOnline(id: Id, name: string, via: seq<Id>)
    | DeviceOffline(id: Id)
    | Ping
    | Pong

  /// The sender's own loop check: the upstream must not appear on the chain it is told.
  predicate IsRoutableFor(device: AnnouncedDevice, upstream: Id) {
    upstream !in device.via
  }

  /// The frame a published change is forwarded as, if any: an Offline always becomes one, an Online
  /// only when the upstream can use its chain.
  function AnnouncementFrame(change: Change, upstream: Id): Option<ControlFrame> {
    match change
    case Online(device) =>
      if IsRoutableFor(device, upstream) then Some(DeviceOnline(device.id, device.name, device.via)) else None
    case Offline(id) => Some(DeviceOffline(id))
  }

  /// What one frame does to the receiving relay's table; a desktop's frames do nothing to it. `order` is
  /// the order a snapshot's leftovers happen to come in.
  function Handled(relay: Id, sys: System, link: Handle, kind: DeviceKind, frame: ControlFrame, order: seq<Id>,
                   now: int)
    : System
  {
    if kind != Relay then sys
    else
      match frame
      case Announce(devices) => SnapshotResult(relay, sys, link, devices, order, now)
      case DeviceOnline(id, name, via) => AnnounceNow(relay, sys, link, AnnouncedDevice(id, name, true, via), now)
      case DeviceOffline(id) => WithdrawNow(relay, sys, link.deviceId, id, now)
      case Ping => sys
      case Pong => sys
  }
}
