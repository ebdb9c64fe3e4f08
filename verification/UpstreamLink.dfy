/// Both ends of a link between two relays, over the registry as it runs: the snapshot and the
/// increments the downstream sends, and the frames the upstream applies.
module UpstreamLink {
  import opened Protocol
  import opened RoutingTable
  import opened RegistryRuns
  import opened StepEffects
  import opened Snapshots
  import opened ControlFrames
  import opened ChangeFeed
  import opened RegistryObject

  lemma AppendKeepsDistinct(devices: seq<AnnouncedDevice>, device: AnnouncedDevice)
    requires DistinctIds(devices) && forall other :: other in devices ==> other.id != device.id
    ensures DistinctIds(devices + [device])
  {}

  /// The announcements one upstream can use, as it is told them when the link comes up.
  method SnapshotFor(registry: Registry, upstream: Id) returns (devices: seq<AnnouncedDevice>)
    requires registry.Valid()
    ensures SnapshotFrame(Replay(registry.log), upstream, devices)
    ensures forall device :: device in devices <==>
              && upstream !in device.via
              && device.id in registry.entries && IsDestination(registry.entries[device.id])
              && device == SeenFromAbove(registry.relayId, device.id, registry.entries[device.id])
  {
    var all := registry.Announcements();
    devices := [];
    var i := 0;
    while i < |all|
      invariant 0 <= i <= |all|
      invariant DistinctIds(devices)
      invariant forall device :: device in devices <==> device in all[..i] && IsRoutableFor(device, upstream)
    {
      if IsRoutableFor(all[i], upstream) {
        assert forall device :: device in all[..i] ==> device.id != all[i].id;
        AppendKeepsDistinct(devices, all[i]);
        devices := devices + [all[i]];
      }
      i := i + 1;
    }
    assert all[..i] == all;
  }

  ghost function FramesHandled(upstream: Id, sys: System, link: Handle, frames: seq<ControlFrame>, now: int): System {
    if frames == [] then sys
    else
      Handled(upstream, FramesHandled(upstream, sys, link, frames[..|frames| - 1], now), link, Relay,
              frames[|frames| - 1], [], now)
  }

  /// Turns published changes into increments, dropping the ones the upstream could not use. Applying
  /// the frames one after another is feeding the changes one after another, whatever table they meet.
  method ForwardChanges(changes: seq<Change>, upstream: Id) returns (frames: seq<ControlFrame>)
    ensures forall sys, link, now ::
              FramesHandled(upstream, sys, link, frames, now)
                  == FeedAll(upstream, sys, link, changes, 0, |changes|, now)
    ensures |frames| <= |changes|
    ensures forall frame :: frame in frames ==> frame.DeviceOnline? || frame.DeviceOffline?
    ensures forall id, name, via ::
              DeviceOnline(id, name, via) in frames <==>
              upstream !in via && exists online :: Online(AnnouncedDevice(id, name, online, via)) in changes
    ensures forall id :: DeviceOffline(id) in frames <==> Offline(id) in changes
  {
    frames := [];
    var i := 0;
    while i < |changes|
      invariant 0 <= i <= |changes| && |frames| <= i
      invariant forall frame :: frame in frames <==>
                  exists k :: 0 <= k < i && AnnouncementFrame(changes[k], upstream) == Some(frame)
      invariant forall sys, link, now ::
                  FramesHandled(upstream, sys, link, frames, now) == FeedAll(upstream, sys, link, changes, 0, i, now)
    {
      var frame := AnnouncementFrame(changes[i], upstream);
      if frame.Some? {
        assert (frames + [frame.value])[..|frames|] == frames;
        frames := frames + [frame.value];
      }
      i := i + 1;
    }
  }

  /// Applies one control frame a device sent over its tunnel.
  method HandleControlFrame(registry: Registry, link: Handle, kind: DeviceKind, frame: ControlFrame, now: int)
    requires registry.Valid()
    modifies registry
    ensures registry.Valid()
    ensures kind == Desktop || frame.Ping? || frame.Pong? ==> registry.Now() == old(registry.Now())
    ensures kind == Relay && frame.Announce? && DistinctIds(frame.devices) ==>
              && (forall id :: SnapshotOutcome(registry.relayId, old(registry.Table()), registry.Table(), link,
                                               frame.devices, now, id))
              && registry.relayLinks == old(registry.relayLinks)
    ensures kind == Relay && frame.DeviceOnline? ==>
              var device := AnnouncedDevice(frame.id, frame.name, true, frame.via);
              if CanTakeOver(registry.relayId, old(registry.Table()), device) then
                && InstallsAnnounced(old(registry.Table()), registry.Table(), link.deviceId, link, device,
                                     old(registry.sequence), now)
                && registry.log == old(registry.log) + [Online(device.(via := [registry.relayId] + frame.via))]
              else
                registry.Table() == old(registry.Table()) && registry.log == old(registry.log)
    ensures kind == Relay && frame.DeviceOffline? ==>
              if old(frame.id in registry.entries
                     && registry.entries[frame.id].origin == AnnouncedBy(link.deviceId)) then
                && Withdraws(old(registry.Table()), registry.Table(), link.deviceId, frame.id, now)
                && registry.log == old(registry.log) + [Offline(frame.id)]
              else
                registry.Now() == old(registry.Now())
    ensures exists order ::
              && (frame.Announce? && kind == Relay ==>
                    SnapshotOrder(registry.relayId, old(registry.Now()), link, frame.devices, order, now))
              && registry.Now() == Handled(registry.relayId, old(registry.Now()), link, kind, frame, order, now)
  {
    if kind != Relay {
      assert registry.Now() == Handled(registry.relayId, old(registry.Now()), link, kind, frame, [], now);
      return;
    }
    match frame {
      case Announce(devices) =>
        registry.ApplyAnnouncement(link, devices, now);
      case DeviceOnline(id, name, via) =>
        var _ := registry.AnnounceDevice(link, AnnouncedDevice(id, name, true, via), now);
        assert registry.Now() == Handled(registry.relayId, old(registry.Now()), link, kind, frame, [], now);
      case DeviceOffline(id) =>
        registry.WithdrawDevice(link.deviceId, id, now);
        assert registry.Now() == Handled(registry.relayId, old(registry.Now()), link, kind, frame, [], now);
      case Ping =>
        assert registry.Now() == Handled(registry.relayId, old(registry.Now()), link, kind, frame, [], now);
      case Pong =>
        assert registry.Now() == Handled(registry.relayId, old(registry.Now()), link, kind, frame, [], now);
    }
  }
}
