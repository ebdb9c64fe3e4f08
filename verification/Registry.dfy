/// The routing table as the relay runs it: maps updated in place under a lock, an atomic counter,
/// and the stream of published changes. Each method is proved equal to a step of the state machine.
module RegistryObject {
  import opened Protocol
  import opened RoutingTable
  import opened RegistryRuns
  import opened RouteHistory
  import opened StepEffects
  import opened LinkScope
  import opened Snapshots

  datatype Registration = Registration(serial: nat, displaced: Option<Handle>)

  class Registry {
    const relayId: Id
    var entries: map<Id, Entry>
    var relayLinks: map<Id, Id>
    var withdrawn: map<Id, WithdrawnDevice>
    var sequence: nat
    /// Numbers drawn by operations that have not taken the lock yet.
    ghost var held: set<nat>
    /// Every change published so far, in lock order.
    ghost var log: seq<Change>

    ghost function Table(): State
      reads this
    {
      State(entries, relayLinks, withdrawn)
    }

    ghost function Now(): System
      reads this
    {
      System(Table(), sequence, held, log)
    }

    ghost predicate Valid()
      reads this
    {
      && TableInvariant(relayId, Now())
      && LogRefinesTable(relayId, Now())
      && Shortening(log)
    }

    constructor (relayId: Id)
      ensures Valid() && Now() == INITIAL && this.relayId == relayId
    {
      this.relayId := relayId;
      entries, relayLinks, withdrawn, sequence := map[], map[], map[], 0;
      held, log := {}, [];
    }

    twostate lemma StepIsValid(event: Event)
      requires old(Valid()) && Enabled(relayId, old(Now()), event)
      requires Now() == Next(relayId, old(Now()), event)
      ensures Valid()
    {
      StepKeepsTable(relayId, old(Now()), event);
      StepKeepsLogRefinement(relayId, old(Now()), event);
      StepKeepsShortening(relayId, old(Now()), event);
    }

    method NextSequence() returns (drawn: nat)
      requires Valid()
      modifies this`sequence, this`held
      ensures Valid() && drawn == old(sequence)
      ensures Now() == Next(relayId, old(Now()), Draw)
    {
      drawn := sequence;
      sequence := sequence + 1;
      held := held + {drawn};
      StepIsValid(Draw);
    }

    /// The block of `connect` that runs under the lock.
    method Register(presence: Presence, serial: nat, now: int) returns (displaced: Option<Handle>)
      requires Valid() && serial in held
      modifies this
      ensures Valid() && displaced == Displaced(old(Table()), presence.deviceId)
      ensures Now() == Next(relayId, old(Now()), Event.Connect(presence, serial, now))
    {
      var deviceId := presence.deviceId;
      if presence.relayId.Some? && presence.kind == Relay {
        relayLinks := relayLinks[presence.relayId.value := deviceId];
      }
      withdrawn := withdrawn - {deviceId};
      var previous := if deviceId in entries then Some(entries[deviceId]) else None;
      entries := entries[deviceId := DirectEntry(presence, serial, now)];
      var change := Transition(
        deviceId,
        if previous.Some? then AnnouncementOf(relayId, previous.value) else None,
        AnnouncementOf(relayId, entries[deviceId]));
      displaced := if previous.Some? && previous.value.origin.DirectTunnel?
        then Some(previous.value.device.route.Link())
        else None;
      held := held - {serial};
      log := log + change;
      StepIsValid(Event.Connect(presence, serial, now));
    }

    method Connect(presence: Presence, now: int) returns (registration: Registration)
      requires Valid()
      modifies this
      ensures Valid()
      ensures registration == Registration(old(sequence), Displaced(old(Table()), presence.deviceId))
      ensures Now() == Next(relayId, Next(relayId, old(Now()), Draw), Event.Connect(presence, old(sequence), now))
      ensures Registers(old(Table()), Table(), presence, old(sequence), now)
      ensures log == old(log) + PublishedByConnect(relayId, old(entries), presence)
      ensures RouteTo(presence.deviceId) == Some(Direct(presence.handle))
      ensures forall id :: id != presence.deviceId ==> RouteTo(id) == old(RouteTo(id))
      ensures presence.kind == Relay && presence.relayId.Some? ==>
              HopNames([presence.relayId.value]) == [presence.name]
    {
      var serial := NextSequence();
      ConnectEffect(relayId, Now(), presence, serial, now);
      var displaced := Register(presence, serial, now);
      registration := Registration(serial, displaced);
      OthersKeepRoutes(old(Table()), Table(), presence.deviceId);
    }

    /// A device whose entry a step did not touch is routed as before.
    static lemma OthersKeepRoutes(before: State, after: State, deviceId: Id)
      requires after.entries - {deviceId} == before.entries - {deviceId}
      ensures forall id :: id != deviceId ==> RouteIn(after, id) == RouteIn(before, id)
    {
      forall id | id != deviceId
        ensures RouteIn(after, id) == RouteIn(before, id)
      {
        assert id in after.entries <==> id in after.entries - {deviceId};
        assert id in before.entries <==> id in before.entries - {deviceId};
        assert id in after.entries ==> (after.entries - {deviceId})[id] == after.entries[id];
        assert id in before.entries ==> (before.entries - {deviceId})[id] == before.entries[id];
      }
    }

    /// Lists `OwnedBy`, in whatever order the map yields its keys.
    method AnnouncedIdsOf(linkDeviceId: Id) returns (ids: seq<Id>)
      ensures Enumerates(ids, OwnedBy(entries, linkDeviceId))
    {
      ids := [];
      var left := OwnedBy(entries, linkDeviceId);
      while left != {}
        invariant NoDuplicates(ids)
        invariant forall id :: id in OwnedBy(entries, linkDeviceId) <==> id in ids || id in left
        invariant forall id :: id in left ==> id !in ids
        decreases left
      {
        var id :| id in left;
        left := left - {id};
        ids := ids + [id];
      }
    }

    /// Removes the listed devices one after another, publishing what each removal changes.
    method RemoveAll(gone: seq<Id>)
      requires NoDuplicates(gone)
      modifies this`entries, this`log
      ensures entries == old(entries) - (set id | id in gone)
      ensures log == old(log) + OfflineChanges(relayId, old(entries), gone)
    {
      ghost var removed: set<Id> := {};
      var i := 0;
      assert log == old(log) + OfflineChanges(relayId, old(entries), gone[..0]);
      while i < |gone|
        invariant 0 <= i <= |gone|
        invariant removed == set id | id in gone[..i]
        invariant entries == old(entries) - removed
        invariant log == old(log) + OfflineChanges(relayId, old(entries), gone[..i])
      {
        var id := gone[i];
        OfflineChangesNext(relayId, old(entries), gone, i);
        RemoveOneMore(relayId, old(entries), removed, id);
        var change := Transition(id, AnnouncementIn(relayId, entries, id), None);
        entries := entries - {id};
        log := log + change;
        removed := removed + {id};
        i := i + 1;
      }
      assert gone[..i] == gone;
    }

    /// Drops the relay ids and the withdrawn records of a link that ends.
    method ForgetLink(deviceId: Id)
      modifies this`relayLinks, this`withdrawn
      ensures relayLinks == Disconnected(old(Table()), deviceId).relayLinks
      ensures withdrawn == Disconnected(old(Table()), deviceId).withdrawn
    {
      relayLinks := map r | r in relayLinks && relayLinks[r] != deviceId :: relayLinks[r];
      withdrawn := map id | id in withdrawn && withdrawn[id].linkDeviceId != deviceId :: withdrawn[id];
    }

    /// Removes a registered link and everything it announced, in the given order.
    method Unregister(deviceId: Id, serial: nat, order: seq<Id>)
      requires Valid() && IsRegistered(Table(), deviceId, serial)
      requires Enumerates(order, OwnedBy(entries, deviceId))
      modifies this
      ensures Valid() && Now() == Next(relayId, old(Now()), Event.Disconnect(deviceId, serial, order))
    {
      ForgetLink(deviceId);
      var gone := [deviceId] + order;
      assert NoDuplicates(gone) by {
        assert deviceId !in OwnedBy(entries, deviceId);
      }
      RemoveAll(gone);
      assert (set id | id in gone) == {deviceId} + OwnedBy(old(entries), deviceId);
      StepIsValid(Event.Disconnect(deviceId, serial, order));
    }

    method Disconnect(deviceId: Id, serial: nat) returns (removed: bool)
      requires Valid()
      modifies this
      ensures Valid() && removed == old(deviceId in entries && entries[deviceId].origin == DirectTunnel(serial))
      ensures removed ==> Unregisters(old(Table()), Table(), deviceId)
      ensures removed ==> exists changes :: log == old(log) + changes && PublishedByEnd(old(entries), deviceId, changes)
      ensures !removed ==> Now() == old(Now())
      ensures exists order ::
                && Enabled(relayId, old(Now()), Event.Disconnect(deviceId, serial, order))
                && Now() == Next(relayId, old(Now()), Event.Disconnect(deviceId, serial, order))
    {
      var order := AnnouncedIdsOf(deviceId);
      ghost var event := Event.Disconnect(deviceId, serial, order);
      assert Enabled(relayId, old(Now()), event);
      DisconnectIsScoped(relayId, Now(), deviceId, serial, order);
      if !(deviceId in entries && entries[deviceId].origin == DirectTunnel(serial)) {
        assert Now() == Next(relayId, old(Now()), event);
        return false;
      }
      Unregister(deviceId, serial, order);
      removed := true;
    }

    /// The block of `announce_device` that runs under the lock.
    method Install(link: Handle, device: AnnouncedDevice, number: nat, now: int) returns (accepted: bool)
      requires Valid() && number in held && IsRoutable(relayId, device.via)
      modifies this
      ensures Valid() && accepted == Accepts(old(Table()), device, number)
      ensures Now() == Next(relayId, old(Now()), Event.Announce(link.deviceId, link, device, number, now))
    {
      ghost var event := Event.Announce(link.deviceId, link, device, number, now);
      held := held - {number};
      if device.id in entries {
        var existing := entries[device.id];
        if !Replaces(existing.device.route, existing.sequence, device.via, number) {
          StepIsValid(event);
          return false;
        }
      }
      withdrawn := withdrawn - {device.id};
      var previous := AnnouncementIn(relayId, entries, device.id);
      entries := entries[device.id := AnnouncedEntry(link.deviceId, link, device, number, now)];
      log := log + Transition(device.id, previous, AnnouncementOf(relayId, entries[device.id]));
      StepIsValid(event);
      accepted := true;
    }

    method AnnounceDevice(link: Handle, device: AnnouncedDevice, now: int) returns (accepted: bool)
      requires Valid()
      modifies this
      ensures Valid() && accepted == Takes(relayId, old(Table()), device)
      ensures Now() == AnnounceNow(relayId, old(Now()), link, device, now)
      ensures accepted <==>
                && |device.via| < MAX_HOPS && relayId !in device.via
                && (old(RouteTo(device.id)).Some? ==>
                      match old(RouteTo(device.id)).value
                      case Direct(_) => false
                      case Via(_, hops) => |device.via| <= |hops|)
      ensures accepted ==>
                && InstallsAnnounced(old(Table()), Table(), link.deviceId, link, device, old(sequence), now)
                && log == old(log) + [Online(AnnouncedDevice(device.id, device.name, true, [relayId] + device.via))]
                && RouteTo(device.id) == Some(Via(link, device.via))
                && forall id :: id != device.id ==> RouteTo(id) == old(RouteTo(id))
      ensures !accepted ==> Table() == old(Table()) && log == old(log)
    {
      AnnounceNowExact(relayId, Now(), link, device, now);
      if !IsRoutable(relayId, device.via) {
        return false;
      }
      var number := NextSequence();
      AnnounceEffect(relayId, Now(), link.deviceId, link, device, number, now);
      accepted := Install(link, device, number, now);
      if accepted {
        OthersKeepRoutes(old(Table()), Table(), device.id);
      }
    }

    method WithdrawDevice(linkDeviceId: Id, deviceId: Id, now: int)
      requires Valid()
      modifies this
      ensures Valid()
      ensures Now() == WithdrawNow(relayId, old(Now()), linkDeviceId, deviceId, now)
      ensures old(deviceId in entries && entries[deviceId].origin == AnnouncedBy(linkDeviceId)) ==>
                && Withdraws(old(Table()), Table(), linkDeviceId, deviceId, now)
                && log == old(log) + [Offline(deviceId)]
                && RouteTo(deviceId).None?
                && LastKnown(deviceId) == Some(KnownDevice(old(entries)[deviceId].device.name, now))
      ensures old(!(deviceId in entries && entries[deviceId].origin == AnnouncedBy(linkDeviceId))) ==>
                Now() == old(Now())
    {
      WithdrawEffect(relayId, Now(), linkDeviceId, deviceId, now);
      if !(deviceId in entries && IsAnnouncedBy(entries[deviceId], linkDeviceId)) {
        return;
      }
      var removed := entries[deviceId];
      entries := entries - {deviceId};
      withdrawn := withdrawn[deviceId := WithdrawnDevice(linkDeviceId, KnownDevice(removed.device.name, now))];
      log := log + Transition(deviceId, AnnouncementOf(relayId, removed), None);
      StepIsValid(Event.Withdraw(linkDeviceId, deviceId, now));
    }

    /// The first loop of a snapshot: installs what it lists, and reports what was accepted.
    method InstallAll(link: Handle, devices: seq<AnnouncedDevice>, now: int) returns (installed: set<Id>)
      requires Valid()
      modifies this
      ensures Valid()
      ensures AnnounceAll(relayId, old(Now()), link, devices, now) == Pass(Now(), installed)
    {
      installed := {};
      var i := 0;
      ghost var before := Now();
      while i < |devices|
        invariant 0 <= i <= |devices|
        invariant Valid()
        invariant AnnounceAll(relayId, before, link, devices[..i], now) == Pass(Now(), installed)
      {
        var device := devices[i];
        AnnounceAllNext(relayId, before, link, devices, i, now);
        if device.online {
          AnnounceNowExact(relayId, Now(), link, device, now);
          var accepted := AnnounceDevice(link, device, now);
          if accepted {
            installed := installed + {device.id};
          }
        }
        i := i + 1;
      }
      assert devices[..i] == devices;
    }

    /// The second loop: withdraws what the link owned before and the first loop did not install.
    method WithdrawLeftovers(linkDeviceId: Id, previous: seq<Id>, installed: set<Id>, now: int)
      returns (ghost order: seq<Id>)
      requires Valid() && NoDuplicates(previous)
      modifies this
      ensures Valid()
      ensures NoDuplicates(order) && forall id :: id in order <==> id in previous && id !in installed
      ensures Now() == WithdrawAll(relayId, old(Now()), linkDeviceId, order, now)
    {
      order := [];
      var j := 0;
      while j < |previous|
        invariant 0 <= j <= |previous|
        invariant Valid()
        invariant NoDuplicates(order)
        invariant forall id :: id in order <==> id in previous[..j] && id !in installed
        invariant Now() == WithdrawAll(relayId, old(Now()), linkDeviceId, order, now)
      {
        if previous[j] !in installed {
          WithdrawDevice(linkDeviceId, previous[j], now);
          ghost var longer := order + [previous[j]];
          assert longer[..|longer| - 1] == order;
          order := longer;
        }
        j := j + 1;
      }
      assert previous[..j] == previous;
    }

    /// A snapshot replaces what the link had announced, in two loops.
    method ApplyAnnouncement(link: Handle, devices: seq<AnnouncedDevice>, now: int)
      requires Valid()
      modifies this
      ensures Valid()
      ensures exists order ::
                && SnapshotOrder(relayId, old(Now()), link, devices, order, now)
                && Now() == SnapshotResult(relayId, old(Now()), link, devices, order, now)
      ensures DistinctIds(devices) ==>
                && (forall id :: SnapshotOutcome(relayId, old(Table()), Table(), link, devices, now, id))
                && relayLinks == old(relayLinks)
    {
      var previous := AnnouncedIdsOf(link.deviceId);
      ghost var before := Now();
      var installed := InstallAll(link, devices, now);
      ghost var order := WithdrawLeftovers(link.deviceId, previous, installed, now);
      assert SnapshotOrder(relayId, before, link, devices, order, now);
      if DistinctIds(devices) {
        SnapshotHasOutcome(relayId, before, link, devices, order, now);
      }
    }

    /// Lists the announcements a replay of the log would arrive at.
    method Announcements() returns (devices: seq<AnnouncedDevice>)
      requires Valid()
      ensures DistinctIds(devices)
      ensures forall device :: device in devices <==>
                               device.id in Replay(log) && Replay(log)[device.id] == device
      ensures forall device :: device in devices <==>
                && device.id in entries && IsDestination(entries[device.id])
                && device == SeenFromAbove(relayId, device.id, entries[device.id])
    {
      AnnouncedAreDestinations(relayId, Now());
      devices := [];
      var left := entries.Keys;
      while left != {}
        invariant left <= entries.Keys
        invariant DistinctIds(devices)
        invariant forall device :: device in devices <==>
                    && device.id in entries && device.id !in left
                    && AnnouncementOf(relayId, entries[device.id]) == Some(device)
        decreases left
      {
        var id :| id in left;
        left := left - {id};
        var announcement := AnnouncementOf(relayId, entries[id]);
        if announcement.Some? {
          devices := devices + [announcement.value];
        }
      }
    }

    function RouteTo(deviceId: Id): (route: Option<Route>)
      requires Valid()
      reads this
      ensures route == RouteIn(Table(), deviceId)
      ensures route.Some? <==> deviceId in entries
      ensures route.Some? ==> relayId !in route.value.Hops() && |route.value.Hops()| < MAX_HOPS
    {
      if deviceId in entries then Some(entries[deviceId].device.route) else None
    }

    /// A device is remembered as withdrawn only while it is not routable, under the name and the time
    /// its withdrawal recorded.
    function LastKnown(deviceId: Id): (known: Option<KnownDevice>)
      requires Valid()
      reads this
      ensures known.Some? ==> RouteTo(deviceId).None?
      ensures known.Some? <==> deviceId in withdrawn
      ensures known.Some? ==> withdrawn[deviceId].device == known.value
    {
      if deviceId in withdrawn then Some(withdrawn[deviceId].device) else None
    }

    /// Relay ids shown as the names of the live links that declared them, and as themselves when no
    /// live link did: the invariant rules out a declared id whose link is gone.
    function HopNames(hops: seq<Id>): (names: seq<string>)
      requires Valid()
      reads this
      ensures |names| == |hops|
      ensures forall i :: 0 <= i < |hops| ==>
                if hops[i] in relayLinks
                then IsDirect(Table(), relayLinks[hops[i]]) && names[i] == entries[relayLinks[hops[i]]].device.name
                else names[i] == hops[i]
    {
      seq(|hops|, i requires 0 <= i < |hops| reads this =>
        if hops[i] in relayLinks && relayLinks[hops[i]] in entries
        then entries[relayLinks[hops[i]]].device.name
        else hops[i])
    }
  }
}
