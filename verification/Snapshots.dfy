/// Applying a downstream relay's frames without interference: one increment, and a whole snapshot,
/// which installs first and withdraws the leftovers afterwards.
module Snapshots {
  import opened Protocol
  import opened RoutingTable
  import opened RegistryRuns

  /// `announce_device` as its caller sees it: check, draw a number, take the lock.
  function AnnounceNow(relay: Id, sys: System, link: Handle, device: AnnouncedDevice, now: int): System {
    if IsRoutable(relay, device.via) then
      Next(relay, Next(relay, sys, Draw), Announce(link.deviceId, link, device, sys.counter, now))
    else
      sys
  }

  function WithdrawNow(relay: Id, sys: System, linkDeviceId: Id, deviceId: Id, now: int): System {
    Next(relay, sys, Withdraw(linkDeviceId, deviceId, now))
  }

  /// The announcements a fresh number installs: followable, and no worse than the route in place.
  predicate Takes(relay: Id, st: State, device: AnnouncedDevice) {
    && IsRoutable(relay, device.via)
    && (device.id in st.entries ==>
          var route := st.entries[device.id].device.route;
          route.Via? && |device.via| <= |route.hops|)
  }

  datatype Pass = Pass(sys: System, installed: set<Id>)

  /// The installing half of a snapshot, device after device.
  function AnnounceAll(relay: Id, sys: System, link: Handle, devices: seq<AnnouncedDevice>, now: int): Pass {
    if devices == [] then
      Pass(sys, {})
    else
      var pass := AnnounceAll(relay, sys, link, devices[..|devices| - 1], now);
      var device := devices[|devices| - 1];
      if !device.online then pass
      else
        Pass(AnnounceNow(relay, pass.sys, link, device, now),
             if IsRoutable(relay, device.via) && Accepts(pass.sys.state, device, pass.sys.counter)
             then pass.installed + {device.id} else pass.installed)
  }

  /// One device further.
  lemma AnnounceAllNext(relay: Id, sys: System, link: Handle, devices: seq<AnnouncedDevice>, i: nat, now: int)
    requires i < |devices|
    ensures var pass := AnnounceAll(relay, sys, link, devices[..i], now);
            AnnounceAll(relay, sys, link, devices[..i + 1], now) ==
            if !devices[i].online then pass
            else
              Pass(AnnounceNow(relay, pass.sys, link, devices[i], now),
                   if IsRoutable(relay, devices[i].via) && Accepts(pass.sys.state, devices[i], pass.sys.counter)
                   then pass.installed + {devices[i].id} else pass.installed)
  {
    assert devices[..i + 1][..i] == devices[..i];
  }

  /// The withdrawing half, in the order the leftovers happen to come.
  function WithdrawAll(relay: Id, sys: System, linkDeviceId: Id, order: seq<Id>, now: int): System {
    if order == [] then sys
    else WithdrawNow(relay, WithdrawAll(relay, sys, linkDeviceId, order[..|order| - 1], now), linkDeviceId,
                     order[|order| - 1], now)
  }

  ghost predicate DistinctIds(devices: seq<AnnouncedDevice>) {
    forall i, j :: 0 <= i < j < |devices| ==> devices[i].id != devices[j].id
  }

  predicate Wins(relay: Id, st: State, device: AnnouncedDevice) {
    device.online && Takes(relay, st, device)
  }

  function Winners(relay: Id, st: State, devices: seq<AnnouncedDevice>): set<Id> {
    set device | device in devices && Wins(relay, st, device) :: device.id
  }

  function Losers(relay: Id, st: State, linkDeviceId: Id, devices: seq<AnnouncedDevice>): set<Id> {
    OwnedBy(st.entries, linkDeviceId) - Winners(relay, st, devices)
  }

  function Republished(relay: Id, device: AnnouncedDevice): AnnouncedDevice {
    AnnouncedDevice(device.id, device.name, true, [relay] + device.via)
  }

  // ---------- one increment ----------

  /// With a fresh number an announcement is accepted exactly when the current route is absent, or
  /// announced over at least as many hops.
  lemma AnnounceNowExact(relay: Id, sys: System, link: Handle, device: AnnouncedDevice, now: int)
    requires TableInvariant(relay, sys)
    ensures TableInvariant(relay, AnnounceNow(relay, sys, link, device, now))
    ensures Takes(relay, sys.state, device) <==>
            IsRoutable(relay, device.via) && Accepts(sys.state, device, sys.counter)
    ensures var after := AnnounceNow(relay, sys, link, device, now);
            if Takes(relay, sys.state, device) then
              && after.state == Installed(sys.state, link.deviceId, link, device, sys.counter, now)
              && after.log == sys.log + [Online(Republished(relay, device))]
            else
              after.state == sys.state && after.log == sys.log
  {
    if IsRoutable(relay, device.via) {
      var drawn := Next(relay, sys, Draw);
      StepKeepsTable(relay, sys, Draw);
      StepKeepsTable(relay, drawn, Announce(link.deviceId, link, device, sys.counter, now));
    }
  }

  // ---------- the installing half ----------

  ghost predicate IsInstalled(after: State, link: Handle, device: AnnouncedDevice, now: int) {
    && device.id in after.entries
    && after.entries[device.id]
       == AnnouncedEntry(link.deviceId, link, device, after.entries[device.id].sequence, now)
  }

  ghost predicate PassEffect(relay: Id, before: State, after: State, link: Handle,
                             devices: seq<AnnouncedDevice>, now: int)
  {
    var won := Winners(relay, before, devices);
    && after.entries.Keys == before.entries.Keys + won
    && (forall device :: device in devices && Wins(relay, before, device) ==> IsInstalled(after, link, device, now))
    && (forall id :: id in before.entries && id !in won ==> after.entries[id] == before.entries[id])
    && after.withdrawn == before.withdrawn - won
    && after.relayLinks == before.relayLinks
  }

  function OnlineChanges(relay: Id, st: State, devices: seq<AnnouncedDevice>): seq<Change> {
    if devices == [] then []
    else
      var device := devices[|devices| - 1];
      OnlineChanges(relay, st, devices[..|devices| - 1])
      + if Wins(relay, st, device) then [Online(Republished(relay, device))] else []
  }

  lemma WinnersGrow(relay: Id, st: State, devices: seq<AnnouncedDevice>)
    requires devices != [] && DistinctIds(devices)
    ensures var front, last := devices[..|devices| - 1], devices[|devices| - 1];
            && last.id !in Winners(relay, st, front)
            && DistinctIds(front)
            && Winners(relay, st, devices)
               == Winners(relay, st, front) + (if Wins(relay, st, last) then {last.id} else {})
            && (forall d :: d in devices <==> d in front || d == last)
            && (forall d :: d in front ==> d.id != last.id)
  {
    var front, last := devices[..|devices| - 1], devices[|devices| - 1];
    assert devices == front + [last];
  }

  /// Installing other devices does not change whether a device is taken.
  lemma TakesUnaffected(relay: Id, before: State, middle: State, link: Handle, devices: seq<AnnouncedDevice>, now: int)
    requires devices != [] && DistinctIds(devices)
    requires PassEffect(relay, before, middle, link, devices[..|devices| - 1], now)
    ensures Takes(relay, middle, devices[|devices| - 1]) <==> Takes(relay, before, devices[|devices| - 1])
  {
    WinnersGrow(relay, before, devices);
  }

  lemma {:induction false} AnnounceAllExact(relay: Id, sys: System, link: Handle, devices: seq<AnnouncedDevice>,
                                            now: int)
    requires TableInvariant(relay, sys) && DistinctIds(devices)
    ensures var pass := AnnounceAll(relay, sys, link, devices, now);
            && TableInvariant(relay, pass.sys)
            && pass.installed == Winners(relay, sys.state, devices)
            && PassEffect(relay, sys.state, pass.sys.state, link, devices, now)
            && pass.sys.log == sys.log + OnlineChanges(relay, sys.state, devices)
  {
    if devices == [] {
      assert sys.log + [] == sys.log;
      assert sys.state.withdrawn - {} == sys.state.withdrawn;
    } else {
      var front, last := devices[..|devices| - 1], devices[|devices| - 1];
      WinnersGrow(relay, sys.state, devices);
      AnnounceAllExact(relay, sys, link, front, now);
      var pass := AnnounceAll(relay, sys, link, front, now);
      TakesUnaffected(relay, sys.state, pass.sys.state, link, devices, now);
      AnnounceNowExact(relay, pass.sys, link, last, now);
      if Wins(relay, sys.state, last) {
        InstallStep(relay, sys.state, pass.sys.state, link, devices, pass.sys.counter, now);
      } else {
        SkipStep(relay, sys.state, pass.sys.state, link, devices, now);
      }
    }
  }

  lemma SkipStep(relay: Id, before: State, middle: State, link: Handle, devices: seq<AnnouncedDevice>, now: int)
    requires devices != [] && DistinctIds(devices)
    requires PassEffect(relay, before, middle, link, devices[..|devices| - 1], now)
    requires !Wins(relay, before, devices[|devices| - 1])
    ensures PassEffect(relay, before, middle, link, devices, now)
    ensures OnlineChanges(relay, before, devices) == OnlineChanges(relay, before, devices[..|devices| - 1])
    ensures Winners(relay, before, devices) == Winners(relay, before, devices[..|devices| - 1])
  {
    WinnersGrow(relay, before, devices);
    assert Winners(relay, before, devices) == Winners(relay, before, devices[..|devices| - 1]);
  }

  lemma InstallStep(relay: Id, before: State, middle: State, link: Handle, devices: seq<AnnouncedDevice>,
                    sequence: nat, now: int)
    requires devices != [] && DistinctIds(devices)
    requires PassEffect(relay, before, middle, link, devices[..|devices| - 1], now)
    requires Wins(relay, before, devices[|devices| - 1])
    ensures PassEffect(relay, before, Installed(middle, link.deviceId, link, devices[|devices| - 1], sequence, now),
                       link, devices, now)
  {
    var front, last := devices[..|devices| - 1], devices[|devices| - 1];
    WinnersGrow(relay, before, devices);
    var after := Installed(middle, link.deviceId, link, last, sequence, now);
    var won := Winners(relay, before, front);
    assert before.withdrawn - won - {last.id} == before.withdrawn - (won + {last.id});
    forall d | d in devices && Wins(relay, before, d)
      ensures IsInstalled(after, link, d, now)
    {
      if d != last {
        assert IsInstalled(middle, link, d, now);
      }
    }
  }

  // ---------- the withdrawing half ----------

  function Remembered(st: State, linkDeviceId: Id, ids: set<Id>, now: int): map<Id, WithdrawnDevice> {
    map id | id in ids && id in st.entries ::
      WithdrawnDevice(linkDeviceId, KnownDevice(st.entries[id].device.name, now))
  }

  function OfflineOf(order: seq<Id>): seq<Change> {
    seq(|order|, i requires 0 <= i < |order| => Offline(order[i]))
  }

  lemma WithdrawOne(relay: Id, sys: System, linkDeviceId: Id, id: Id, now: int)
    requires TableInvariant(relay, sys) && id in OwnedBy(sys.state.entries, linkDeviceId)
    ensures var after := WithdrawNow(relay, sys, linkDeviceId, id, now);
            && TableInvariant(relay, after)
            && after.state == Withdrawn(sys.state, linkDeviceId, id, now)
            && after.log == sys.log + [Offline(id)]
  {
    StepKeepsTable(relay, sys, Withdraw(linkDeviceId, id, now));
  }

  lemma OfflineOfGrows(front: seq<Id>, last: Id)
    ensures OfflineOf(front + [last]) == OfflineOf(front) + [Offline(last)]
  {}

  lemma WithdrawStep(st: State, middle: State, linkDeviceId: Id, gone: set<Id>, last: Id, now: int)
    requires last !in gone && last in OwnedBy(st.entries, linkDeviceId)
    requires middle.entries == st.entries - gone
    requires middle.withdrawn == st.withdrawn + Remembered(st, linkDeviceId, gone, now)
    ensures last in OwnedBy(middle.entries, linkDeviceId)
    ensures var after := Withdrawn(middle, linkDeviceId, last, now);
            && after.entries == st.entries - (gone + {last})
            && after.withdrawn == st.withdrawn + Remembered(st, linkDeviceId, gone + {last}, now)
  {
    assert middle.entries[last] == st.entries[last];
    assert st.entries - gone - {last} == st.entries - (gone + {last});
  }

  /// The table and the log once the devices of `gone` were withdrawn in some order.
  ghost predicate WithdrawnAll(sys: System, after: System, linkDeviceId: Id, order: seq<Id>, gone: set<Id>, now: int) {
    && after.state.entries == sys.state.entries - gone
    && after.state.withdrawn == sys.state.withdrawn + Remembered(sys.state, linkDeviceId, gone, now)
    && after.state.relayLinks == sys.state.relayLinks
    && after.log == sys.log + OfflineOf(order)
  }

  lemma WithdrawOneMore(relay: Id, sys: System, middle: System, linkDeviceId: Id, front: seq<Id>, gone: set<Id>,
                        last: Id, now: int)
    requires TableInvariant(relay, middle) && WithdrawnAll(sys, middle, linkDeviceId, front, gone, now)
    requires last !in gone && last in OwnedBy(sys.state.entries, linkDeviceId)
    ensures var after := WithdrawNow(relay, middle, linkDeviceId, last, now);
            && TableInvariant(relay, after)
            && WithdrawnAll(sys, after, linkDeviceId, front + [last], gone + {last}, now)
  {
    WithdrawStep(sys.state, middle.state, linkDeviceId, gone, last, now);
    WithdrawOne(relay, middle, linkDeviceId, last, now);
    OfflineOfGrows(front, last);
  }

  lemma {:induction false} WithdrawAllExact(relay: Id, sys: System, linkDeviceId: Id, order: seq<Id>, gone: set<Id>,
                                            now: int)
    requires TableInvariant(relay, sys) && Enumerates(order, gone)
    requires gone <= OwnedBy(sys.state.entries, linkDeviceId)
    ensures TableInvariant(relay, WithdrawAll(relay, sys, linkDeviceId, order, now))
    ensures WithdrawnAll(sys, WithdrawAll(relay, sys, linkDeviceId, order, now), linkDeviceId, order, gone, now)
  {
    if order == [] {
      assert gone == {};
      assert OfflineOf(order) == [] && sys.log + [] == sys.log;
      assert sys.state.entries - gone == sys.state.entries;
      assert sys.state.withdrawn + Remembered(sys.state, linkDeviceId, gone, now) == sys.state.withdrawn;
    } else {
      var front, last := order[..|order| - 1], order[|order| - 1];
      var most := gone - {last};
      assert order == front + [last];
      WithdrawAllExact(relay, sys, linkDeviceId, front, most, now);
      var before := WithdrawAll(relay, sys, linkDeviceId, front, now);
      WithdrawOneMore(relay, sys, before, linkDeviceId, front, most, last, now);
      assert gone == most + {last};
    }
  }

  // ---------- the whole snapshot ----------

  /// `apply_announcement` for one order of the leftovers: what the link owned before and the
  /// snapshot did not install.
  function SnapshotResult(relay: Id, sys: System, link: Handle, devices: seq<AnnouncedDevice>, order: seq<Id>, now: int)
    : System
  {
    WithdrawAll(relay, AnnounceAll(relay, sys, link, devices, now).sys, link.deviceId, order, now)
  }

  ghost predicate SnapshotOrder(relay: Id, sys: System, link: Handle, devices: seq<AnnouncedDevice>, order: seq<Id>,
                                now: int)
  {
    Enumerates(order, OwnedBy(sys.state.entries, link.deviceId) - AnnounceAll(relay, sys, link, devices, now).installed)
  }

  /// The table after a snapshot, without reference to any order.
  ghost predicate SnapshotTable(relay: Id, before: State, after: State, link: Handle, devices: seq<AnnouncedDevice>,
                                now: int)
  {
    var won := Winners(relay, before, devices);
    var lost := Losers(relay, before, link.deviceId, devices);
    && after.entries.Keys == (before.entries.Keys - lost) + won
    && (forall device :: device in devices && Wins(relay, before, device) ==> IsInstalled(after, link, device, now))
    && (forall id :: id in after.entries && id !in won ==> after.entries[id] == before.entries[id])
    && after.withdrawn == (before.withdrawn - won) + Remembered(before, link.deviceId, lost, now)
    && after.relayLinks == before.relayLinks
  }

  /// What a snapshot publishes: each winner online once, then each leftover offline once.
  ghost predicate SnapshotPublishes(relay: Id, before: State, link: Handle, devices: seq<AnnouncedDevice>,
                                    changes: seq<Change>)
  {
    && NoDuplicates(changes)
    && (forall c :: c in changes <==>
          match c
          case Online(shown) =>
            exists device :: device in devices && Wins(relay, before, device) && shown == Republished(relay, device)
          case Offline(id) => id in Losers(relay, before, link.deviceId, devices))
  }

  lemma {:induction false} OnlineChangesExact(relay: Id, st: State, devices: seq<AnnouncedDevice>)
    requires DistinctIds(devices)
    ensures var changes := OnlineChanges(relay, st, devices);
            && NoDuplicates(changes)
            && (forall c :: c in changes <==>
                  && c.Online?
                  && exists device ::
                       device in devices && Wins(relay, st, device) && c.device == Republished(relay, device))
  {
    if devices != [] {
      var front, last := devices[..|devices| - 1], devices[|devices| - 1];
      WinnersGrow(relay, st, devices);
      OnlineChangesExact(relay, st, front);
      assert last in devices;
      forall c | c in OnlineChanges(relay, st, front)
        ensures c.Online? && c.device.id != last.id
      {}
    }
  }

  /// The leftovers are remembered as they were before the snapshot.
  lemma RememberedAlike(relay: Id, before: State, middle: State, link: Handle, devices: seq<AnnouncedDevice>, now: int)
    requires PassEffect(relay, before, middle, link, devices, now)
    ensures var lost := Losers(relay, before, link.deviceId, devices);
            Remembered(middle, link.deviceId, lost, now) == Remembered(before, link.deviceId, lost, now)
  {}

  lemma SnapshotTableFromHalves(relay: Id, before: State, middle: State, after: State, link: Handle,
                                devices: seq<AnnouncedDevice>, now: int)
    requires PassEffect(relay, before, middle, link, devices, now)
    requires var lost := Losers(relay, before, link.deviceId, devices);
             && after.entries == middle.entries - lost
             && after.withdrawn == middle.withdrawn + Remembered(middle, link.deviceId, lost, now)
             && after.relayLinks == middle.relayLinks
    ensures SnapshotTable(relay, before, after, link, devices, now)
  {
    var lost := Losers(relay, before, link.deviceId, devices);
    RememberedAlike(relay, before, middle, link, devices, now);
    forall device | device in devices && Wins(relay, before, device)
      ensures IsInstalled(after, link, device, now)
    {
      assert IsInstalled(middle, link, device, now);
      assert device.id in Winners(relay, before, devices);
    }
  }

  lemma SnapshotHalves(relay: Id, sys: System, link: Handle, devices: seq<AnnouncedDevice>, order: seq<Id>, now: int)
    requires TableInvariant(relay, sys) && DistinctIds(devices)
    requires SnapshotOrder(relay, sys, link, devices, order, now)
    ensures var middle := AnnounceAll(relay, sys, link, devices, now).sys.state;
            var after := SnapshotResult(relay, sys, link, devices, order, now);
            var lost := Losers(relay, sys.state, link.deviceId, devices);
            && Enumerates(order, lost)
            && TableInvariant(relay, after)
            && PassEffect(relay, sys.state, middle, link, devices, now)
            && after.state.entries == middle.entries - lost
            && after.state.withdrawn == middle.withdrawn + Remembered(middle, link.deviceId, lost, now)
            && after.state.relayLinks == middle.relayLinks
            && after.log == sys.log + OnlineChanges(relay, sys.state, devices) + OfflineOf(order)
  {
    var pass := AnnounceAll(relay, sys, link, devices, now);
    AnnounceAllExact(relay, sys, link, devices, now);
    LosersStayOwned(relay, sys.state, pass.sys.state, link, devices, now);
    WithdrawAllExact(relay, pass.sys, link.deviceId, order, Losers(relay, sys.state, link.deviceId, devices), now);
  }

  /// A snapshot with distinct ids has one result whatever the order of the leftovers: the online,
  /// followable devices whose route is absent or no shorter become this link's; everything else the
  /// link owned is withdrawn and remembered; nothing else changes; and a device of the first group
  /// is published online exactly once and never offline.
  lemma SnapshotIsExact(relay: Id, sys: System, link: Handle, devices: seq<AnnouncedDevice>, order: seq<Id>, now: int)
    requires TableInvariant(relay, sys) && DistinctIds(devices)
    requires SnapshotOrder(relay, sys, link, devices, order, now)
    ensures var after := SnapshotResult(relay, sys, link, devices, order, now);
            && TableInvariant(relay, after)
            && SnapshotTable(relay, sys.state, after.state, link, devices, now)
            && (exists changes :: after.log == sys.log + changes
                  && SnapshotPublishes(relay, sys.state, link, devices, changes))
  {
    SnapshotHalves(relay, sys, link, devices, order, now);
    var after := SnapshotResult(relay, sys, link, devices, order, now);
    var middle := AnnounceAll(relay, sys, link, devices, now).sys.state;
    SnapshotTableFromHalves(relay, sys.state, middle, after.state, link, devices, now);
    SnapshotLog(relay, sys.state, link, devices, order);
    LogGrouped(sys.log, OnlineChanges(relay, sys.state, devices), OfflineOf(order));
  }

  lemma LogGrouped(log: seq<Change>, ons: seq<Change>, offs: seq<Change>)
    ensures log + ons + offs == log + (ons + offs)
  {}

  /// A listed device that is online on a chain this relay can use, and that has no route, or an announced
  /// one that is no shorter.
  ghost predicate CanTakeOver(relay: Id, st: State, device: AnnouncedDevice) {
    && device.online && |device.via| < MAX_HOPS && relay !in device.via
    && (device.id in st.entries ==>
          match st.entries[device.id].device.route
          case Direct(_) => false
          case Via(_, hops) => |device.via| <= |hops|)
  }

  /// What a snapshot makes of one device: routed over the link as listed; or, if the link had announced
  /// it, withdrawn and remembered under its name; or left alone.
  ghost predicate SnapshotOutcome(relay: Id, before: State, after: State, link: Handle, devices: seq<AnnouncedDevice>,
                                  now: int, id: Id)
  {
    if exists device :: device in devices && device.id == id && CanTakeOver(relay, before, device) then
      && id in after.entries && id !in after.withdrawn
      && after.entries[id].origin == AnnouncedBy(link.deviceId)
      && exists device ::
           && device in devices && device.id == id && CanTakeOver(relay, before, device)
           && after.entries[id].device == OnlineDevice(id, device.name, Desktop, now, None, None, Via(link, device.via))
    else if id in before.entries && before.entries[id].origin == AnnouncedBy(link.deviceId) then
      && id !in after.entries && id in after.withdrawn
      && after.withdrawn[id] == WithdrawnDevice(link.deviceId, KnownDevice(before.entries[id].device.name, now))
    else
      && (id in after.entries <==> id in before.entries)
      && (id in after.entries ==> after.entries[id] == before.entries[id])
      && (id in after.withdrawn <==> id in before.withdrawn)
      && (id in after.withdrawn ==> after.withdrawn[id] == before.withdrawn[id])
  }

  lemma TakeOverIsWin(relay: Id, st: State, device: AnnouncedDevice)
    ensures CanTakeOver(relay, st, device) <==> Wins(relay, st, device)
  {}

  lemma SnapshotTableIsOutcome(relay: Id, before: State, after: State, link: Handle, devices: seq<AnnouncedDevice>,
                               now: int, id: Id)
    requires SnapshotTable(relay, before, after, link, devices, now)
    requires before.entries.Keys !! before.withdrawn.Keys
    ensures SnapshotOutcome(relay, before, after, link, devices, now, id)
  {
    forall device | device in devices
      ensures CanTakeOver(relay, before, device) <==> Wins(relay, before, device)
    {
      TakeOverIsWin(relay, before, device);
    }
    if id in Winners(relay, before, devices) {
      var device :| device in devices && Wins(relay, before, device) && device.id == id;
      assert IsInstalled(after, link, device, now);
    }
  }

  /// The outcome of a snapshot with distinct ids, device by device.
  lemma SnapshotHasOutcome(relay: Id, sys: System, link: Handle, devices: seq<AnnouncedDevice>, order: seq<Id>,
                           now: int)
    requires TableInvariant(relay, sys) && DistinctIds(devices)
    requires SnapshotOrder(relay, sys, link, devices, order, now)
    ensures var after := SnapshotResult(relay, sys, link, devices, order, now).state;
            && (forall id :: SnapshotOutcome(relay, sys.state, after, link, devices, now, id))
            && after.relayLinks == sys.state.relayLinks
  {
    SnapshotIsExact(relay, sys, link, devices, order, now);
    var after := SnapshotResult(relay, sys, link, devices, order, now).state;
    forall id
      ensures SnapshotOutcome(relay, sys.state, after, link, devices, now, id)
    {
      SnapshotTableIsOutcome(relay, sys.state, after, link, devices, now, id);
    }
  }

  lemma LosersStayOwned(relay: Id, before: State, after: State, link: Handle, devices: seq<AnnouncedDevice>, now: int)
    requires PassEffect(relay, before, after, link, devices, now)
    ensures Losers(relay, before, link.deviceId, devices) <= OwnedBy(after.entries, link.deviceId)
  {}

  lemma SnapshotLog(relay: Id, st: State, link: Handle, devices: seq<AnnouncedDevice>, order: seq<Id>)
    requires DistinctIds(devices) && Enumerates(order, Losers(relay, st, link.deviceId, devices))
    ensures SnapshotPublishes(relay, st, link, devices, OnlineChanges(relay, st, devices) + OfflineOf(order))
  {
    var ons, offs := OnlineChanges(relay, st, devices), OfflineOf(order);
    OnlineChangesExact(relay, st, devices);
    forall c
      ensures c in offs <==> c.Offline? && c.deviceId in Losers(relay, st, link.deviceId, devices)
    {
      if c.Offline? && c.deviceId in order {
        var i :| 0 <= i < |order| && order[i] == c.deviceId;
        assert offs[i] == c;
      }
    }
    assert forall c :: c in ons + offs <==> c in ons || c in offs;
    forall i, j | 0 <= i < j < |ons + offs|
      ensures (ons + offs)[i] != (ons + offs)[j]
    {
      if i < |ons| <= j {
        assert ons[i] in ons && offs[j - |ons|] in offs;
      }
    }
  }

  /// After a snapshot everything the link owns was in it and is routed over the tunnel it came on.
  lemma SnapshotRehomesLink(relay: Id, sys: System, link: Handle, devices: seq<AnnouncedDevice>, order: seq<Id>,
                            now: int)
    requires TableInvariant(relay, sys) && DistinctIds(devices)
    requires SnapshotOrder(relay, sys, link, devices, order, now)
    ensures var after := SnapshotResult(relay, sys, link, devices, order, now).state;
            && OwnedBy(after.entries, link.deviceId) == Winners(relay, sys.state, devices)
            && (forall id :: id in OwnedBy(after.entries, link.deviceId) ==>
                  after.entries[id].device.route.Link() == link)
  {
    SnapshotIsExact(relay, sys, link, devices, order, now);
    var after := SnapshotResult(relay, sys, link, devices, order, now).state;
    forall id | id in Winners(relay, sys.state, devices)
      ensures IsAnnouncedBy(after.entries[id], link.deviceId) && after.entries[id].device.route.Link() == link
    {
      var device :| device in devices && Wins(relay, sys.state, device) && device.id == id;
      assert IsInstalled(after, link, device, now);
    }
  }

  /// A longer path from the same link is refused, and the snapshot that carried it then withdraws
  /// the device: a snapshot repeated after a missed Offline need not reproduce what it lists.
  lemma LongerPathIsWithdrawn(relay: Id, sys: System, link: Handle, devices: seq<AnnouncedDevice>, order: seq<Id>,
                              now: int, device: AnnouncedDevice)
    requires TableInvariant(relay, sys) && DistinctIds(devices)
    requires SnapshotOrder(relay, sys, link, devices, order, now)
    requires device in devices && device.id in OwnedBy(sys.state.entries, link.deviceId)
    requires |device.via| > |sys.state.entries[device.id].device.route.Hops()|
    ensures var after := SnapshotResult(relay, sys, link, devices, order, now).state;
            device.id !in after.entries && device.id in after.withdrawn
  {
    SnapshotIsExact(relay, sys, link, devices, order, now);
    assert forall other :: other in devices && other.id == device.id ==> other == device;
    assert device.id !in Winners(relay, sys.state, devices);
  }
}
