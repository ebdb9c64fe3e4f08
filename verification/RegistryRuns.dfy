/// The registry as a state machine. Sequence numbers are drawn before the lock is taken, so a step
/// may hold a number older than one already installed; every block under the lock is one step, and
/// what it publishes is appended to the log in lock order.
module RegistryRuns {
  import opened Protocol
  import opened RoutingTable

  datatype System = System(state: State, counter: nat, held: set<nat>, log: seq<Change>)

  datatype Event =
    | Draw
    | Connect(presence: Presence, serial: nat, now: int)
    | Disconnect(deviceId: Id, serial: nat, order: seq<Id>)
    | Announce(linkDeviceId: Id, link: Handle, device: AnnouncedDevice, sequence: nat, now: int)
    | Withdraw(linkDeviceId: Id, deviceId: Id, now: int)

  const INITIAL := System(EMPTY, 0, {}, [])

  /// When a step can happen: a numbered step uses a number that was drawn and not yet used, an
  /// announcement reached the lock only if it is routable, and a link's devices go in some order.
  ghost predicate Enabled(relay: Id, sys: System, event: Event) {
    match event
    case Draw => true
    case Connect(_, serial, _) => serial in sys.held
    case Disconnect(deviceId, _, order) => Enumerates(order, OwnedBy(sys.state.entries, deviceId))
    case Announce(_, _, device, sequence, _) => sequence in sys.held && IsRoutable(relay, device.via)
    case Withdraw(_, _, _) => true
  }

  function Next(relay: Id, sys: System, event: Event): System {
    match event
    case Draw =>
      sys.(counter := sys.counter + 1, held := sys.held + {sys.counter})
    case Connect(presence, serial, now) =>
      var id := presence.deviceId;
      System(
        Connected(sys.state, presence, serial, now),
        sys.counter,
        sys.held - {serial},
        sys.log + Transition(id, AnnouncementIn(relay, sys.state.entries, id),
                             AnnouncementOf(relay, DirectEntry(presence, serial, now))))
    case Disconnect(deviceId, serial, order) =>
      if IsRegistered(sys.state, deviceId, serial) then
        sys.(state := Disconnected(sys.state, deviceId),
             log := sys.log + OfflineChanges(relay, sys.state.entries, [deviceId] + order))
      else
        sys
    case Announce(linkDeviceId, link, device, sequence, now) =>
      var used := sys.(held := sys.held - {sequence});
      if Accepts(sys.state, device, sequence) then
        used.(state := Installed(sys.state, linkDeviceId, link, device, sequence, now),
              log := sys.log + Transition(device.id, AnnouncementIn(relay, sys.state.entries, device.id),
                                          AnnouncementOf(
                                            relay, AnnouncedEntry(linkDeviceId, link, device, sequence, now))))
      else
        used
    case Withdraw(linkDeviceId, deviceId, now) =>
      if deviceId in OwnedBy(sys.state.entries, linkDeviceId) then
        sys.(state := Withdrawn(sys.state, linkDeviceId, deviceId, now),
             log := sys.log + Transition(deviceId, AnnouncementIn(relay, sys.state.entries, deviceId), None))
      else
        sys
  }

  function Run(relay: Id, events: seq<Event>): System {
    if events == [] then INITIAL
    else Next(relay, Run(relay, events[..|events| - 1]), events[|events| - 1])
  }

  ghost predicate ValidRun(relay: Id, events: seq<Event>) {
    events != [] ==>
      && ValidRun(relay, events[..|events| - 1])
      && Enabled(relay, Run(relay, events[..|events| - 1]), events[|events| - 1])
  }

  lemma RunAppend(relay: Id, events: seq<Event>, event: Event)
    requires ValidRun(relay, events) && Enabled(relay, Run(relay, events), event)
    ensures ValidRun(relay, events + [event])
    ensures Run(relay, events + [event]) == Next(relay, Run(relay, events), event)
  {
    assert (events + [event])[..|events|] == events;
  }

  // ---------- the table invariant ----------

  /// What holds of every single entry: it is filed under its own id, its origin says how it is
  /// routed, its number was drawn and used, and an announced route can be followed.
  ghost predicate EntryOk(relay: Id, id: Id, entry: Entry, counter: nat, held: set<nat>) {
    && entry.device.deviceId == id
    && (entry.origin.DirectTunnel? <==> entry.device.route.Direct?)
    && (entry.origin.DirectTunnel? ==> entry.origin.serial == entry.sequence)
    && entry.sequence < counter
    && entry.sequence !in held
    && (entry.device.route.Via? ==> IsRoutable(relay, entry.device.route.hops) && entry.device.kind == Desktop)
  }

  ghost predicate NumbersDistinct(entries: map<Id, Entry>) {
    forall a, b :: a in entries && b in entries && a != b ==> entries[a].sequence != entries[b].sequence
  }

  /// Every declared relay id names a live direct link.
  ghost predicate RelayLinksLive(st: State) {
    forall r :: r in st.relayLinks ==> IsDirect(st, st.relayLinks[r])
  }

  ghost predicate TableInvariant(relay: Id, sys: System) {
    var st := sys.state;
    && (forall id :: id in st.entries ==> EntryOk(relay, id, st.entries[id], sys.counter, sys.held))
    && NumbersDistinct(st.entries)
    && (forall n :: n in sys.held ==> n < sys.counter)
    && st.entries.Keys !! st.withdrawn.Keys
    && RelayLinksLive(st)
  }

  /// One more entry, under a number no other entry has.
  lemma InsertKeepsDistinct(entries: map<Id, Entry>, id: Id, entry: Entry)
    requires NumbersDistinct(entries)
    requires forall other :: other in entries ==> entries[other].sequence != entry.sequence
    ensures NumbersDistinct(entries[id := entry])
  {}

  lemma RemoveKeepsDistinct(entries: map<Id, Entry>, gone: set<Id>)
    requires NumbersDistinct(entries)
    ensures NumbersDistinct(entries - gone)
  {}

  lemma DisconnectKeepsRelayLinks(st: State, deviceId: Id)
    requires RelayLinksLive(st)
    ensures RelayLinksLive(Disconnected(st, deviceId))
  {
    var after := Disconnected(st, deviceId);
    forall r | r in after.relayLinks
      ensures IsDirect(after, after.relayLinks[r])
    {
      assert IsDirect(st, st.relayLinks[r]);
    }
  }

  lemma ConnectKeepsTable(relay: Id, sys: System, event: Event)
    requires event.Connect? && TableInvariant(relay, sys) && Enabled(relay, sys, event)
    ensures TableInvariant(relay, Next(relay, sys, event))
  {
    var entry := DirectEntry(event.presence, event.serial, event.now);
    InsertKeepsDistinct(sys.state.entries, event.presence.deviceId, entry);
  }

  lemma DisconnectKeepsTable(relay: Id, sys: System, event: Event)
    requires event.Disconnect? && TableInvariant(relay, sys) && Enabled(relay, sys, event)
    ensures TableInvariant(relay, Next(relay, sys, event))
  {
    RemoveKeepsDistinct(sys.state.entries, {event.deviceId} + OwnedBy(sys.state.entries, event.deviceId));
    DisconnectKeepsRelayLinks(sys.state, event.deviceId);
  }

  lemma AnnounceKeepsTable(relay: Id, sys: System, event: Event)
    requires event.Announce? && TableInvariant(relay, sys) && Enabled(relay, sys, event)
    ensures TableInvariant(relay, Next(relay, sys, event))
  {
    var entry := AnnouncedEntry(event.linkDeviceId, event.link, event.device, event.sequence, event.now);
    InsertKeepsDistinct(sys.state.entries, event.device.id, entry);
  }

  lemma WithdrawKeepsTable(relay: Id, sys: System, event: Event)
    requires event.Withdraw? && TableInvariant(relay, sys) && Enabled(relay, sys, event)
    ensures TableInvariant(relay, Next(relay, sys, event))
  {
    RemoveKeepsDistinct(sys.state.entries, {event.deviceId});
  }

  lemma StepKeepsTable(relay: Id, sys: System, event: Event)
    requires TableInvariant(relay, sys) && Enabled(relay, sys, event)
    ensures TableInvariant(relay, Next(relay, sys, event))
  {
    match event
    case Draw =>
    case Connect(_, _, _) => ConnectKeepsTable(relay, sys, event);
    case Disconnect(_, _, _) => DisconnectKeepsTable(relay, sys, event);
    case Announce(_, _, _, _, _) => AnnounceKeepsTable(relay, sys, event);
    case Withdraw(_, _, _) => WithdrawKeepsTable(relay, sys, event);
  }

  lemma {:induction false} TableHoldsInEveryRun(relay: Id, events: seq<Event>)
    requires ValidRun(relay, events)
    ensures TableInvariant(relay, Run(relay, events))
  {
    if events != [] {
      TableHoldsInEveryRun(relay, events[..|events| - 1]);
      StepKeepsTable(relay, Run(relay, events[..|events| - 1]), events[|events| - 1]);
    }
  }

  // ---------- the log refines the table ----------

  function Apply(known: map<Id, AnnouncedDevice>, change: Change): map<Id, AnnouncedDevice> {
    match change
    case Online(device) => known[device.id := device]
    case Offline(id) => known - {id}
  }

  /// What a subscriber that saw every change from the start believes is reachable.
  function Replay(log: seq<Change>): map<Id, AnnouncedDevice> {
    if log == [] then map[] else Apply(Replay(log[..|log| - 1]), log[|log| - 1])
  }

  ghost predicate LogRefinesTable(relay: Id, sys: System) {
    Replay(sys.log) == Announced(relay, sys.state.entries)
  }

  lemma AnnouncedAfterUpdate(relay: Id, before: map<Id, Entry>, after: map<Id, Entry>, id: Id)
    requires id in after ==> after[id].device.deviceId == id
    requires before - {id} == after - {id}
    ensures Announced(relay, after)
         == var current := AnnouncementIn(relay, after, id);
            if current.Some? then Announced(relay, before)[id := current.value] else Announced(relay, before) - {id}
  {
    forall k | k != id
      ensures (k in before <==> k in after) && (k in before ==> before[k] == after[k])
    {
      assert k in before <==> k in before - {id};
      assert k in after <==> k in after - {id};
      assert k in before ==> (before - {id})[k] == (after - {id})[k];
    }
  }

  lemma ReplayOne(log: seq<Change>, change: Change)
    ensures Replay(log + [change]) == Apply(Replay(log), change)
  {
    assert (log + [change])[..|log|] == log;
  }

  /// Publishing the transition of one device keeps the replay in step with the table.
  lemma TransitionTracks(relay: Id, log: seq<Change>, before: map<Id, Entry>, after: map<Id, Entry>, id: Id)
    requires Replay(log) == Announced(relay, before)
    requires id in after ==> after[id].device.deviceId == id
    requires before - {id} == after - {id}
    ensures Replay(log + Transition(id, AnnouncementIn(relay, before, id), AnnouncementIn(relay, after, id)))
         == Announced(relay, after)
  {
    AnnouncedAfterUpdate(relay, before, after, id);
    var previous, current := AnnouncementIn(relay, before, id), AnnouncementIn(relay, after, id);
    if current.Some? {
      ReplayOne(log, Online(current.value));
    } else if previous.Some? {
      ReplayOne(log, Offline(id));
    } else {
      assert log + [] == log;
      assert id !in Announced(relay, before);
      assert Announced(relay, before) - {id} == Announced(relay, before);
    }
  }

  /// Publishing that one more device is gone, whether or not it already was.
  lemma OfflineTracks(relay: Id, log: seq<Change>, entries: map<Id, Entry>, gone: set<Id>, last: Id)
    requires Replay(log) == Announced(relay, entries - gone)
    requires forall id :: id in entries ==> entries[id].device.deviceId == id
    ensures Replay(log + Transition(last, AnnouncementIn(relay, entries, last), None))
         == Announced(relay, entries - (gone + {last}))
  {
    var before, after := entries - gone, entries - (gone + {last});
    if last in gone {
      assert before == after;
      RepeatedOffline(log, last, Transition(last, AnnouncementIn(relay, entries, last), None));
    } else {
      assert before - {last} == after - {last};
      TransitionTracks(relay, log, before, after, last);
    }
  }

  lemma {:induction false} OfflineChangesTrack(relay: Id, log: seq<Change>, entries: map<Id, Entry>, ids: seq<Id>)
    requires Replay(log) == Announced(relay, entries)
    requires forall id :: id in entries ==> entries[id].device.deviceId == id
    ensures Replay(log + OfflineChanges(relay, entries, ids))
         == Announced(relay, entries - (set id | id in ids))
  {
    if ids == [] {
      assert log + OfflineChanges(relay, entries, ids) == log;
      assert entries - (set id | id in ids) == entries;
    } else {
      var front, last := ids[..|ids| - 1], ids[|ids| - 1];
      var gone := set id | id in front;
      OfflineChangesTrack(relay, log, entries, front);
      OfflineTracks(relay, log + OfflineChanges(relay, entries, front), entries, gone, last);
      assert (set id | id in ids) == gone + {last};
      assert log + OfflineChanges(relay, entries, ids)
          == log + OfflineChanges(relay, entries, front) + Transition(last, AnnouncementIn(relay, entries, last), None);
    }
  }

  lemma RepeatedOffline(log: seq<Change>, id: Id, own: seq<Change>)
    requires id !in Replay(log)
    requires own == [] || own == [Offline(id)]
    ensures Replay(log + own) == Replay(log)
  {
    if own == [] {
      assert log + own == log;
    } else {
      assert (log + own)[..|log|] == log;
      assert Replay(log) - {id} == Replay(log);
    }
  }

  lemma DisconnectKeepsLogRefinement(relay: Id, sys: System, deviceId: Id, serial: nat, order: seq<Id>)
    requires TableInvariant(relay, sys) && LogRefinesTable(relay, sys)
    requires Enabled(relay, sys, Disconnect(deviceId, serial, order)) && IsRegistered(sys.state, deviceId, serial)
    ensures LogRefinesTable(relay, Next(relay, sys, Disconnect(deviceId, serial, order)))
  {
    var entries := sys.state.entries;
    OfflineChangesTrack(relay, sys.log, entries, [deviceId] + order);
    assert (set id | id in [deviceId] + order) == {deviceId} + OwnedBy(entries, deviceId);
  }

  lemma ConnectKeepsLogRefinement(relay: Id, sys: System, presence: Presence, serial: nat, now: int)
    requires TableInvariant(relay, sys) && LogRefinesTable(relay, sys)
    ensures LogRefinesTable(relay, Next(relay, sys, Connect(presence, serial, now)))
  {
    var before, after := sys.state.entries, Next(relay, sys, Connect(presence, serial, now)).state.entries;
    assert before - {presence.deviceId} == after - {presence.deviceId};
    TransitionTracks(relay, sys.log, before, after, presence.deviceId);
  }

  lemma AnnounceKeepsLogRefinement(relay: Id, sys: System, event: Event)
    requires event.Announce? && Accepts(sys.state, event.device, event.sequence)
    requires TableInvariant(relay, sys) && LogRefinesTable(relay, sys)
    ensures LogRefinesTable(relay, Next(relay, sys, event))
  {
    var before, after := sys.state.entries, Next(relay, sys, event).state.entries;
    assert before - {event.device.id} == after - {event.device.id};
    TransitionTracks(relay, sys.log, before, after, event.device.id);
  }

  lemma WithdrawKeepsLogRefinement(relay: Id, sys: System, event: Event)
    requires event.Withdraw? && event.deviceId in OwnedBy(sys.state.entries, event.linkDeviceId)
    requires TableInvariant(relay, sys) && LogRefinesTable(relay, sys)
    ensures LogRefinesTable(relay, Next(relay, sys, event))
  {
    var before, after := sys.state.entries, Next(relay, sys, event).state.entries;
    assert before - {event.deviceId} == after - {event.deviceId};
    TransitionTracks(relay, sys.log, before, after, event.deviceId);
  }

  lemma StepKeepsLogRefinement(relay: Id, sys: System, event: Event)
    requires TableInvariant(relay, sys) && Enabled(relay, sys, event) && LogRefinesTable(relay, sys)
    ensures LogRefinesTable(relay, Next(relay, sys, event))
  {
    match event
    case Draw =>
    case Connect(presence, serial, now) => ConnectKeepsLogRefinement(relay, sys, presence, serial, now);
    case Disconnect(deviceId, serial, order) =>
      if IsRegistered(sys.state, deviceId, serial) {
        DisconnectKeepsLogRefinement(relay, sys, deviceId, serial, order);
      }
    case Announce(_, _, device, sequence, _) =>
      if Accepts(sys.state, device, sequence) {
        AnnounceKeepsLogRefinement(relay, sys, event);
      }
    case Withdraw(linkDeviceId, deviceId, _) =>
      if deviceId in OwnedBy(sys.state.entries, linkDeviceId) {
        WithdrawKeepsLogRefinement(relay, sys, event);
      }
  }

  /// Replaying every published change from nothing gives exactly what the relay announces.
  lemma {:induction false} LogRefinesTableInEveryRun(relay: Id, events: seq<Event>)
    requires ValidRun(relay, events)
    ensures LogRefinesTable(relay, Run(relay, events))
  {
    if events != [] {
      var front := events[..|events| - 1];
      LogRefinesTableInEveryRun(relay, front);
      TableHoldsInEveryRun(relay, front);
      StepKeepsLogRefinement(relay, Run(relay, front), events[|events| - 1]);
    }
  }
}
