/// What ends with a link: the exact effect of a matching disconnect, and when every announced entry
/// and withdrawn record names a link that is still up.
module LinkScope {
  import opened Protocol
  import opened RoutingTable
  import opened RegistryRuns
  import opened Snapshots
  import opened StepEffects

  lemma {:induction false} OfflineChangesAreExact(relay: Id, entries: map<Id, Entry>, ids: seq<Id>)
    requires NoDuplicates(ids)
    ensures var changes := OfflineChanges(relay, entries, ids);
            && NoDuplicates(changes)
            && (forall c :: c in changes <==>
                  c.Offline? && c.deviceId in ids && c.deviceId in Announced(relay, entries))
  {
    if ids != [] {
      var front, last := ids[..|ids| - 1], ids[|ids| - 1];
      OfflineChangesAreExact(relay, entries, front);
      var own := Transition(last, AnnouncementIn(relay, entries, last), None);
      assert OfflineChanges(relay, entries, ids) == OfflineChanges(relay, entries, front) + own;
      assert last !in front;
      assert forall id :: id in ids <==> id in front || id == last;
    }
  }

  /// A disconnect whose serial is no longer the registered one changes nothing. A matching one takes
  /// exactly the link and what it announced, forgets exactly its withdrawn devices and its relay
  /// ids, leaves every other entry alone, and publishes one Offline per destination it took.
  lemma DisconnectIsScoped(relay: Id, sys: System, link: Id, serial: nat, order: seq<Id>)
    requires TableInvariant(relay, sys) && Enabled(relay, sys, Disconnect(link, serial, order))
    ensures var after := Next(relay, sys, Disconnect(link, serial, order));
            if link in sys.state.entries && sys.state.entries[link].origin == DirectTunnel(serial) then
              && Unregisters(sys.state, after.state, link)
              && exists changes :: after.log == sys.log + changes && PublishedByEnd(sys.state.entries, link, changes)
            else
              after == sys
  {
    if IsRegistered(sys.state, link, serial) {
      var ids := [link] + order;
      assert link !in OwnedBy(sys.state.entries, link);
      assert NoDuplicates(ids);
      var changes := OfflineChanges(relay, sys.state.entries, ids);
      OfflineChangesAreExact(relay, sys.state.entries, ids);
      AnnouncedAreDestinations(relay, sys);
      assert forall id :: id in ids <==> EndsWith(sys.state.entries, link, id);
      assert Next(relay, sys, Disconnect(link, serial, order)).log == sys.log + changes;
      assert PublishedByEnd(sys.state.entries, link, changes);
    }
  }

  // ---------- every announced entry names a live link ----------

  ghost predicate LinksLive(st: State) {
    && (forall id :: id in st.entries && st.entries[id].origin.AnnouncedBy? ==>
                       IsDirect(st, st.entries[id].origin.linkDeviceId))
    && (forall id :: id in st.withdrawn ==> IsDirect(st, st.withdrawn[id].linkDeviceId))
  }

  /// The one way to lose the property: an announcement applied, and accepted, for a link that is
  /// not registered.
  ghost predicate SpeaksForLiveLink(sys: System, event: Event) {
    event.Announce? && Accepts(sys.state, event.device, event.sequence) ==> IsDirect(sys.state, event.linkDeviceId)
  }

  lemma AnnounceKeepsLinksLive(relay: Id, sys: System, event: Event)
    requires event.Announce? && Accepts(sys.state, event.device, event.sequence)
    requires TableInvariant(relay, sys) && LinksLive(sys.state)
    ensures LinksLive(Next(relay, sys, event).state) <==> IsDirect(sys.state, event.linkDeviceId)
  {
    var st, after := sys.state, Next(relay, sys, event).state;
    assert after.entries[event.device.id].origin == AnnouncedBy(event.linkDeviceId);
    forall l
      ensures IsDirect(after, l) <==> IsDirect(st, l)
    {}
  }

  lemma DisconnectKeepsLinksLive(relay: Id, sys: System, link: Id, serial: nat, order: seq<Id>)
    requires IsRegistered(sys.state, link, serial) && LinksLive(sys.state)
    ensures LinksLive(Next(relay, sys, Disconnect(link, serial, order)).state)
  {
    var st, after := sys.state, Disconnected(sys.state, link);
    forall l | l != link && IsDirect(st, l)
      ensures IsDirect(after, l)
    {}
    forall id | id in after.entries && after.entries[id].origin.AnnouncedBy?
      ensures IsDirect(after, after.entries[id].origin.linkDeviceId)
    {
      assert !IsAnnouncedBy(st.entries[id], link);
    }
  }

  /// A step keeps every announced entry and withdrawn record on a live link exactly when it is not
  /// an accepted announcement for a link that is gone.
  lemma StepKeepsLinksLive(relay: Id, sys: System, event: Event)
    requires TableInvariant(relay, sys) && Enabled(relay, sys, event) && LinksLive(sys.state)
    ensures LinksLive(Next(relay, sys, event).state) <==> SpeaksForLiveLink(sys, event)
  {
    var st, after := sys.state, Next(relay, sys, event).state;
    if event.Announce? && Accepts(st, event.device, event.sequence) {
      AnnounceKeepsLinksLive(relay, sys, event);
    } else if event.Disconnect? && IsRegistered(st, event.deviceId, event.serial) {
      DisconnectKeepsLinksLive(relay, sys, event.deviceId, event.serial, event.order);
    } else {
      forall l | IsDirect(st, l)
        ensures IsDirect(after, l)
      {}
    }
  }

  ghost predicate FramesOnlyWhileRegistered(relay: Id, events: seq<Event>) {
    events != [] ==>
      var front, last := events[..|events| - 1], events[|events| - 1];
      && FramesOnlyWhileRegistered(relay, front)
      && (last.Announce? ==> IsDirect(Run(relay, front).state, last.linkDeviceId))
  }

  lemma {:induction false} LinksLiveInEveryGuardedRun(relay: Id, events: seq<Event>)
    requires ValidRun(relay, events) && FramesOnlyWhileRegistered(relay, events)
    ensures LinksLive(Run(relay, events).state)
  {
    if events != [] {
      var front := events[..|events| - 1];
      LinksLiveInEveryGuardedRun(relay, front);
      TableHoldsInEveryRun(relay, front);
      StepKeepsLinksLive(relay, Run(relay, front), events[|events| - 1]);
    }
  }

  /// Without the guard the property is lost, in every run: once a link is deregistered, a routable
  /// frame still read from its tunnel installs an entry for it.
  lemma LateFrameOutlivesItsLink(relay: Id, events: seq<Event>, link: Handle, device: AnnouncedDevice, now: int)
    requires ValidRun(relay, events) && !IsDirect(Run(relay, events).state, link.deviceId)
    requires IsRoutable(relay, device.via) && device.id !in Run(relay, events).state.entries
    ensures var late := events + [Draw] + [Announce(link.deviceId, link, device, Run(relay, events).counter, now)];
            ValidRun(relay, late) && !LinksLive(Run(relay, late).state)
  {
    var sys := Run(relay, events);
    var frame := Announce(link.deviceId, link, device, sys.counter, now);
    RunAppend(relay, events, Draw);
    RunAppend(relay, events + [Draw], frame);
    var after := Run(relay, events + [Draw] + [frame]).state;
    assert after.entries[device.id].origin == AnnouncedBy(link.deviceId);
  }

  /// A device an unregistered link announced: which events leave that entry as it is.
  predicate LeavesOrphan(event: Event, link: Id, id: Id) {
    match event
    case Draw => true
    case Connect(presence, _, _) => presence.deviceId != link && presence.deviceId != id
    case Disconnect(_, _, _) => true
    case Announce(_, _, device, _, _) => device.id != id
    case Withdraw(linkDeviceId, deviceId, _) => linkDeviceId != link || deviceId != id
  }

  ghost predicate Orphaned(st: State, link: Id, id: Id) {
    id in st.entries && IsAnnouncedBy(st.entries[id], link) && !IsDirect(st, link)
  }

  lemma StepKeepsOrphan(relay: Id, sys: System, event: Event, link: Id, id: Id)
    requires Orphaned(sys.state, link, id) && LeavesOrphan(event, link, id)
    ensures Orphaned(Next(relay, sys, event).state, link, id)
    ensures Next(relay, sys, event).state.entries[id] == sys.state.entries[id]
  {}

  /// Until the link device registers again, no disconnect of anyone removes such an entry: only a
  /// registration, a better announcement or a withdrawal of the device itself does.
  lemma {:induction false} OrphansStay(relay: Id, events: seq<Event>, n: nat, link: Id, id: Id)
    requires ValidRun(relay, events) && n <= |events|
    requires Orphaned(Run(relay, events[..n]).state, link, id)
    requires forall i :: n <= i < |events| ==> LeavesOrphan(events[i], link, id)
    ensures Orphaned(Run(relay, events).state, link, id)
    ensures Run(relay, events).state.entries[id] == Run(relay, events[..n]).state.entries[id]
  {
    if n == |events| {
      assert events[..n] == events;
    } else {
      var front := events[..|events| - 1];
      assert front[..n] == events[..n];
      OrphansStay(relay, front, n, link, id);
      StepKeepsOrphan(relay, Run(relay, front), events[|events| - 1], link, id);
    }
  }

  /// Once the link device has registered again, the end of that session takes the entry along.
  lemma OrphansEndWithNextSession(relay: Id, sys: System, presence: Presence, serial: nat, now: int, order: seq<Id>,
                                  id: Id)
    requires TableInvariant(relay, sys) && Orphaned(sys.state, presence.deviceId, id)
    requires Enabled(relay, sys, Connect(presence, serial, now))
    requires Enabled(relay, Next(relay, sys, Connect(presence, serial, now)),
                     Disconnect(presence.deviceId, serial, order))
    ensures var connected := Next(relay, sys, Connect(presence, serial, now));
            && id in connected.state.entries
            && id !in Next(relay, connected, Disconnect(presence.deviceId, serial, order)).state.entries
  {
    var connected := Next(relay, sys, Connect(presence, serial, now));
    assert id != presence.deviceId ==> connected.state.entries[id] == sys.state.entries[id];
    assert IsRegistered(connected.state, presence.deviceId, serial);
  }

  // ---------- every announced route leads over its link's registered tunnel ----------

  ghost predicate IsTunnelOf(st: State, linkDeviceId: Id, handle: Handle) {
    IsDirect(st, linkDeviceId) && st.entries[linkDeviceId].device.route == Direct(handle)
  }

  ghost predicate OverRegisteredTunnel(st: State, id: Id)
    requires id in st.entries
  {
    st.entries[id].origin.AnnouncedBy? ==>
      IsTunnelOf(st, st.entries[id].origin.linkDeviceId, st.entries[id].device.route.Link())
  }

  ghost predicate TunnelsCurrent(st: State) {
    forall id {:trigger OverRegisteredTunnel(st, id)} :: id in st.entries ==> OverRegisteredTunnel(st, id)
  }

  /// The two ways to lose the property: a link device that owns routes registers another tunnel, or an
  /// announcement is accepted that did not come over the registered one.
  ghost predicate KeepsTunnels(st: State, event: Event) {
    match event
    case Connect(presence, _, _) =>
      OwnedBy(st.entries, presence.deviceId) != {} ==> IsTunnelOf(st, presence.deviceId, presence.handle)
    case Announce(linkDeviceId, link, device, sequence, _) =>
      Accepts(st, device, sequence) ==> IsTunnelOf(st, linkDeviceId, link)
    case _ => true
  }

  lemma ConnectKeepsTunnelsIff(relay: Id, sys: System, event: Event)
    requires event.Connect? && TableInvariant(relay, sys) && TunnelsCurrent(sys.state)
    ensures TunnelsCurrent(Next(relay, sys, event).state) <==> KeepsTunnels(sys.state, event)
  {
    var st, after, device := sys.state, Next(relay, sys, event).state, event.presence.deviceId;
    if TunnelsCurrent(after) {
      forall id | id in OwnedBy(st.entries, device)
        ensures IsTunnelOf(st, device, event.presence.handle)
      {
        assert OverRegisteredTunnel(st, id);
        assert OverRegisteredTunnel(after, id);
      }
    }
    if KeepsTunnels(st, event) {
      forall id | id in after.entries
        ensures OverRegisteredTunnel(after, id)
      {
        if id != device {
          assert OverRegisteredTunnel(st, id);
          assert IsAnnouncedBy(st.entries[id], device) ==> id in OwnedBy(st.entries, device);
        }
      }
    }
  }

  lemma AnnounceKeepsTunnelsIff(relay: Id, sys: System, event: Event)
    requires event.Announce? && TableInvariant(relay, sys) && TunnelsCurrent(sys.state)
    ensures TunnelsCurrent(Next(relay, sys, event).state) <==> KeepsTunnels(sys.state, event)
  {
    var st, after, device := sys.state, Next(relay, sys, event).state, event.device.id;
    if Accepts(st, event.device, event.sequence) {
      assert EntryIsAnnounced(after, event);
      assert OverRegisteredTunnel(after, device) <==> IsTunnelOf(st, event.linkDeviceId, event.link);
      forall id | id in after.entries && id != device
        ensures OverRegisteredTunnel(after, id)
      {
        assert OverRegisteredTunnel(st, id);
      }
    }
  }

  ghost predicate EntryIsAnnounced(after: State, event: Event)
    requires event.Announce?
  {
    && event.device.id in after.entries
    && after.entries[event.device.id].origin == AnnouncedBy(event.linkDeviceId)
    && after.entries[event.device.id].device.route == Via(event.link, event.device.via)
  }

  lemma RemovalKeepsTunnels(relay: Id, sys: System, event: Event)
    requires event.Draw? || event.Disconnect? || event.Withdraw?
    requires TunnelsCurrent(sys.state)
    ensures TunnelsCurrent(Next(relay, sys, event).state)
  {
    var st, after := sys.state, Next(relay, sys, event).state;
    forall id | id in after.entries
      ensures OverRegisteredTunnel(after, id)
    {
      assert OverRegisteredTunnel(st, id);
    }
  }

  /// A step keeps every announced route on the tunnel its link is registered with, if and only if it is
  /// neither of the two.
  lemma StepKeepsTunnelsIff(relay: Id, sys: System, event: Event)
    requires TableInvariant(relay, sys) && Enabled(relay, sys, event) && TunnelsCurrent(sys.state)
    ensures TunnelsCurrent(Next(relay, sys, event).state) <==> KeepsTunnels(sys.state, event)
  {
    match event
    case Connect(_, _, _) => ConnectKeepsTunnelsIff(relay, sys, event);
    case Announce(_, _, _, _, _) => AnnounceKeepsTunnelsIff(relay, sys, event);
    case _ => RemovalKeepsTunnels(relay, sys, event);
  }

  /// After a link device registered again, the snapshot on its new tunnel brings its routes there.
  lemma SnapshotRestoresTunnel(relay: Id, sys: System, link: Handle, devices: seq<AnnouncedDevice>, order: seq<Id>,
                               now: int)
    requires TableInvariant(relay, sys) && DistinctIds(devices)
    requires SnapshotOrder(relay, sys, link, devices, order, now)
    requires IsTunnelOf(sys.state, link.deviceId, link)
    ensures var after := SnapshotResult(relay, sys, link, devices, order, now).state;
            && IsTunnelOf(after, link.deviceId, link)
            && (forall id :: id in OwnedBy(after.entries, link.deviceId) ==> OverRegisteredTunnel(after, id))
  {
    SnapshotIsExact(relay, sys, link, devices, order, now);
    SnapshotRehomesLink(relay, sys, link, devices, order, now);
    assert link.deviceId !in Winners(relay, sys.state, devices);
  }
}
