/// Properties of whole runs of one registry: published chains only get shorter while a device stays
/// reachable, and the installed route is the best one offered since the device was last absent.
module RouteHistory {
  import opened Protocol
  import opened RoutingTable
  import opened RegistryRuns

  // ---------- published chains never lengthen ----------

  ghost predicate Shortening(log: seq<Change>) {
    log != [] ==>
      var front, last := log[..|log| - 1], log[|log| - 1];
      && Shortening(front)
      && (last.Online? && last.device.id in Replay(front) ==>
            |last.device.via| <= |Replay(front)[last.device.id].via|)
  }

  lemma ShorteningOne(log: seq<Change>, change: Change)
    requires Shortening(log)
    requires change.Online? && change.device.id in Replay(log) ==>
               |change.device.via| <= |Replay(log)[change.device.id].via|
    ensures Shortening(log + [change])
  {
    assert (log + [change])[..|log|] == log;
  }

  lemma {:induction false} OfflineChangesKeepShortening(relay: Id, log: seq<Change>, entries: map<Id, Entry>,
                                                        ids: seq<Id>)
    requires Shortening(log)
    ensures Shortening(log + OfflineChanges(relay, entries, ids))
  {
    if ids == [] {
      assert log + [] == log;
    } else {
      var front, last := ids[..|ids| - 1], ids[|ids| - 1];
      OfflineChangesKeepShortening(relay, log, entries, front);
      var published := log + OfflineChanges(relay, entries, front);
      var own := Transition(last, AnnouncementIn(relay, entries, last), None);
      assert log + OfflineChanges(relay, entries, ids) == published + own;
      if own == [] {
        assert published + own == published;
      } else {
        ShorteningOne(published, Offline(last));
      }
    }
  }

  lemma StepKeepsShortening(relay: Id, sys: System, event: Event)
    requires TableInvariant(relay, sys) && LogRefinesTable(relay, sys) && Enabled(relay, sys, event)
    requires Shortening(sys.log)
    ensures Shortening(Next(relay, sys, event).log)
  {
    var entries := sys.state.entries;
    assert forall log: seq<Change> :: log + [] == log;
    match event
    case Draw =>
    case Connect(presence, serial, now) =>
      var id := presence.deviceId;
      var current := AnnouncementOf(relay, DirectEntry(presence, serial, now));
      if current.Some? {
        ShorteningOne(sys.log, Online(current.value));
      } else if AnnouncementIn(relay, entries, id).Some? {
        ShorteningOne(sys.log, Offline(id));
      }
    case Disconnect(deviceId, serial, order) =>
      OfflineChangesKeepShortening(relay, sys.log, entries, [deviceId] + order);
    case Announce(linkDeviceId, link, device, sequence, now) =>
      if Accepts(sys.state, device, sequence) {
        var current := AnnouncementOf(relay, AnnouncedEntry(linkDeviceId, link, device, sequence, now));
        ShorteningOne(sys.log, Online(current.value));
      }
    case Withdraw(linkDeviceId, deviceId, _) =>
      if deviceId in OwnedBy(entries, linkDeviceId) && AnnouncementIn(relay, entries, deviceId).Some? {
        ShorteningOne(sys.log, Offline(deviceId));
      }
  }

  lemma {:induction false} ShorteningInEveryRun(relay: Id, events: seq<Event>)
    requires ValidRun(relay, events)
    ensures Shortening(Run(relay, events).log)
  {
    if events != [] {
      var front := events[..|events| - 1];
      ShorteningInEveryRun(relay, front);
      TableHoldsInEveryRun(relay, front);
      LogRefinesTableInEveryRun(relay, front);
      StepKeepsShortening(relay, Run(relay, front), events[|events| - 1]);
    }
  }

  lemma {:induction false} ShorteningPrefix(log: seq<Change>, n: nat)
    requires Shortening(log) && n <= |log|
    ensures Shortening(log[..n])
    decreases |log|
  {
    if n == |log| {
      assert log[..n] == log;
    } else {
      ShorteningPrefix(log[..|log| - 1], n);
      assert log[..|log| - 1][..n] == log[..n];
    }
  }

  /// While no Offline for the device is published, the replay keeps it, on a chain no longer than
  /// the one published at `i`.
  lemma {:induction false} ReplayStaysWithin(log: seq<Change>, i: nat, n: nat)
    requires Shortening(log) && i < n <= |log| && log[i].Online?
    requires forall k :: i < k < n ==> log[k] != Offline(log[i].device.id)
    ensures log[i].device.id in Replay(log[..n])
    ensures |Replay(log[..n])[log[i].device.id].via| <= |log[i].device.via|
    decreases n
  {
    assert log[..n][..n - 1] == log[..n - 1];
    if n > i + 1 {
      ReplayStaysWithin(log, i, n - 1);
      ShorteningPrefix(log, n);
    }
  }

  lemma ReplayNext(log: seq<Change>, n: nat)
    requires Shortening(log) && n < |log|
    ensures Replay(log[..n + 1]) == Apply(Replay(log[..n]), log[n])
    ensures log[n].Online? && log[n].device.id in Replay(log[..n]) ==>
              |log[n].device.via| <= |Replay(log[..n])[log[n].device.id].via|
  {
    ShorteningPrefix(log, n + 1);
    assert log[..n + 1][..n] == log[..n];
  }

  /// In every run, between two Offline changes for a device, its published chains never get longer.
  lemma ChainsNeverLengthen(relay: Id, events: seq<Event>, i: nat, j: nat)
    requires ValidRun(relay, events)
    requires i < j < |Run(relay, events).log|
    requires Run(relay, events).log[i].Online? && Run(relay, events).log[j].Online?
    requires Run(relay, events).log[i].device.id == Run(relay, events).log[j].device.id
    requires forall k :: i < k < j ==> Run(relay, events).log[k] != Offline(Run(relay, events).log[i].device.id)
    ensures |Run(relay, events).log[j].device.via| <= |Run(relay, events).log[i].device.via|
  {
    var log := Run(relay, events).log;
    ShorteningInEveryRun(relay, events);
    ReplayStaysWithin(log, i, j);
    ReplayNext(log, j);
  }

  // ---------- the best route, whatever the lock order ----------

  /// An announcement that reached the lock, accepted or not.
  datatype Offer = Offer(linkDeviceId: Id, link: Handle, hops: seq<Id>, sequence: nat)

  /// What happened to one device since it was last absent.
  datatype Standing = Standing(offers: seq<Offer>, tunnel: Option<Handle>)

  const FORGOTTEN := Standing([], None)

  /// Fewer hops first, then the later sequence number.
  predicate Better(a: Offer, b: Offer) {
    |a.hops| < |b.hops| || (|a.hops| == |b.hops| && a.sequence > b.sequence)
  }

  function StandingAfter(relay: Id, sys: System, event: Event, id: Id, was: Standing): Standing {
    if id !in Next(relay, sys, event).state.entries then
      FORGOTTEN
    else if event.Connect? && event.presence.deviceId == id then
      was.(tunnel := Some(event.presence.handle))
    else if event.Announce? && event.device.id == id then
      was.(offers := was.offers + [Offer(event.linkDeviceId, event.link, event.device.via, event.sequence)])
    else
      was
  }

  function StandingOf(relay: Id, events: seq<Event>, id: Id): Standing {
    if events == [] then FORGOTTEN
    else
      var front := events[..|events| - 1];
      StandingAfter(relay, Run(relay, front), events[|events| - 1], id, StandingOf(relay, front, id))
  }

  ghost predicate Installs(entry: Entry, offer: Offer) {
    && entry.device.route == Via(offer.link, offer.hops)
    && entry.origin == AnnouncedBy(offer.linkDeviceId)
    && entry.sequence == offer.sequence
  }

  ghost predicate IsBest(offers: seq<Offer>, best: Offer) {
    && best in offers
    && (forall o :: o in offers ==> o == best || Better(best, o))
  }

  ghost predicate RouteIsBest(sys: System, id: Id, standing: Standing) {
    && (id !in sys.state.entries ==> standing == FORGOTTEN)
    && (forall o :: o in standing.offers ==> o.sequence < sys.counter && o.sequence !in sys.held)
    && (id in sys.state.entries ==>
          var entry := sys.state.entries[id];
          if standing.tunnel.Some? then
            entry.device.route == Direct(standing.tunnel.value)
          else
            exists best :: IsBest(standing.offers, best) && Installs(entry, best))
  }

  lemma AnnounceKeepsBest(relay: Id, sys: System, event: Event, id: Id, was: Standing)
    requires event.Announce? && event.device.id == id
    requires TableInvariant(relay, sys) && Enabled(relay, sys, event) && RouteIsBest(sys, id, was)
    ensures RouteIsBest(Next(relay, sys, event), id, StandingAfter(relay, sys, event, id, was))
  {
    var after := Next(relay, sys, event);
    var standing := StandingAfter(relay, sys, event, id, was);
    var offer := Offer(event.linkDeviceId, event.link, event.device.via, event.sequence);
    assert standing.offers == was.offers + [offer];
    assert offer in standing.offers;
    if was.tunnel.None? {
      if id !in sys.state.entries {
        assert IsBest(standing.offers, offer) && Installs(after.state.entries[id], offer);
      } else {
        var best :| IsBest(was.offers, best) && Installs(sys.state.entries[id], best);
        assert best.sequence != offer.sequence;
        var now := if Accepts(sys.state, event.device, event.sequence) then offer else best;
        assert IsBest(standing.offers, now) && Installs(after.state.entries[id], now);
      }
    }
  }

  lemma StepKeepsBest(relay: Id, sys: System, event: Event, id: Id, was: Standing)
    requires TableInvariant(relay, sys) && Enabled(relay, sys, event) && RouteIsBest(sys, id, was)
    ensures RouteIsBest(Next(relay, sys, event), id, StandingAfter(relay, sys, event, id, was))
  {
    var after := Next(relay, sys, event);
    if event.Announce? && event.device.id == id {
      AnnounceKeepsBest(relay, sys, event, id, was);
    } else if id in after.state.entries && !(event.Connect? && event.presence.deviceId == id) {
      assert id in sys.state.entries && after.state.entries[id] == sys.state.entries[id];
    }
  }

  /// Since a device was last absent its route is the direct tunnel if one connected, and otherwise
  /// the best of every routable announcement, including the refused ones.
  lemma {:induction false} BestRouteInEveryRun(relay: Id, events: seq<Event>, id: Id)
    requires ValidRun(relay, events)
    ensures RouteIsBest(Run(relay, events), id, StandingOf(relay, events, id))
  {
    if events != [] {
      var front := events[..|events| - 1];
      BestRouteInEveryRun(relay, front, id);
      TableHoldsInEveryRun(relay, front);
      StepKeepsBest(relay, Run(relay, front), events[|events| - 1], id, StandingOf(relay, front, id));
    }
  }

  /// Two runs that offered the same routes, in whatever order the lock was taken, route alike.
  lemma LockOrderDoesNotMatter(relay: Id, left: seq<Event>, right: seq<Event>, id: Id)
    requires ValidRun(relay, left) && ValidRun(relay, right)
    requires id in Run(relay, left).state.entries && id in Run(relay, right).state.entries
    requires StandingOf(relay, left, id).tunnel == StandingOf(relay, right, id).tunnel
    requires forall o :: o in StandingOf(relay, left, id).offers <==> o in StandingOf(relay, right, id).offers
    ensures Run(relay, left).state.entries[id].device.route == Run(relay, right).state.entries[id].device.route
  {
    BestRouteInEveryRun(relay, left, id);
    BestRouteInEveryRun(relay, right, id);
  }
}
