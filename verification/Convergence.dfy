/// One relay feeding another: the downstream subscribes to its own changes, sends a snapshot, then
/// every change since the subscription. Changes the snapshot already reflects are sent again.
module Convergence {
  import opened Protocol
  import opened RoutingTable
  import opened RegistryRuns
  import opened RouteHistory
  import opened Snapshots
  import opened ControlFrames
  import opened ChangeFeed

  /// The upstream after the snapshot and every change of `log` from point `p` up to point `n`.
  ghost function Upstream(upstream: Id, sys: System, link: Handle, devices: seq<AnnouncedDevice>, order: seq<Id>,
                          log: seq<Change>, p: nat, n: nat, now: int): System
    requires p <= n <= |log|
  {
    var snapshot := ControlFrame.Announce(devices);
    FeedAll(upstream, Handled(upstream, sys, link, Relay, snapshot, order, now), link, log, p, n, now)
  }

  /// The device has no route, or one this link announced, on this tunnel or an earlier one.
  ghost predicate OnlyThisLink(sys: System, link: Handle, id: Id) {
    id in sys.state.entries ==> IsAnnouncedBy(sys.state.entries[id], link.deviceId)
  }

  // ---------- what is published ----------

  lemma {:induction false} OfflineChangesAreOffline(relay: Id, entries: map<Id, Entry>, ids: seq<Id>)
    ensures forall c :: c in OfflineChanges(relay, entries, ids) ==> c.Offline?
  {
    if ids != [] {
      OfflineChangesAreOffline(relay, entries, ids[..|ids| - 1]);
    }
  }

  ghost predicate OnlyOnline(log: seq<Change>) {
    forall c :: c in log && c.Online? ==> c.device.online
  }

  lemma StepKeepsOnlyOnline(relay: Id, sys: System, event: Event)
    requires Enabled(relay, sys, event) && OnlyOnline(sys.log)
    ensures OnlyOnline(Next(relay, sys, event).log)
  {
    if event.Disconnect? {
      OfflineChangesAreOffline(relay, sys.state.entries, [event.deviceId] + event.order);
    }
  }

  lemma {:induction false} PublishedOnline(relay: Id, events: seq<Event>)
    requires ValidRun(relay, events)
    ensures OnlyOnline(Run(relay, events).log)
  {
    if events != [] {
      PublishedOnline(relay, events[..|events| - 1]);
      StepKeepsOnlyOnline(relay, Run(relay, events[..|events| - 1]), events[|events| - 1]);
    }
  }

  lemma {:induction false} ReplayIsPublished(log: seq<Change>, id: Id)
    requires id in Replay(log)
    ensures Online(Replay(log)[id]) in log && Replay(log)[id].id == id
  {
    var front, last := log[..|log| - 1], log[|log| - 1];
    if !Concerns(last, id) {
      ReplayIsPublished(front, id);
    }
  }

  lemma KnownIsPublished(log: seq<Change>, q: nat)
    requires OnlyOnline(log) && q <= |log|
    ensures forall d :: d in Replay(log[..q]) ==> Replay(log[..q])[d].online && Replay(log[..q])[d].id == d
  {
    forall d | d in Replay(log[..q])
      ensures Replay(log[..q])[d].online && Replay(log[..q])[d].id == d
    {
      ReplayIsPublished(log[..q], d);
    }
  }

  // ---------- a device nobody else routes ----------

  /// The upstream already holds the device on a shorter chain than the one offered.
  predicate Outgrown(view: Option<Shown>, offered: Option<Shown>) {
    view.Some? && offered.Some? && |view.value.via| < |offered.value.via|
  }

  ghost function AfterSnapshot(view: Option<Shown>, offered: Option<Shown>): Option<Shown> {
    if Outgrown(view, offered) then None else offered
  }

  /// Right after a snapshot the upstream holds what the downstream offered at that point, except
  /// that a device it held on a shorter chain is withdrawn.
  lemma SnapshotIsHeld(upstream: Id, sys: System, link: Handle, known: map<Id, AnnouncedDevice>,
                       devices: seq<AnnouncedDevice>, order: seq<Id>, now: int, id: Id)
    requires TableInvariant(upstream, sys) && OnlyThisLink(sys, link, id)
    requires forall d :: d in known ==> known[d].online && known[d].id == d
    requires SnapshotFrame(known, upstream, devices)
    requires SnapshotOrder(upstream, sys, link, devices, order, now)
    ensures var after := SnapshotResult(upstream, sys, link, devices, order, now);
            && TableInvariant(upstream, after)
            && Uncontested(after, link, id)
            && View(after, link, id) == AfterSnapshot(View(sys, link, id), Offered(upstream, known, id))
  {
    SnapshotIsExact(upstream, sys, link, devices, order, now);
    var after := SnapshotResult(upstream, sys, link, devices, order, now);
    var offered := Offered(upstream, known, id);
    assert id in sys.state.entries ==> EntryOk(upstream, id, sys.state.entries[id], sys.counter, sys.held);
    if offered.Some? && !Outgrown(View(sys, link, id), offered) {
      var device := known[id];
      assert device in devices && Wins(upstream, sys.state, device);
      assert IsInstalled(after.state, link, device, now);
    } else {
      assert id !in Winners(upstream, sys.state, devices);
    }
  }

  /// From what the snapshot left for one device, and from no other entry, follows where it ends.
  lemma OneDeviceFollows(upstream: Id, sys: System, link: Handle, log: seq<Change>, p: nat, q: nat, n: nat,
                         devices: seq<AnnouncedDevice>, order: seq<Id>, now: int, id: Id)
    requires TableInvariant(upstream, sys) && OnlyThisLink(sys, link, id)
    requires Shortening(log) && OnlyOnline(log) && p <= q <= n <= |log|
    requires SnapshotFrame(Replay(log[..q]), upstream, devices)
    requires SnapshotOrder(upstream, sys, link, devices, order, now)
    ensures var after := Upstream(upstream, sys, link, devices, order, log, p, n, now);
            var view, offered := View(sys, link, id), Offered(upstream, Replay(log[..q]), id);
            && TableInvariant(upstream, after)
            && Uncontested(after, link, id)
            && View(after, link, id) == FeedViews(upstream, AfterSnapshot(view, offered), log, p, n, id)
            && (!Outgrown(view, offered) || !Untouched(log, p, n, id) ==>
                  CaughtUp(upstream, Replay(log[..n]), View(after, link, id), id))
  {
    KnownIsPublished(log, q);
    SnapshotIsHeld(upstream, sys, link, Replay(log[..q]), devices, order, now, id);
    var middle := SnapshotResult(upstream, sys, link, devices, order, now);
    FeedAllMatchesView(upstream, middle, link, log, p, n, id, now);
    IncrementsFollow(upstream, log, p, q, n, View(middle, link, id), id);
  }

  // ---------- a device somebody else routes ----------

  /// The device is on a tunnel of its own, or another link announced it.
  ghost predicate Foreign(sys: System, link: Handle, id: Id) {
    id in sys.state.entries && !IsAnnouncedBy(sys.state.entries[id], link.deviceId)
  }

  /// A chain that takes the device over from such an entry.
  predicate TakesOver(upstream: Id, entry: Entry, via: seq<Id>) {
    entry.device.route.Via? && IsRoutable(upstream, via) && |via| <= |entry.device.route.hops|
  }

  predicate ShowsTakeover(upstream: Id, entry: Entry, change: Change, id: Id) {
    change.Online? && change.device.id == id && TakesOver(upstream, entry, change.device.via)
  }

  ghost predicate OfferTakesOver(upstream: Id, entry: Entry, known: map<Id, AnnouncedDevice>, id: Id) {
    id in known && TakesOver(upstream, entry, known[id].via)
  }

  /// The snapshot, or a change sent after it, takes the device over.
  ghost predicate TakenOver(upstream: Id, entry: Entry, log: seq<Change>, p: nat, q: nat, id: Id)
    requires p <= q <= |log|
  {
    || OfferTakesOver(upstream, entry, Replay(log[..q]), id)
    || exists k :: p <= k < |log| && ShowsTakeover(upstream, entry, log[k], id)
  }

  lemma SnapshotMeetsForeign(upstream: Id, sys: System, link: Handle, known: map<Id, AnnouncedDevice>,
                             devices: seq<AnnouncedDevice>, order: seq<Id>, now: int, id: Id)
    requires TableInvariant(upstream, sys) && Foreign(sys, link, id)
    requires forall d :: d in known ==> known[d].online && known[d].id == d
    requires SnapshotFrame(known, upstream, devices)
    requires SnapshotOrder(upstream, sys, link, devices, order, now)
    ensures var after := SnapshotResult(upstream, sys, link, devices, order, now);
            && TableInvariant(upstream, after)
            && if OfferTakesOver(upstream, sys.state.entries[id], known, id)
               then Uncontested(after, link, id) && View(after, link, id) == Offered(upstream, known, id)
               else id in after.state.entries && after.state.entries[id] == sys.state.entries[id]
  {
    SnapshotIsExact(upstream, sys, link, devices, order, now);
    var after := SnapshotResult(upstream, sys, link, devices, order, now);
    if OfferTakesOver(upstream, sys.state.entries[id], known, id) {
      var device := known[id];
      assert device in devices && Wins(upstream, sys.state, device);
      assert IsInstalled(after.state, link, device, now);
    } else {
      assert id !in Winners(upstream, sys.state, devices);
    }
  }

  lemma FeedMeetsForeign(upstream: Id, sys: System, link: Handle, change: Change, id: Id, now: int)
    requires TableInvariant(upstream, sys) && Foreign(sys, link, id)
    ensures var after := Feed(upstream, sys, link, change, now);
            && TableInvariant(upstream, after)
            && if ShowsTakeover(upstream, sys.state.entries[id], change, id)
               then Uncontested(after, link, id) && View(after, link, id) == FeedView(upstream, None, change, id)
               else id in after.state.entries && after.state.entries[id] == sys.state.entries[id]
  {
    match change
    case Online(device) =>
      AnnounceNowExact(upstream, sys, link, AnnouncedDevice(device.id, device.name, true, device.via), now);
    case Offline(other) =>
      StepKeepsTable(upstream, sys, Withdraw(link.deviceId, other, now));
  }

  /// The view started from nothing when change `k` took the device over.
  ghost predicate FollowsSince(upstream: Id, view: Option<Shown>, log: seq<Change>, k: nat, n: nat, id: Id)
    requires k < n <= |log|
  {
    Concerns(log[k], id) && view == FeedViews(upstream, None, log, k, n, id)
  }

  ghost predicate ForeignUntil(upstream: Id, sys: System, after: System, link: Handle, log: seq<Change>, p: nat,
                               n: nat, id: Id)
    requires p <= n <= |log| && id in sys.state.entries
  {
    if exists k :: p <= k < n && ShowsTakeover(upstream, sys.state.entries[id], log[k], id) then
      && Uncontested(after, link, id)
      && exists k :: p <= k < n && FollowsSince(upstream, View(after, link, id), log, k, n, id)
    else
      id in after.state.entries && after.state.entries[id] == sys.state.entries[id]
  }

  lemma ForeignFollows(upstream: Id, sys: System, middle: System, link: Handle, log: seq<Change>, p: nat, n: nat,
                       id: Id, now: int)
    requires TableInvariant(upstream, middle) && Foreign(sys, link, id)
    requires p <= n < |log| && ForeignUntil(upstream, sys, middle, link, log, p, n, id)
    ensures ForeignUntil(upstream, sys, Feed(upstream, middle, link, log[n], now), link, log, p, n + 1, id)
  {
    var after := Feed(upstream, middle, link, log[n], now);
    if exists k :: p <= k < n && ShowsTakeover(upstream, sys.state.entries[id], log[k], id) {
      var k :| p <= k < n && FollowsSince(upstream, View(middle, link, id), log, k, n, id);
      FeedMatchesView(upstream, middle, link, log[n], id, now);
      assert FollowsSince(upstream, View(after, link, id), log, k, n + 1, id);
    } else {
      FeedMeetsForeign(upstream, middle, link, log[n], id, now);
      if ShowsTakeover(upstream, sys.state.entries[id], log[n], id) {
        assert FollowsSince(upstream, View(after, link, id), log, n, n + 1, id);
      }
    }
  }

  lemma {:induction false} FeedAllMeetsForeign(upstream: Id, sys: System, link: Handle, log: seq<Change>, p: nat,
                                               n: nat, id: Id, now: int)
    requires TableInvariant(upstream, sys) && Foreign(sys, link, id) && p <= n <= |log|
    ensures TableInvariant(upstream, FeedAll(upstream, sys, link, log, p, n, now))
    ensures ForeignUntil(upstream, sys, FeedAll(upstream, sys, link, log, p, n, now), link, log, p, n, id)
    decreases n
  {
    if n > p {
      FeedAllMeetsForeign(upstream, sys, link, log, p, n - 1, id, now);
      var middle := FeedAll(upstream, sys, link, log, p, n - 1, now);
      FeedKeepsTable(upstream, middle, link, log[n - 1], now);
      ForeignFollows(upstream, sys, middle, link, log, p, n - 1, id, now);
    }
  }

  lemma FeedKeepsTable(upstream: Id, sys: System, link: Handle, change: Change, now: int)
    requires TableInvariant(upstream, sys)
    ensures TableInvariant(upstream, Feed(upstream, sys, link, change, now))
  {
    match change
    case Online(device) =>
      AnnounceNowExact(upstream, sys, link, AnnouncedDevice(device.id, device.name, true, device.via), now);
    case Offline(other) =>
      StepKeepsTable(upstream, sys, Withdraw(link.deviceId, other, now));
  }

  /// A device somebody else routes keeps that very entry until it is taken over; from then on it
  /// is followed like any other.
  lemma ForeignDeviceFollows(upstream: Id, sys: System, link: Handle, log: seq<Change>, p: nat, q: nat,
                             devices: seq<AnnouncedDevice>, order: seq<Id>, now: int, id: Id)
    requires TableInvariant(upstream, sys) && Foreign(sys, link, id)
    requires Shortening(log) && OnlyOnline(log) && p <= q <= |log|
    requires SnapshotFrame(Replay(log[..q]), upstream, devices)
    requires SnapshotOrder(upstream, sys, link, devices, order, now)
    ensures var after := Upstream(upstream, sys, link, devices, order, log, p, |log|, now);
            && TableInvariant(upstream, after)
            && if TakenOver(upstream, sys.state.entries[id], log, p, q, id)
               then Uncontested(after, link, id) && CaughtUp(upstream, Replay(log), View(after, link, id), id)
               else id in after.state.entries && after.state.entries[id] == sys.state.entries[id]
  {
    var known := Replay(log[..q]);
    KnownIsPublished(log, q);
    SnapshotMeetsForeign(upstream, sys, link, known, devices, order, now, id);
    var middle := SnapshotResult(upstream, sys, link, devices, order, now);
    assert log[..|log|] == log;
    if OfferTakesOver(upstream, sys.state.entries[id], known, id) {
      FeedAllMatchesView(upstream, middle, link, log, p, |log|, id, now);
      IncrementsFollow(upstream, log, p, q, |log|, View(middle, link, id), id);
    } else {
      FeedAllMeetsForeign(upstream, middle, link, log, p, |log|, id, now);
      var after := FeedAll(upstream, middle, link, log, p, |log|, now);
      if TakenOver(upstream, sys.state.entries[id], log, p, q, id) {
        var k :| p <= k < |log| && FollowsSince(upstream, View(after, link, id), log, k, |log|, id);
        IncrementsFollow(upstream, log, k, if k < q then q else k, |log|, None, id);
      }
    }
  }

  // ---------- the two registries together ----------

  /// One device at an upstream that is up to date with the downstream's announcements: it is routed
  /// over this link and nothing else, with exactly the announced name and chain if it can use the
  /// chain, and not at all if the downstream does not announce it.
  ghost predicate Converged(upstream: Id, announced: map<Id, AnnouncedDevice>, after: System, link: Handle, id: Id) {
    var entries := after.state.entries;
    && (id in announced && IsRoutable(upstream, announced[id].via) ==>
          && id in OwnedBy(entries, link.deviceId)
          && entries[id].device.route == Via(link, announced[id].via)
          && entries[id].device.name == announced[id].name)
    && (id in entries ==>
          id in announced && id in OwnedBy(entries, link.deviceId) && entries[id].device.route.Link() == link)
  }

  lemma CaughtUpIsConverged(upstream: Id, announced: map<Id, AnnouncedDevice>, after: System, link: Handle, id: Id)
    requires TableInvariant(upstream, after) && Uncontested(after, link, id)
    requires CaughtUp(upstream, announced, View(after, link, id), id)
    ensures Converged(upstream, announced, after, link, id)
  {
    if id in after.state.entries {
      assert EntryOk(upstream, id, after.state.entries[id], after.counter, after.held);
    }
  }

  lemma RunFacts(relay: Id, events: seq<Event>)
    requires ValidRun(relay, events)
    ensures var sys := Run(relay, events);
            && Replay(sys.log) == Announced(relay, sys.state.entries)
            && Shortening(sys.log) && OnlyOnline(sys.log)
  {
    LogRefinesTableInEveryRun(relay, events);
    ShorteningInEveryRun(relay, events);
    PublishedOnline(relay, events);
  }

  /// On a link that owns nothing yet, a snapshot followed by every change since the earlier
  /// subscription, including those the snapshot already reflects, leaves every device of the upstream
  /// up to date, except one that somebody else routes and that no offered chain took over: its entry
  /// stays as it was.
  lemma UpstreamConverges(relay: Id, events: seq<Event>, upstream: Id, sys: System, link: Handle, p: nat, q: nat,
                          devices: seq<AnnouncedDevice>, order: seq<Id>, now: int, id: Id)
    requires ValidRun(relay, events) && p <= q <= |Run(relay, events).log|
    requires TableInvariant(upstream, sys) && OwnedBy(sys.state.entries, link.deviceId) == {}
    requires SnapshotFrame(Replay(Run(relay, events).log[..q]), upstream, devices)
    requires SnapshotOrder(upstream, sys, link, devices, order, now)
    ensures var log := Run(relay, events).log;
            var announced := Announced(relay, Run(relay, events).state.entries);
            var after := Upstream(upstream, sys, link, devices, order, log, p, |log|, now);
            if id in sys.state.entries && !TakenOver(upstream, sys.state.entries[id], log, p, q, id)
            then id in after.state.entries && after.state.entries[id] == sys.state.entries[id]
            else Converged(upstream, announced, after, link, id)
  {
    var log := Run(relay, events).log;
    var after := Upstream(upstream, sys, link, devices, order, log, p, |log|, now);
    RunFacts(relay, events);
    if id in sys.state.entries {
      assert id !in OwnedBy(sys.state.entries, link.deviceId);
      ForeignDeviceFollows(upstream, sys, link, log, p, q, devices, order, now, id);
      if TakenOver(upstream, sys.state.entries[id], log, p, q, id) {
        CaughtUpIsConverged(upstream, Replay(log), after, link, id);
      }
    } else {
      OneDeviceFollows(upstream, sys, link, log, p, q, |log|, devices, order, now, id);
      assert log[..|log|] == log;
      CaughtUpIsConverged(upstream, Replay(log), after, link, id);
    }
  }

  /// An increment sent after the snapshot, on a chain the upstream can use, is never refused: at once
  /// the device is routed over this link with the name and the chain just announced.
  lemma IncrementsAreNeverRefused(relay: Id, events: seq<Event>, upstream: Id, sys: System, link: Handle, p: nat,
                                  q: nat, n: nat, devices: seq<AnnouncedDevice>, order: seq<Id>, now: int)
    requires ValidRun(relay, events) && p <= q <= n < |Run(relay, events).log|
    requires Run(relay, events).log[n].Online? && IsRoutable(upstream, Run(relay, events).log[n].device.via)
    requires TableInvariant(upstream, sys) && OnlyThisLink(sys, link, Run(relay, events).log[n].device.id)
    requires SnapshotFrame(Replay(Run(relay, events).log[..q]), upstream, devices)
    requires SnapshotOrder(upstream, sys, link, devices, order, now)
    ensures var log, device := Run(relay, events).log, Run(relay, events).log[n].device;
            var entries := Upstream(upstream, sys, link, devices, order, log, p, n + 1, now).state.entries;
            && device.id in OwnedBy(entries, link.deviceId)
            && entries[device.id].device.route == Via(link, device.via)
            && entries[device.id].device.name == device.name
  {
    RunFacts(relay, events);
    IncrementIsApplied(upstream, sys, link, Run(relay, events).log, p, q, n, devices, order, now);
  }

  lemma IncrementIsApplied(upstream: Id, sys: System, link: Handle, log: seq<Change>, p: nat, q: nat, n: nat,
                           devices: seq<AnnouncedDevice>, order: seq<Id>, now: int)
    requires p <= q <= n < |log| && log[n].Online? && IsRoutable(upstream, log[n].device.via)
    requires TableInvariant(upstream, sys) && OnlyThisLink(sys, link, log[n].device.id)
    requires Shortening(log) && OnlyOnline(log)
    requires SnapshotFrame(Replay(log[..q]), upstream, devices)
    requires SnapshotOrder(upstream, sys, link, devices, order, now)
    ensures var device := log[n].device;
            var entries := Upstream(upstream, sys, link, devices, order, log, p, n + 1, now).state.entries;
            && device.id in OwnedBy(entries, link.deviceId)
            && entries[device.id].device.route == Via(link, device.via)
            && entries[device.id].device.name == device.name
  {
    OnlineIsKnown(log, p, n);
    TouchedConverges(upstream, sys, link, log, p, q, n + 1, devices, order, now, log[n].device.id);
    var after := Upstream(upstream, sys, link, devices, order, log, p, n + 1, now);
    ConvergedIsShown(upstream, Replay(log[..n + 1]), after, link, log[n].device);
  }

  lemma ConvergedIsShown(upstream: Id, announced: map<Id, AnnouncedDevice>, after: System, link: Handle,
                         device: AnnouncedDevice)
    requires Converged(upstream, announced, after, link, device.id)
    requires device.id in announced && announced[device.id] == device && IsRoutable(upstream, device.via)
    ensures var entries := after.state.entries;
            && device.id in OwnedBy(entries, link.deviceId)
            && entries[device.id].device.route == Via(link, device.via)
            && entries[device.id].device.name == device.name
  {}

  lemma OnlineIsKnown(log: seq<Change>, p: nat, n: nat)
    requires p <= n < |log| && log[n].Online?
    ensures var id := log[n].device.id;
            && id in Replay(log[..n + 1]) && Replay(log[..n + 1])[id] == log[n].device
            && !Untouched(log, p, n + 1, id)
  {
    assert log[..n + 1][..n] == log[..n];
    assert Concerns(log[n], log[n].device.id);
  }

  lemma TouchedConverges(upstream: Id, sys: System, link: Handle, log: seq<Change>, p: nat, q: nat, n: nat,
                         devices: seq<AnnouncedDevice>, order: seq<Id>, now: int, id: Id)
    requires TableInvariant(upstream, sys) && OnlyThisLink(sys, link, id)
    requires Shortening(log) && OnlyOnline(log) && p <= q <= n <= |log|
    requires SnapshotFrame(Replay(log[..q]), upstream, devices)
    requires SnapshotOrder(upstream, sys, link, devices, order, now)
    requires id !in sys.state.entries || !Untouched(log, p, n, id)
    ensures Converged(upstream, Replay(log[..n]), Upstream(upstream, sys, link, devices, order, log, p, n, now),
                      link, id)
  {
    OneDeviceFollows(upstream, sys, link, log, p, q, n, devices, order, now, id);
    var after := Upstream(upstream, sys, link, devices, order, log, p, n, now);
    CaughtUpIsConverged(upstream, Replay(log[..n]), after, link, id);
  }

  /// At whatever point after the snapshot, a device nobody else routes is up to date with what was
  /// announced at that point: increments that only repeat what the snapshot reflects do no harm.
  lemma RepeatsAndIncrementsConverge(relay: Id, events: seq<Event>, upstream: Id, sys: System, link: Handle, p: nat,
                                     q: nat, n: nat, devices: seq<AnnouncedDevice>, order: seq<Id>, now: int, id: Id)
    requires ValidRun(relay, events) && p <= q <= n <= |Run(relay, events).log|
    requires TableInvariant(upstream, sys) && id !in sys.state.entries
    requires SnapshotFrame(Replay(Run(relay, events).log[..q]), upstream, devices)
    requires SnapshotOrder(upstream, sys, link, devices, order, now)
    ensures var log := Run(relay, events).log;
            Converged(upstream, Replay(log[..n]), Upstream(upstream, sys, link, devices, order, log, p, n, now),
                      link, id)
  {
    var log := Run(relay, events).log;
    RunFacts(relay, events);
    TouchedConverges(upstream, sys, link, log, p, q, n, devices, order, now, id);
  }

  // ---------- chains that turn back through the upstream ----------

  /// The upstream was shown a chain it can use and has not been told of an Offline since: the
  /// snapshot listed one that was not outgrown, or an increment did.
  ghost predicate StillShown(upstream: Id, view: Option<Shown>, log: seq<Change>, p: nat, q: nat, id: Id)
    requires p <= q <= |log|
  {
    || (AfterSnapshot(view, Offered(upstream, Replay(log[..q]), id)).Some? && NoOffline(log, p, |log|, id))
    || EverShown(upstream, log, p, |log|, id)
  }

  /// The upstream routes a device over the link exactly when it was shown a usable chain with no
  /// Offline since. So it owns exactly the usable announcements if and only if no device whose
  /// current chain is unusable is still shown.
  lemma HeldIffStillShown(relay: Id, events: seq<Event>, upstream: Id, sys: System, link: Handle, p: nat, q: nat,
                          devices: seq<AnnouncedDevice>, order: seq<Id>, now: int, id: Id)
    requires ValidRun(relay, events) && p <= q <= |Run(relay, events).log|
    requires TableInvariant(upstream, sys) && OnlyThisLink(sys, link, id)
    requires SnapshotFrame(Replay(Run(relay, events).log[..q]), upstream, devices)
    requires SnapshotOrder(upstream, sys, link, devices, order, now)
    ensures var log := Run(relay, events).log;
            var after := Upstream(upstream, sys, link, devices, order, log, p, |log|, now);
            id in OwnedBy(after.state.entries, link.deviceId)
            <==> StillShown(upstream, View(sys, link, id), Run(relay, events).log, p, q, id)
  {
    var log := Run(relay, events).log;
    var start := AfterSnapshot(View(sys, link, id), Offered(upstream, Replay(log[..q]), id));
    RunFacts(relay, events);
    OneDeviceFollows(upstream, sys, link, log, p, q, |log|, devices, order, now, id);
    HeldExactlyWhenShown(upstream, start, log, p, |log|, id);
  }

  /// The chain of a device can turn back through the upstream without an Offline: a second link of
  /// the downstream offers an equally short chain, later. The upstream keeps the older chain.
  lemma TurningBackLeavesStaleRoute()
    requires MAX_HOPS > 2
    ensures exists events, id ::
              && ValidRun("relay-b", events)
              && var announced := Announced("relay-b", Run("relay-b", events).state.entries);
                 var log := Run("relay-b", events).log;
                 var after := Upstream("relay-a", INITIAL, Handle("link", 7), [], [], log, 0, |log|, 0);
                 && id in announced && "relay-a" in announced[id].via
                 && id in OwnedBy(after.state.entries, "link")
                 && after.state.entries[id].device.route.Hops() != announced[id].via
  {
    var events, direct, back := TwoLinkRun();
    StaleRouteOnUpstream(direct, back);
    var log := Run("relay-b", events).log;
    assert direct.id in Announced("relay-b", Run("relay-b", events).state.entries);
  }

  lemma TwoDraws(relay: Id)
    ensures ValidRun(relay, [Draw, Draw])
    ensures Run(relay, [Draw, Draw]) == System(EMPTY, 2, {0, 1}, [])
  {
    RunAppend(relay, [], Draw);
    assert [] + [Draw] == [Draw];
    RunAppend(relay, [Draw], Draw);
    assert [Draw] + [Draw] == [Draw, Draw];
  }

  lemma TwoLinkRun() returns (events: seq<Event>, direct: AnnouncedDevice, back: AnnouncedDevice)
    requires MAX_HOPS > 2
    ensures ValidRun("relay-b", events)
    ensures Run("relay-b", events).log == [Online(direct), Online(back)]
    ensures direct.id == back.id && IsRoutable("relay-a", direct.via) && "relay-a" in back.via
    ensures var announced := Announced("relay-b", Run("relay-b", events).state.entries);
            back.id in announced && announced[back.id] == back
  {
    var relay := "relay-b";
    var again := AnnouncedDevice("device", "d", true, ["relay-a"]);
    var second := Event.Announce("link-a", Handle("link-a", 2), again, 1, 0);
    direct := AnnouncedDevice("device", "d", true, [relay] + ["relay-c"]);
    back := AnnouncedDevice("device", "d", true, [relay] + ["relay-a"]);
    var first := FirstLinkRun(direct);
    RunAppend(relay, first, second);
    events := first + [second];
  }

  /// A run in which one link shows a device over one hop, with a number still to be used.
  lemma FirstLinkRun(direct: AnnouncedDevice) returns (events: seq<Event>)
    requires MAX_HOPS > 2 && direct == AnnouncedDevice("device", "d", true, ["relay-b"] + ["relay-c"])
    ensures ValidRun("relay-b", events) && 1 in Run("relay-b", events).held
    ensures Run("relay-b", events).log == [Online(direct)]
    ensures var entries := Run("relay-b", events).state.entries;
            && "device" in entries && entries["device"].sequence == 0
            && entries["device"].device.route == Via(Handle("link-c", 1), ["relay-c"])
  {
    var relay := "relay-b";
    var first := Event.Announce("link-c", Handle("link-c", 1), AnnouncedDevice("device", "d", true, ["relay-c"]), 0, 0);
    TwoDraws(relay);
    RunAppend(relay, [Draw, Draw], first);
    events := [Draw, Draw] + [first];
  }

  lemma StaleRouteOnUpstream(direct: AnnouncedDevice, back: AnnouncedDevice)
    requires direct.id == back.id && "relay-a" in back.via && IsRoutable("relay-a", direct.via)
    ensures var after := FeedAll("relay-a", SnapshotResult("relay-a", INITIAL, Handle("link", 7), [], [], 0),
                                 Handle("link", 7), [Online(direct), Online(back)], 0, 2, 0).state;
            && direct.id in OwnedBy(after.entries, "link")
            && after.entries[direct.id].device.route == Via(Handle("link", 7), direct.via)
  {
    var link := Handle("link", 7);
    var changes := [Online(direct), Online(back)];
    assert SnapshotResult("relay-a", INITIAL, link, [], [], 0) == INITIAL;
    var sent := AnnouncedDevice(direct.id, direct.name, true, direct.via);
    AnnounceNowExact("relay-a", INITIAL, link, sent, 0);
    var fed := FeedAll("relay-a", INITIAL, link, changes, 0, 1, 0);
    assert FeedAll("relay-a", INITIAL, link, changes, 0, 0, 0) == INITIAL;
    assert fed == Feed("relay-a", INITIAL, link, Online(direct), 0);
    assert FeedAll("relay-a", INITIAL, link, changes, 0, 2, 0) == fed;
  }
}
