/// A link that is not alone: the frames of a downstream relay reach the upstream's table while other
/// links, sessions and withdrawals take any steps in between, inside the snapshot too.
module Interference {
  import opened Protocol
  import opened RoutingTable
  import opened RegistryRuns
  import opened RouteHistory
  import opened Snapshots
  import opened ChangeFeed
  import opened Convergence

  /// What reaches the upstream's table: an item of this link, or a step of anyone else.
  datatype Arrival = Increment(change: Change) | Elsewhere(event: Event)

  function ChangesOf(arrivals: seq<Arrival>): seq<Change> {
    if arrivals == [] then []
    else
      var last := arrivals[|arrivals| - 1];
      ChangesOf(arrivals[..|arrivals| - 1]) + if last.Increment? then [last.change] else []
  }

  function ArriveAll(upstream: Id, sys: System, link: Handle, arrivals: seq<Arrival>, now: int): System {
    if arrivals == [] then sys
    else
      var before := ArriveAll(upstream, sys, link, arrivals[..|arrivals| - 1], now);
      match arrivals[|arrivals| - 1]
      case Increment(change) => Feed(upstream, before, link, change, now)
      case Elsewhere(event) => Next(upstream, before, event)
  }

  /// The installing half of a snapshot, item by item.
  function ItemsOf(devices: seq<AnnouncedDevice>): seq<Change> {
    seq(|devices|, i requires 0 <= i < |devices| => Online(devices[i]))
  }

  /// Ending the link, or anyone else routing or withdrawing the device.
  predicate Competes(event: Event, link: Handle, id: Id) {
    match event
    case Draw => false
    case Connect(presence, _, _) => presence.deviceId == id
    case Disconnect(deviceId, _, _) => deviceId == link.deviceId || deviceId == id
    case Announce(_, _, device, _, _) => device.id == id
    case Withdraw(_, deviceId, _) => deviceId == id
  }

  ghost predicate NobodyCompetes(upstream: Id, sys: System, link: Handle, arrivals: seq<Arrival>, now: int, id: Id) {
    arrivals != [] ==>
      var front, last := arrivals[..|arrivals| - 1], arrivals[|arrivals| - 1];
      && NobodyCompetes(upstream, sys, link, front, now, id)
      && (last.Elsewhere? ==>
            && Enabled(upstream, ArriveAll(upstream, sys, link, front, now), last.event)
            && !Competes(last.event, link, id))
  }

  lemma ElsewhereKeepsView(upstream: Id, sys: System, link: Handle, event: Event, id: Id)
    requires TableInvariant(upstream, sys) && Uncontested(sys, link, id)
    requires Enabled(upstream, sys, event) && !Competes(event, link, id)
    ensures var after := Next(upstream, sys, event);
            && TableInvariant(upstream, after) && Uncontested(after, link, id)
            && View(after, link, id) == View(sys, link, id)
  {
    StepKeepsTable(upstream, sys, event);
    var after := Next(upstream, sys, event);
    assert id in after.state.entries <==> id in sys.state.entries;
    assert id in sys.state.entries ==> after.state.entries[id] == sys.state.entries[id];
  }

  /// A view depends on the changes fed and on nothing after them.
  lemma {:induction false} FeedViewsPrefix(upstream: Id, view: Option<Shown>, log: seq<Change>, longer: seq<Change>,
                                           n: nat, id: Id)
    requires n <= |log| && log <= longer
    ensures FeedViews(upstream, view, log, 0, n, id) == FeedViews(upstream, view, longer, 0, n, id)
    decreases n
  {
    if n > 0 {
      FeedViewsPrefix(upstream, view, log, longer, n - 1, id);
    }
  }

  lemma {:induction false} ArrivalsMatchView(upstream: Id, sys: System, link: Handle, arrivals: seq<Arrival>, id: Id,
                                             now: int)
    requires TableInvariant(upstream, sys) && Uncontested(sys, link, id)
    requires NobodyCompetes(upstream, sys, link, arrivals, now, id)
    ensures var after, changes := ArriveAll(upstream, sys, link, arrivals, now), ChangesOf(arrivals);
            && TableInvariant(upstream, after)
            && Uncontested(after, link, id)
            && View(after, link, id) == FeedViews(upstream, View(sys, link, id), changes, 0, |changes|, id)
  {
    if arrivals != [] {
      var front, last := arrivals[..|arrivals| - 1], arrivals[|arrivals| - 1];
      ArrivalsMatchView(upstream, sys, link, front, id, now);
      var before, changes := ArriveAll(upstream, sys, link, front, now), ChangesOf(front);
      match last
      case Increment(change) =>
        FeedMatchesView(upstream, before, link, change, id, now);
        FeedViewsPrefix(upstream, View(sys, link, id), changes, ChangesOf(arrivals), |changes|, id);
      case Elsewhere(event) =>
        ElsewhereKeepsView(upstream, before, link, event, id);
        assert ChangesOf(arrivals) == changes;
    }
  }

  /// Feeding `items` and then the log from `p` on is feeding the log to what the items leave.
  lemma {:induction false} FeedViewsJoin(upstream: Id, items: seq<Change>, log: seq<Change>, p: nat, n: nat, id: Id)
    requires p <= n <= |log|
    ensures FeedViews(upstream, None, items + log[p..], 0, |items| + n - p, id)
         == FeedViews(upstream, FeedViews(upstream, None, items, 0, |items|, id), log, p, n, id)
    decreases n
  {
    if n == p {
      FeedViewsPrefix(upstream, None, items, items + log[p..], |items|, id);
    } else {
      FeedViewsJoin(upstream, items, log, p, n - 1, id);
      assert (items + log[p..])[|items| + n - 1 - p] == log[n - 1];
    }
  }

  /// Feeding the first `n` items of a snapshot shows a device if it is one of them and usable.
  lemma {:induction false} ItemsShow(upstream: Id, devices: seq<AnnouncedDevice>, n: nat, id: Id)
    requires DistinctIds(devices) && n <= |devices|
    ensures FeedViews(upstream, None, ItemsOf(devices), 0, n, id).None? <==>
            forall i :: 0 <= i < n ==> devices[i].id != id || !IsRoutable(upstream, devices[i].via)
    ensures forall i :: 0 <= i < n && devices[i].id == id && IsRoutable(upstream, devices[i].via) ==>
              FeedViews(upstream, None, ItemsOf(devices), 0, n, id) == Some(Shown(devices[i].name, devices[i].via))
    decreases n
  {
    if n > 0 {
      ItemsShow(upstream, devices, n - 1, id);
    }
  }

  lemma SnapshotItemsShowOffer(upstream: Id, known: map<Id, AnnouncedDevice>, devices: seq<AnnouncedDevice>, id: Id)
    requires SnapshotFrame(known, upstream, devices)
    requires forall d :: d in known ==> known[d].id == d
    ensures FeedViews(upstream, None, ItemsOf(devices), 0, |devices|, id) == Offered(upstream, known, id)
  {
    ItemsShow(upstream, devices, |devices|, id);
    if Offered(upstream, known, id).Some? {
      assert known[id] in devices;
      var i :| 0 <= i < |devices| && devices[i] == known[id];
    } else {
      forall i | 0 <= i < |devices| && devices[i].id == id
        ensures !IsRoutable(upstream, devices[i].via)
      {
        assert devices[i] in devices;
      }
    }
  }

  /// What the items of a snapshot and the increments after it make of a device that had no route.
  lemma ItemsThenIncrementsFollow(upstream: Id, log: seq<Change>, p: nat, q: nat, devices: seq<AnnouncedDevice>, id: Id)
    requires Shortening(log) && OnlyOnline(log) && p <= q <= |log|
    requires SnapshotFrame(Replay(log[..q]), upstream, devices)
    ensures var changes := ItemsOf(devices) + log[p..];
            CaughtUp(upstream, Replay(log), FeedViews(upstream, None, changes, 0, |changes|, id), id)
  {
    var offered := Offered(upstream, Replay(log[..q]), id);
    KnownIsPublished(log, q);
    SnapshotItemsShowOffer(upstream, Replay(log[..q]), devices, id);
    FeedViewsJoin(upstream, ItemsOf(devices), log, p, |log|, id);
    IncrementsFollow(upstream, log, p, q, |log|, offered, id);
    assert log[..|log|] == log;
  }

  /// A device that has no route when the link comes up ends up to date, whatever the upstream's other
  /// devices, links and sessions do between the items of the snapshot and the increments, while the
  /// link lasts and nobody else routes this device.
  lemma ConvergesAmidOtherActivity(relay: Id, events: seq<Event>, upstream: Id, sys: System, link: Handle, p: nat,
                                   q: nat, devices: seq<AnnouncedDevice>, arrivals: seq<Arrival>, now: int, id: Id)
    requires ValidRun(relay, events) && p <= q <= |Run(relay, events).log|
    requires TableInvariant(upstream, sys) && id !in sys.state.entries
    requires SnapshotFrame(Replay(Run(relay, events).log[..q]), upstream, devices)
    requires ChangesOf(arrivals) == ItemsOf(devices) + Run(relay, events).log[p..]
    requires NobodyCompetes(upstream, sys, link, arrivals, now, id)
    ensures Converged(upstream, Announced(relay, Run(relay, events).state.entries),
                      ArriveAll(upstream, sys, link, arrivals, now), link, id)
  {
    RunFacts(relay, events);
    ArrivalsMatchView(upstream, sys, link, arrivals, id, now);
    ItemsThenIncrementsFollow(upstream, Run(relay, events).log, p, q, devices, id);
    var after := ArriveAll(upstream, sys, link, arrivals, now);
    CaughtUpIsConverged(upstream, Replay(Run(relay, events).log), after, link, id);
  }
}
