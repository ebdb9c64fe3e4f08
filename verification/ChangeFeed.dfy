/// What the upstream makes of the changes a downstream relay sends it, one device at a time: how the
/// view it has of the device moves, and how the log of changes bounds that view.
module ChangeFeed {
  import opened Protocol
  import opened RoutingTable
  import opened RegistryRuns
  import opened RouteHistory
  import opened Snapshots
  import opened ControlFrames

  // ---------- what the downstream sends ----------

  /// A snapshot frame: every announcement the upstream could use, each device once, in any order.
  ghost predicate SnapshotFrame(announced: map<Id, AnnouncedDevice>, upstream: Id, devices: seq<AnnouncedDevice>) {
    && DistinctIds(devices)
    && (forall device :: device in devices <==>
          device.id in announced && announced[device.id] == device && IsRoutableFor(device, upstream))
  }

  /// One change arriving at the upstream, as the increment the downstream makes of it.
  function Feed(upstream: Id, sys: System, link: Handle, change: Change, now: int): System {
    match AnnouncementFrame(change, upstream)
    case None => sys
    case Some(frame) => Handled(upstream, sys, link, Relay, frame, [], now)
  }

  /// The changes of a log from point `p` up to point `n`.
  function FeedAll(upstream: Id, sys: System, link: Handle, log: seq<Change>, p: nat, n: nat, now: int): System
    requires p <= n <= |log|
    decreases n
  {
    if n == p then sys
    else Feed(upstream, FeedAll(upstream, sys, link, log, p, n - 1, now), link, log[n - 1], now)
  }

  // ---------- one device as the upstream sees it ----------

  /// What the upstream holds for a device on this link: its name and its chain.
  datatype Shown = Shown(name: string, via: seq<Id>)

  ghost function View(sys: System, link: Handle, id: Id): Option<Shown> {
    if id in sys.state.entries && IsAnnouncedBy(sys.state.entries[id], link.deviceId)
    then Some(Shown(sys.state.entries[id].device.name, sys.state.entries[id].device.route.Hops()))
    else None
  }

  /// No other link and no direct tunnel holds the device.
  ghost predicate Uncontested(sys: System, link: Handle, id: Id) {
    id in sys.state.entries ==>
      && IsAnnouncedBy(sys.state.entries[id], link.deviceId)
      && sys.state.entries[id].device.route.Link() == link
  }

  function Concerns(change: Change, id: Id): bool {
    match change
    case Online(device) => device.id == id
    case Offline(other) => other == id
  }

  function FeedView(upstream: Id, view: Option<Shown>, change: Change, id: Id): Option<Shown> {
    if !Concerns(change, id) then view
    else match change
         case Offline(_) => None
         case Online(device) =>
           if IsRoutable(upstream, device.via) && (view.Some? ==> |device.via| <= |view.value.via|)
           then Some(Shown(device.name, device.via))
           else view
  }

  function FeedViews(upstream: Id, view: Option<Shown>, log: seq<Change>, p: nat, n: nat, id: Id): Option<Shown>
    requires p <= n <= |log|
    decreases n
  {
    if n == p then view
    else FeedView(upstream, FeedViews(upstream, view, log, p, n - 1, id), log[n - 1], id)
  }

  lemma FeedMatchesView(upstream: Id, sys: System, link: Handle, change: Change, id: Id, now: int)
    requires TableInvariant(upstream, sys) && Uncontested(sys, link, id)
    ensures var after := Feed(upstream, sys, link, change, now);
            && TableInvariant(upstream, after)
            && Uncontested(after, link, id)
            && View(after, link, id) == FeedView(upstream, View(sys, link, id), change, id)
  {
    match change
    case Online(device) =>
      AnnounceNowExact(upstream, sys, link, AnnouncedDevice(device.id, device.name, true, device.via), now);
    case Offline(other) =>
      StepKeepsTable(upstream, sys, Withdraw(link.deviceId, other, now));
  }

  lemma {:induction false} FeedAllMatchesView(upstream: Id, sys: System, link: Handle, log: seq<Change>, p: nat, n: nat,
                                              id: Id, now: int)
    requires TableInvariant(upstream, sys) && Uncontested(sys, link, id) && p <= n <= |log|
    ensures var after := FeedAll(upstream, sys, link, log, p, n, now);
            && TableInvariant(upstream, after)
            && Uncontested(after, link, id)
            && View(after, link, id) == FeedViews(upstream, View(sys, link, id), log, p, n, id)
    decreases n
  {
    if n > p {
      FeedAllMatchesView(upstream, sys, link, log, p, n - 1, id, now);
      FeedMatchesView(upstream, FeedAll(upstream, sys, link, log, p, n - 1, now), link, log[n - 1], id, now);
    }
  }

  // ---------- the stream of changes, one device at a time ----------

  ghost predicate NoOffline(log: seq<Change>, lo: nat, hi: nat, id: Id)
    requires lo <= hi <= |log|
  {
    forall k :: lo <= k < hi ==> log[k] != Offline(id)
  }

  ghost predicate Untouched(log: seq<Change>, lo: nat, hi: nat, id: Id)
    requires lo <= hi <= |log|
  {
    forall k :: lo <= k < hi ==> !Concerns(log[k], id)
  }

  lemma UntouchedMore(log: seq<Change>, lo: nat, hi: nat, id: Id)
    requires lo <= hi < |log|
    ensures Untouched(log, lo, hi + 1, id) <==> Untouched(log, lo, hi, id) && !Concerns(log[hi], id)
  {}

  ghost function Offered(upstream: Id, known: map<Id, AnnouncedDevice>, id: Id): Option<Shown> {
    if id in known && IsRoutable(upstream, known[id].via) then Some(Shown(known[id].name, known[id].via)) else None
  }

  /// The upstream holds nothing for a device that is gone, and no chain shorter than the one announced.
  ghost predicate NotAhead(known: map<Id, AnnouncedDevice>, view: Option<Shown>, id: Id) {
    view.Some? ==> id in known && |view.value.via| >= |known[id].via|
  }

  /// The upstream has caught up on a device: absent when it is gone, exactly as announced when it
  /// can be routed, and otherwise at worst an older chain that a shorter one will still replace.
  ghost predicate CaughtUp(upstream: Id, known: map<Id, AnnouncedDevice>, view: Option<Shown>, id: Id) {
    && NotAhead(known, view, id)
    && (id in known && IsRoutable(upstream, known[id].via) ==> view == Offered(upstream, known, id))
  }

  lemma {:induction false} UntouchedReplay(log: seq<Change>, lo: nat, hi: nat, id: Id)
    requires lo <= hi <= |log| && Untouched(log, lo, hi, id)
    ensures id in Replay(log[..lo]) <==> id in Replay(log[..hi])
    ensures id in Replay(log[..lo]) ==> Replay(log[..lo])[id] == Replay(log[..hi])[id]
    decreases hi
  {
    if lo < hi {
      UntouchedReplay(log, lo, hi - 1, id);
      assert log[..hi][..hi - 1] == log[..hi - 1];
    }
  }

  ghost predicate NoShorter(known: map<Id, AnnouncedDevice>, view: Option<Shown>, id: Id) {
    id in known && view.Some? ==> |view.value.via| >= |known[id].via|
  }

  lemma RepeatedOnline(upstream: Id, known: map<Id, AnnouncedDevice>, view: Option<Shown>, device: AnnouncedDevice)
    requires device.id in known && |device.via| >= |known[device.id].via|
    requires NoShorter(known, view, device.id)
    ensures var after := FeedView(upstream, view, Online(device), device.id);
            && NoShorter(known, after, device.id)
            && (known[device.id] == device ==> CaughtUp(upstream, known, after, device.id))
  {}

  /// What an Online that is followed by no Offline says about the point `q`.
  lemma OnlineAhead(log: seq<Change>, i: nat, q: nat)
    requires Shortening(log) && i < q <= |log| && log[i].Online?
    requires NoOffline(log, i + 1, q, log[i].device.id)
    ensures var known, device := Replay(log[..q]), log[i].device;
            && device.id in known && |device.via| >= |known[device.id].via|
            && (Untouched(log, i + 1, q, device.id) ==> known[device.id] == device)
  {
    ReplayStaysWithin(log, i, q);
    assert log[..i + 1][..i] == log[..i];
    if Untouched(log, i + 1, q, log[i].device.id) {
      UntouchedReplay(log, i + 1, q, log[i].device.id);
    }
  }

  lemma OfflineAhead(log: seq<Change>, i: nat, q: nat, id: Id)
    requires i < q <= |log| && log[i] == Offline(id)
    requires Untouched(log, i + 1, q, id)
    ensures id !in Replay(log[..q])
  {
    assert log[..i + 1][..i] == log[..i];
    UntouchedReplay(log, i + 1, q, id);
  }

  lemma OneRepeatIsHarmless(upstream: Id, log: seq<Change>, k: nat, q: nat, view: Option<Shown>, id: Id, caught: bool)
    requires Shortening(log) && k < q <= |log| && NoOffline(log, k + 1, q, id)
    requires log[k] != Offline(id) ==> Repeating(upstream, log, k, q, view, id, caught)
    ensures Repeating(upstream, log, k + 1, q, FeedView(upstream, view, log[k], id), id, caught || Concerns(log[k], id))
  {
    var change := log[k];
    if change == Offline(id) {
      if Untouched(log, k + 1, q, id) {
        OfflineAhead(log, k, q, id);
      }
    } else if Concerns(change, id) {
      OnlineAhead(log, k, q);
      RepeatedOnline(upstream, Replay(log[..q]), view, change.device);
    }
  }

  /// Where the upstream stands while the increments from `k` on still repeat what the snapshot of
  /// point `q` reflects: its chain is no shorter than the one at `q`, and once nothing about the
  /// device is left to repeat it is not ahead, and has caught up if `caught` says so.
  ghost predicate Repeating(upstream: Id, log: seq<Change>, k: nat, q: nat, view: Option<Shown>, id: Id, caught: bool)
    requires k <= q <= |log|
  {
    var known := Replay(log[..q]);
    && NoShorter(known, view, id)
    && (Untouched(log, k, q, id) ==> NotAhead(known, view, id) && (caught ==> CaughtUp(upstream, known, view, id)))
  }

  /// Increments that repeat what the snapshot reflects end where the snapshot stood, and mend a
  /// device the snapshot did not settle as soon as one of them concerns it.
  lemma {:induction false} RepeatsAreHarmless(upstream: Id, log: seq<Change>, p: nat, k: nat, q: nat,
                                              start: Option<Shown>, id: Id)
    requires Shortening(log) && p <= k <= q <= |log|
    requires NotAhead(Replay(log[..q]), start, id)
    requires NoOffline(log, k, q, id)
    ensures Repeating(upstream, log, k, q, FeedViews(upstream, start, log, p, k, id), id,
                      CaughtUp(upstream, Replay(log[..q]), start, id) || !Untouched(log, p, k, id))
    decreases k
  {
    if k > p {
      var caught := CaughtUp(upstream, Replay(log[..q]), start, id) || !Untouched(log, p, k - 1, id);
      UntouchedMore(log, p, k - 1, id);
      if log[k - 1] != Offline(id) {
        RepeatsAreHarmless(upstream, log, p, k - 1, q, start, id);
      }
      OneRepeatIsHarmless(upstream, log, k - 1, q, FeedViews(upstream, start, log, p, k - 1, id), id, caught);
    }
  }

  /// Where the upstream stands after change `n`, which the snapshot does not reflect: never ahead, and
  /// caught up if `caught` says so.
  ghost predicate Following(upstream: Id, log: seq<Change>, n: nat, view: Option<Shown>, id: Id, caught: bool)
    requires n <= |log|
  {
    NotAhead(Replay(log[..n]), view, id) && (caught ==> CaughtUp(upstream, Replay(log[..n]), view, id))
  }

  lemma OneIncrementFollows(upstream: Id, log: seq<Change>, n: nat, view: Option<Shown>, id: Id, caught: bool)
    requires Shortening(log) && n < |log| && Following(upstream, log, n, view, id, caught)
    ensures Following(upstream, log, n + 1, FeedView(upstream, view, log[n], id), id, caught || Concerns(log[n], id))
  {
    ReplayNext(log, n);
  }

  /// At the point the snapshot reflects, what the repeats leave is what is followed from there.
  lemma RepeatsEndFollowing(upstream: Id, log: seq<Change>, p: nat, q: nat, start: Option<Shown>, id: Id)
    requires Shortening(log) && p <= q <= |log| && NotAhead(Replay(log[..q]), start, id)
    ensures Following(upstream, log, q, FeedViews(upstream, start, log, p, q, id), id,
                      CaughtUp(upstream, Replay(log[..q]), start, id) || !Untouched(log, p, q, id))
  {
    RepeatsAreHarmless(upstream, log, p, q, q, start, id);
  }

  lemma FollowOneMore(upstream: Id, log: seq<Change>, p: nat, n: nat, start: Option<Shown>, id: Id, caught: bool)
    requires Shortening(log) && p <= n < |log|
    requires Following(upstream, log, n, FeedViews(upstream, start, log, p, n, id), id,
                       caught || !Untouched(log, p, n, id))
    ensures Following(upstream, log, n + 1, FeedViews(upstream, start, log, p, n + 1, id), id,
                      caught || !Untouched(log, p, n + 1, id))
  {
    UntouchedMore(log, p, n, id);
    OneIncrementFollows(upstream, log, n, FeedViews(upstream, start, log, p, n, id), id,
                        caught || !Untouched(log, p, n, id));
  }

  /// After the point the snapshot reflects, every increment is accepted or rightly ignored: the
  /// upstream has caught up if the snapshot did it or an increment concerned the device.
  lemma {:induction false} IncrementsFollow(upstream: Id, log: seq<Change>, p: nat, q: nat, n: nat,
                                            start: Option<Shown>, id: Id)
    requires Shortening(log) && p <= q <= n <= |log|
    requires NotAhead(Replay(log[..q]), start, id)
    ensures Following(upstream, log, n, FeedViews(upstream, start, log, p, n, id), id,
                      CaughtUp(upstream, Replay(log[..q]), start, id) || !Untouched(log, p, n, id))
    decreases n
  {
    if n == q {
      RepeatsEndFollowing(upstream, log, p, q, start, id);
    } else {
      IncrementsFollow(upstream, log, p, q, n - 1, start, id);
      FollowOneMore(upstream, log, p, n - 1, start, id, CaughtUp(upstream, Replay(log[..q]), start, id));
    }
  }

  /// Change `i` announced the device on a chain the upstream can use, and no Offline came after it.
  ghost predicate ShowsUsable(upstream: Id, log: seq<Change>, i: nat, n: nat, id: Id)
    requires i < n <= |log|
  {
    && log[i].Online? && log[i].device.id == id
    && IsRoutable(upstream, log[i].device.via)
    && NoOffline(log, i + 1, n, id)
  }

  ghost predicate EverShown(upstream: Id, log: seq<Change>, p: nat, n: nat, id: Id)
    requires p <= n <= |log|
  {
    exists i :: p <= i < n && ShowsUsable(upstream, log, i, n, id)
  }

  lemma EverShownOne(upstream: Id, log: seq<Change>, p: nat, n: nat, id: Id)
    requires p <= n < |log|
    ensures EverShown(upstream, log, p, n + 1, id) <==>
            || (log[n].Online? && log[n].device.id == id && IsRoutable(upstream, log[n].device.via))
            || (EverShown(upstream, log, p, n, id) && log[n] != Offline(id))
  {
    if log[n].Online? && log[n].device.id == id && IsRoutable(upstream, log[n].device.via) {
      assert ShowsUsable(upstream, log, n, n + 1, id);
    }
    if EverShown(upstream, log, p, n + 1, id) {
      var i :| p <= i < n + 1 && ShowsUsable(upstream, log, i, n + 1, id);
      if i < n {
        assert ShowsUsable(upstream, log, i, n, id);
        assert log[n] != Offline(id);
      }
    }
    if EverShown(upstream, log, p, n, id) && log[n] != Offline(id) {
      var i :| p <= i < n && ShowsUsable(upstream, log, i, n, id);
      assert ShowsUsable(upstream, log, i, n + 1, id);
    }
  }

  /// The upstream holds a route exactly when it was shown a usable chain and no Offline followed.
  lemma {:induction false} HeldExactlyWhenShown(upstream: Id, view: Option<Shown>, log: seq<Change>, p: nat, n: nat,
                                                id: Id)
    requires p <= n <= |log|
    ensures FeedViews(upstream, view, log, p, n, id).Some? <==>
            (view.Some? && NoOffline(log, p, n, id)) || EverShown(upstream, log, p, n, id)
    decreases n
  {
    if n > p {
      HeldExactlyWhenShown(upstream, view, log, p, n - 1, id);
      EverShownOne(upstream, log, p, n - 1, id);
    }
  }
}
