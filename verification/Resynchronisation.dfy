/// After the downstream lost changes, or connected again, it sends a fresh snapshot and then every
/// change from the oldest one it still has. The upstream may hold anything from before on this link,
/// over this tunnel or an earlier one.
module Resynchronisation {
  import opened Protocol
  import opened RoutingTable
  import opened RegistryRuns
  import opened RouteHistory
  import opened Snapshots
  import opened ChangeFeed
  import opened Convergence

  /// What keeps a snapshot from mending a device: the upstream held it on a shorter chain, so the
  /// longer one is refused and the device withdrawn, and no change has concerned it since.
  ghost predicate LeftBehind(upstream: Id, sys: System, link: Handle, log: seq<Change>, p: nat, q: nat, id: Id)
    requires p <= q <= |log|
  {
    && Outgrown(View(sys, link, id), Offered(upstream, Replay(log[..q]), id))
    && Untouched(log, p, |log|, id)
  }

  /// The upstream catches up on a device that nobody else routes, whatever it held for it before, if
  /// and only if it is not left behind; a device left behind is announced and usable, but has no route.
  lemma ResyncCatchesUpIff(relay: Id, events: seq<Event>, upstream: Id, sys: System, link: Handle, p: nat, q: nat,
                           devices: seq<AnnouncedDevice>, order: seq<Id>, now: int, id: Id)
    requires ValidRun(relay, events) && p <= q <= |Run(relay, events).log|
    requires TableInvariant(upstream, sys) && OnlyThisLink(sys, link, id)
    requires SnapshotFrame(Replay(Run(relay, events).log[..q]), upstream, devices)
    requires SnapshotOrder(upstream, sys, link, devices, order, now)
    ensures var log := Run(relay, events).log;
            var announced := Announced(relay, Run(relay, events).state.entries);
            var view := View(Upstream(upstream, sys, link, devices, order, log, p, |log|, now), link, id);
            && (CaughtUp(upstream, announced, view, id) <==> !LeftBehind(upstream, sys, link, log, p, q, id))
            && (LeftBehind(upstream, sys, link, log, p, q, id) ==>
                  view.None? && id in announced && IsRoutable(upstream, announced[id].via))
  {
    var log := Run(relay, events).log;
    RunFacts(relay, events);
    assert log[..|log|] == log;
    OneDeviceFollows(upstream, sys, link, log, p, q, |log|, devices, order, now, id);
    if LeftBehind(upstream, sys, link, log, p, q, id) {
      UntouchedViews(upstream, None, log, p, |log|, id);
      UntouchedReplay(log, q, |log|, id);
    }
  }

  /// Changes that do not concern a device leave what the upstream holds for it as it was.
  lemma {:induction false} UntouchedViews(upstream: Id, view: Option<Shown>, log: seq<Change>, p: nat, n: nat, id: Id)
    requires p <= n <= |log| && Untouched(log, p, n, id)
    ensures FeedViews(upstream, view, log, p, n, id) == view
    decreases n
  {
    if n > p {
      UntouchedViews(upstream, view, log, p, n - 1, id);
    }
  }

  /// A device can be left behind: its Offline is lost, it comes back on a longer chain, and the
  /// snapshot that should mend the loss makes the upstream withdraw it.
  lemma LostOfflineLeavesBehind()
    requires MAX_HOPS > 3
    ensures exists events, id ::
              && ValidRun("relay-b", events)
              && var log := Run("relay-b", events).log;
                 |log| == 3 && LeftBehind("relay-a", FeedAll("relay-a", INITIAL, Handle("link", 7), log, 0, 1, 0),
                                          Handle("link", 7), log, 3, 3, id)
  {
    var events, near, distant := ReturnOnLongerChain();
    var log, link := Run("relay-b", events).log, Handle("link", 7);
    var known := Replay(log[..3]);
    assert log[..3] == log && log[..3][..2] == [Online(near), Offline(near.id)];
    assert Offered("relay-a", known, near.id) == Some(Shown(distant.name, distant.via));
    assert log[..1] == [] + [Online(near)] && log[..1][..0] == [];
    FeedAllMatchesView("relay-a", INITIAL, link, log, 0, 1, near.id, 0);
    assert View(FeedAll("relay-a", INITIAL, link, log, 0, 1, 0), link, near.id) == Some(Shown(near.name, near.via));
    assert LeftBehind("relay-a", FeedAll("relay-a", INITIAL, link, log, 0, 1, 0), link, log, 3, 3, near.id);
  }

  lemma ReturnOnLongerChain() returns (events: seq<Event>, near: AnnouncedDevice, distant: AnnouncedDevice)
    requires MAX_HOPS > 3
    ensures ValidRun("relay-b", events)
    ensures Run("relay-b", events).log == [Online(near), Offline(near.id), Online(distant)]
    ensures near.id == distant.id && |near.via| < |distant.via|
    ensures IsRoutable("relay-a", near.via) && IsRoutable("relay-a", distant.via)
  {
    var relay, link := "relay-b", Handle("link-c", 1);
    var again := Event.Announce("link-c", link, AnnouncedDevice("device", "d", true, ["relay-c", "relay-d"]), 1, 0);
    near := AnnouncedDevice("device", "d", true, [relay] + ["relay-c"]);
    distant := AnnouncedDevice("device", "d", true, [relay] + ["relay-c", "relay-d"]);
    var gone := ShownAndGone(near);
    RunAppend(relay, gone, again);
    events := gone + [again];
  }

  /// A run that shows one device and withdraws it, with a number still to be used.
  lemma ShownAndGone(near: AnnouncedDevice) returns (events: seq<Event>)
    requires MAX_HOPS > 3
    requires near == AnnouncedDevice("device", "d", true, ["relay-b"] + ["relay-c"])
    ensures ValidRun("relay-b", events)
    ensures Run("relay-b", events).log == [Online(near), Offline("device")]
    ensures "device" !in Run("relay-b", events).state.entries && 1 in Run("relay-b", events).held
  {
    var relay, link := "relay-b", Handle("link-c", 1);
    var first := Event.Announce("link-c", link, AnnouncedDevice("device", "d", true, ["relay-c"]), 0, 0);
    var gone := Event.Withdraw("link-c", "device", 0);
    TwoDraws(relay);
    RunAppend(relay, [Draw, Draw], first);
    var shown := [Draw, Draw] + [first];
    assert Run(relay, shown).log == [Online(near)];
    RunAppend(relay, shown, gone);
    events := shown + [gone];
  }
}
