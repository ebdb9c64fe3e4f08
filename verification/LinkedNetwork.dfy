/// A network of relays joined by links that deliver in order: each relay publishes into its own log,
/// and every link carries a snapshot and then the log of its lower end into the table of its upper end.
/// A link that falls behind loses changes and sends another snapshot, any number of times. All of it is
/// interleaved with sessions, disconnects, withdrawals, competing links, restarts and links that come and
/// go. What holds once a link has delivered everything, and once all have.
module LinkedNetwork {
  import opened Protocol
  import opened RoutingTable
  import opened RegistryRuns
  import opened RouteHistory
  import opened Snapshots
  import opened ChangeFeed
  import opened Convergence
  import opened Forwarding
  import opened Network

  /// A snapshot on its way: it follows the changes up to point `from`, was taken at point `mark`, and
  /// is followed by the changes from point `resume` on. What lies between `from` and `resume` is lost.
  datatype Jump = Jump(from: nat, resume: nat, mark: nat, items: seq<AnnouncedDevice>)

  /// Relay `down` attached to relay `up`. `next` is the next change to deliver and `jumps` the snapshots
  /// still to come. Of the snapshot being applied, `mark` is the point it was taken at, `items` what is
  /// still to be announced, and `left` what the link owned before and it has not installed. `drawn` is
  /// the number drawn for the frame in hand.
  datatype Link = Link(
    up: Id,
    down: Id,
    handle: Handle,
    mark: Option<nat>,
    items: seq<AnnouncedDevice>,
    left: set<Id>,
    next: nat,
    jumps: seq<Jump>,
    drawn: Option<nat>)
  {
    /// A snapshot has begun and is not yet applied to its end.
    predicate IsSettling() {
      items != [] || left != {}
    }

    /// The point up to which the changes sent so far go.
    function Sent(): nat {
      if jumps == [] then next else jumps[|jumps| - 1].resume
    }
  }

  /// The relays, the links that are up by the number of their tunnel, and every number ever used.
  datatype World = World(net: Net, links: map<nat, Link>, used: set<nat>)

  datatype Step =
    | Act(relay: Id, event: Event)
    | Open(tunnel: nat, up: Id, down: Id, deviceId: Id)
    | TakeSnapshot(tunnel: nat, from: nat, resume: nat, devices: seq<AnnouncedDevice>)
    | Begin(tunnel: nat)
    | DrawFor(tunnel: nat)
    | Receive(tunnel: nat, now: int)
    | WithdrawLeftover(tunnel: nat, deviceId: Id, now: int)
    | Close(tunnel: nat)
    | RestartRelay(relay: Id)

  /// What the link delivers next.
  function Head(link: Link, log: seq<Change>): Option<Change> {
    if link.mark.None? then None
    else if link.items != [] then Some(Online(link.items[0]))
    else if link.left != {} then None
    else if link.next < |log| && (link.jumps != [] ==> link.next < link.jumps[0].from) then Some(log[link.next])
    else None
  }

  /// An Online on a chain the upper relay cannot use is dropped on the way.
  predicate IsDropped(link: Link, change: Change) {
    change.Online? && !IsRoutable(link.up, change.device.via)
  }

  function EventFor(link: Link, change: Change, now: int): Event {
    match change
    case Online(device) =>
      Announce(link.handle.deviceId, link.handle, device, if link.drawn.Some? then link.drawn.value else 0, now)
    case Offline(id) => Withdraw(link.handle.deviceId, id, now)
  }

  /// Whether the table of the upper relay takes the announcement in hand.
  function IsAccepted(link: Link, sys: System, change: Change): bool {
    && change.Online? && !IsDropped(link, change)
    && link.drawn.Some? && Accepts(sys.state, change.device, link.drawn.value)
  }

  function Advanced(link: Link, change: Change, accepted: bool): Link {
    var moved :=
      if link.items == [] then link.(next := link.next + 1)
      else link.(items := link.items[1..], left := if accepted then link.left - {link.items[0].id} else link.left);
    if change.Online? && !IsDropped(link, change) then moved.(drawn := None) else moved
  }

  /// The next snapshot is in hand: the upper relay lists what the link owns.
  function Begun(link: Link, sys: System): Link
    requires link.jumps != []
  {
    var jump := link.jumps[0];
    link.(mark := Some(jump.mark), items := jump.items, left := OwnedBy(sys.state.entries, link.handle.deviceId),
          next := jump.resume, jumps := link.jumps[1..])
  }

  function WithEvent(net: Net, relay: Id, event: Event): Net {
    if relay in net then net[relay := Next(relay, net[relay], event)] else net
  }

  ghost predicate CanStep(world: World, far: map<nat, Id>, step: Step) {
    var net, links := world.net, world.links;
    match step
    case Act(relay, event) => relay in net && Enabled(relay, net[relay], event) && !event.Announce?
    case Open(tunnel, up, down, _) =>
      tunnel !in world.used && up in net && down in net && tunnel in far && far[tunnel] == down
    case TakeSnapshot(tunnel, from, resume, devices) =>
      && tunnel in links && links[tunnel].down in net
      && links[tunnel].Sent() <= from <= resume <= |net[links[tunnel].down].log|
      && SnapshotFrame(Announced(links[tunnel].down, net[links[tunnel].down].state.entries), links[tunnel].up, devices)
    case Begin(tunnel) =>
      && tunnel in links && links[tunnel].up in net
      && !links[tunnel].IsSettling() && links[tunnel].jumps != [] && links[tunnel].next == links[tunnel].jumps[0].from
    case DrawFor(tunnel) => tunnel in links && links[tunnel].up in net && links[tunnel].drawn.None?
    case Receive(tunnel, now) =>
      && tunnel in links && links[tunnel].up in net && links[tunnel].down in net
      && var head := Head(links[tunnel], net[links[tunnel].down].log);
         && head.Some?
         && (!IsDropped(links[tunnel], head.value) ==>
               && (head.value.Online? ==> links[tunnel].drawn.Some?)
               && Enabled(links[tunnel].up, net[links[tunnel].up], EventFor(links[tunnel], head.value, now)))
    case WithdrawLeftover(tunnel, deviceId, _) =>
      tunnel in links && links[tunnel].up in net && links[tunnel].items == [] && deviceId in links[tunnel].left
    case Close(tunnel) => tunnel in links
    case RestartRelay(relay) => relay in net
  }

  ghost function StepWorld(world: World, far: map<nat, Id>, step: Step): World
    requires CanStep(world, far, step)
  {
    var net, links := world.net, world.links;
    match step
    case Act(relay, event) => world.(net := WithEvent(net, relay, event))
    case Open(tunnel, up, down, deviceId) =>
      var link := Link(up, down, Handle(deviceId, tunnel), None, [], {}, |net[down].log|, [], None);
      world.(links := links[tunnel := link], used := world.used + {tunnel})
    case TakeSnapshot(tunnel, from, resume, devices) =>
      var jump := Jump(from, resume, |net[links[tunnel].down].log|, devices);
      world.(links := links[tunnel := links[tunnel].(jumps := links[tunnel].jumps + [jump])])
    case Begin(tunnel) =>
      world.(links := links[tunnel := Begun(links[tunnel], net[links[tunnel].up])])
    case DrawFor(tunnel) =>
      var up := links[tunnel].up;
      world.(net := WithEvent(net, up, Draw), links := links[tunnel := links[tunnel].(drawn := Some(net[up].counter))])
    case Receive(tunnel, now) =>
      var link := links[tunnel];
      var change := Head(link, net[link.down].log).value;
      world.(net := if IsDropped(link, change) then net else WithEvent(net, link.up, EventFor(link, change, now)),
             links := links[tunnel := Advanced(link, change, IsAccepted(link, net[link.up], change))])
    case WithdrawLeftover(tunnel, deviceId, now) =>
      var link := links[tunnel];
      world.(net := WithEvent(net, link.up, Withdraw(link.handle.deviceId, deviceId, now)),
             links := links[tunnel := link.(left := link.left - {deviceId})])
    case Close(tunnel) => world.(links := links - {tunnel})
    case RestartRelay(relay) =>
      world.(net := net[relay := INITIAL],
             links := map t | t in links && links[t].up != relay && links[t].down != relay :: links[t])
  }

  ghost function RunWorld(relays: set<Id>, far: map<nat, Id>, steps: seq<Step>): Option<World> {
    if steps == [] then Some(World(map relay | relay in relays :: INITIAL, map[], {}))
    else
      var before := RunWorld(relays, far, steps[..|steps| - 1]);
      if before.Some? && CanStep(before.value, far, steps[|steps| - 1])
      then Some(StepWorld(before.value, far, steps[|steps| - 1]))
      else None
  }

  // ---------- what holds of every relay and every link ----------

  ghost predicate RelayOk(relay: Id, sys: System, far: map<nat, Id>) {
    && CleanRelay(relay, sys, far)
    && LogRefinesTable(relay, sys)
    && Shortening(sys.log)
    && OnlyOnline(sys.log)
  }

  /// Announced routes lead over tunnels that were opened, and while such a tunnel is up it is a link of
  /// this relay.
  ghost predicate Placed(links: map<nat, Link>, used: set<nat>, relay: Id, sys: System) {
    forall id :: id in sys.state.entries && sys.state.entries[id].device.route.Via? ==>
      var handle := sys.state.entries[id].device.route.link;
      && handle.tunnel in used
      && IsAnnouncedBy(sys.state.entries[id], handle.deviceId)
      && (handle.tunnel in links ==> links[handle.tunnel].up == relay && links[handle.tunnel].handle == handle)
  }

  /// What the relay holds for a device over one tunnel.
  ghost function ViewOn(sys: System, handle: Handle, id: Id): Option<Shown> {
    if id in sys.state.entries && sys.state.entries[id].device.route.Via?
       && sys.state.entries[id].device.route.link == handle
    then Some(Shown(sys.state.entries[id].device.name, sys.state.entries[id].device.route.hops))
    else None
  }

  /// How far a route held over a link can be behind what the link has delivered. While a snapshot is
  /// applied, what it has not installed yet may be anything, but is still to be withdrawn.
  ghost predicate Tracks(link: Link, log: seq<Change>, view: Option<Shown>, id: Id) {
    view.Some? && id !in link.left ==>
      && link.mark.Some? && link.next <= |log| && link.mark.value <= |log|
      && (link.IsSettling() ==>
            link.next <= link.mark.value && view == Offered(link.up, Replay(log[..link.mark.value]), id))
      && (link.next < link.mark.value ==>
            NoOffline(log, link.next, link.mark.value, id) ==>
            Repeating(link.up, log, link.next, link.mark.value, view, id, true))
      && (link.next >= link.mark.value ==> CaughtUp(link.up, Replay(log[..link.next]), view, id))
  }

  ghost predicate WereAnnounced(items: seq<AnnouncedDevice>, log: seq<Change>, mark: nat)
    requires mark <= |log|
  {
    forall d :: d in items ==> d.id in Replay(log[..mark]) && Replay(log[..mark])[d.id] == d
  }

  ghost predicate JumpOk(jump: Jump, log: seq<Change>) {
    jump.resume <= jump.mark <= |log| && WereAnnounced(jump.items, log, jump.mark)
  }

  /// The snapshots on their way are made of what was announced when they were taken.
  ghost predicate ItemsOk(link: Link, log: seq<Change>) {
    && link.next <= |log|
    && (link.mark.None? ==> !link.IsSettling())
    && (link.mark.Some? ==>
          && link.mark.value <= |log|
          && (link.IsSettling() ==> link.next <= link.mark.value)
          && WereAnnounced(link.items, log, link.mark.value))
    && (forall jump {:trigger JumpOk(jump, log)} :: jump in link.jumps ==> JumpOk(jump, log))
  }

  ghost predicate NumbersOk(link: Link, sys: System) {
    forall id :: ViewOn(sys, link.handle, id).Some? && link.drawn.Some? ==>
                   sys.state.entries[id].sequence < link.drawn.value
  }

  ghost predicate LinkOk(net: Net, used: set<nat>, far: map<nat, Id>, tunnel: nat, link: Link) {
    && tunnel in used && link.handle.tunnel == tunnel
    && tunnel in far && far[tunnel] == link.down
    && link.up in net && link.down in net
    && ItemsOk(link, net[link.down].log)
    && NumbersOk(link, net[link.up])
    && (forall id :: Tracks(link, net[link.down].log, ViewOn(net[link.up], link.handle, id), id))
  }

  ghost predicate WorldOk(world: World, far: map<nat, Id>) {
    && (forall relay {:trigger RelayOk(relay, world.net[relay], far)} ::
          relay in world.net ==> RelayOk(relay, world.net[relay], far))
    && (forall relay {:trigger Placed(world.links, world.used, relay, world.net[relay])} ::
          relay in world.net ==> Placed(world.links, world.used, relay, world.net[relay]))
    && (forall tunnel {:trigger LinkOk(world.net, world.used, far, tunnel, world.links[tunnel])} ::
          tunnel in world.links ==> LinkOk(world.net, world.used, far, tunnel, world.links[tunnel]))
  }

  // ---------- one event at one relay ----------

  lemma EventKeepsRelay(relay: Id, sys: System, far: map<nat, Id>, event: Event)
    requires RelayOk(relay, sys, far) && Enabled(relay, sys, event)
    requires event.Announce? ==> event.link.tunnel in far && CleanChain(far[event.link.tunnel], event.device.via)
    ensures RelayOk(relay, Next(relay, sys, event), far)
  {
    EventKeepsClean(relay, sys, far, event);
    StepKeepsLogRefinement(relay, sys, event);
    StepKeepsShortening(relay, sys, event);
    StepKeepsOnlyOnline(relay, sys, event);
  }

  lemma EventKeepsPlaced(links: map<nat, Link>, used: set<nat>, relay: Id, sys: System, event: Event)
    requires Placed(links, used, relay, sys) && Enabled(relay, sys, event)
    requires event.Announce? ==>
               && event.link.tunnel in used && event.linkDeviceId == event.link.deviceId
               && (event.link.tunnel in links ==>
                     links[event.link.tunnel].up == relay && links[event.link.tunnel].handle == event.link)
    ensures Placed(links, used, relay, Next(relay, sys, event))
  {}

  /// An event that announces nothing over a tunnel can only take routes over that tunnel away.
  lemma OthersLoseOrKeep(relay: Id, sys: System, event: Event, handle: Handle, id: Id)
    requires event.Announce? ==> event.link != handle
    ensures var after := Next(relay, sys, event);
            || ViewOn(after, handle, id).None?
            || (&& ViewOn(after, handle, id) == ViewOn(sys, handle, id)
                && after.state.entries[id].sequence == sys.state.entries[id].sequence)
  {}

  lemma LogGrows(relay: Id, sys: System, event: Event)
    ensures sys.log <= Next(relay, sys, event).log
  {}

  lemma TracksExtends(link: Link, log: seq<Change>, longer: seq<Change>, view: Option<Shown>, id: Id)
    requires log <= longer && Tracks(link, log, view, id)
    ensures Tracks(link, longer, view, id)
  {
    if view.Some? && id !in link.left {
      assert longer[..link.mark.value] == log[..link.mark.value];
      assert longer[..link.next] == log[..link.next];
    }
  }

  lemma ItemsExtend(link: Link, log: seq<Change>, longer: seq<Change>)
    requires log <= longer && ItemsOk(link, log)
    ensures ItemsOk(link, longer)
  {
    if link.mark.Some? {
      assert longer[..link.mark.value] == log[..link.mark.value];
    }
    forall jump | jump in link.jumps
      ensures JumpOk(jump, longer)
    {
      assert JumpOk(jump, log);
      assert longer[..jump.mark] == log[..jump.mark];
    }
  }

  lemma EventKeepsLink(net: Net, used: set<nat>, far: map<nat, Id>, relay: Id, event: Event, tunnel: nat, link: Link)
    requires relay in net && LinkOk(net, used, far, tunnel, link)
    requires event.Announce? ==> event.link != link.handle
    ensures LinkOk(WithEvent(net, relay, event), used, far, tunnel, link)
  {
    var after := WithEvent(net, relay, event);
    LogGrows(relay, net[relay], event);
    ItemsExtend(link, net[link.down].log, after[link.down].log);
    forall id
      ensures Tracks(link, after[link.down].log, ViewOn(after[link.up], link.handle, id), id)
      ensures ViewOn(after[link.up], link.handle, id).Some? && link.drawn.Some? ==>
                after[link.up].state.entries[id].sequence < link.drawn.value
    {
      OthersLoseOrKeep(relay, net[relay], event, link.handle, id);
      var view := ViewOn(net[link.up], link.handle, id);
      assert ViewOn(after[link.up], link.handle, id).None? || ViewOn(after[link.up], link.handle, id) == view;
      if ViewOn(after[link.up], link.handle, id).Some? {
        assert Tracks(link, net[link.down].log, view, id);
        TracksExtends(link, net[link.down].log, after[link.down].log, view, id);
      }
    }
  }

  // ---------- what a link delivers ----------

  /// A frame of the link's own moves what is held over it as it moves the view of one device, or it
  /// meets a better route of somebody else and leaves nothing.
  lemma OwnFrameMovesView(sys: System, link: Link, change: Change, now: int, id: Id)
    requires !IsDropped(link, change) && Enabled(link.up, sys, EventFor(link, change, now))
    requires change.Online? ==> link.drawn.Some?
    requires NumbersOk(link, sys)
    requires ViewOn(sys, link.handle, id).Some? ==> IsAnnouncedBy(sys.state.entries[id], link.handle.deviceId)
    ensures var view := ViewOn(Next(link.up, sys, EventFor(link, change, now)), link.handle, id);
            && (view.None? || view == FeedView(link.up, ViewOn(sys, link.handle, id), change, id))
            && (change.Online? ==> Answers(view, ViewOn(sys, link.handle, id), change.device,
                                           IsAccepted(link, sys, change), id))
  {
    assert ViewOn(sys, link.handle, id).Some? && link.drawn.Some? ==>
        sys.state.entries[id].sequence < link.drawn.value;
  }

  /// What an announcement leaves of a view, by whether it was accepted.
  ghost predicate Answers(after: Option<Shown>, view: Option<Shown>, device: AnnouncedDevice, accepted: bool, id: Id) {
    || after.None?
    || (id == device.id && accepted && after == Some(Shown(device.name, device.via)))
    || (after == view && !(id == device.id && accepted))
  }

  /// What the snapshot offers needs nothing of what is repeated after it.
  lemma OfferTracks(link: Link, log: seq<Change>, id: Id)
    requires link.mark.Some? && link.next <= link.mark.value <= |log|
    ensures Tracks(link, log, Offered(link.up, Replay(log[..link.mark.value]), id), id)
  {}

  lemma ItemTracks(link: Link, log: seq<Change>, view: Option<Shown>, after: Option<Shown>, accepted: bool, id: Id)
    requires link.items != [] && ItemsOk(link, log) && Tracks(link, log, view, id)
    requires accepted ==> IsRoutable(link.up, link.items[0].via)
    requires Answers(after, view, link.items[0], accepted, id)
    ensures Tracks(Advanced(link, Online(link.items[0]), accepted), log, after, id)
  {
    var device := link.items[0];
    var moved := Advanced(link, Online(device), accepted);
    assert device in link.items;
    if after.Some? && id !in moved.left {
      assert after == Offered(link.up, Replay(log[..link.mark.value]), id);
      OfferTracks(moved, log, id);
    }
  }

  /// One repeat, for a route that is held and will not be told of an Offline before the repeats end.
  lemma RepeatMoves(link: Link, log: seq<Change>, view: Option<Shown>, id: Id)
    requires Shortening(log) && link.mark.Some? && !link.IsSettling() && link.next < link.mark.value <= |log|
    requires Tracks(link, log, view, id) && FeedView(link.up, view, log[link.next], id).Some?
    requires NoOffline(log, link.next + 1, link.mark.value, id)
    ensures Repeating(link.up, log, link.next + 1, link.mark.value, FeedView(link.up, view, log[link.next], id), id,
                      true)
  {
    OneRepeatIsHarmless(link.up, log, link.next, link.mark.value, view, id, view.Some?);
  }

  lemma RepeatsEnd(upstream: Id, log: seq<Change>, q: nat, view: Option<Shown>, id: Id)
    requires q <= |log| && Repeating(upstream, log, q, q, view, id, true)
    ensures CaughtUp(upstream, Replay(log[..q]), view, id)
  {}

  /// Where a link stands that repeats and is past its snapshot.
  lemma RepeatingTracks(link: Link, log: seq<Change>, view: Option<Shown>, id: Id)
    requires link.mark.Some? && !link.IsSettling() && link.next <= link.mark.value <= |log|
    requires NoOffline(log, link.next, link.mark.value, id) ==>
               Repeating(link.up, log, link.next, link.mark.value, view, id, true)
    ensures Tracks(link, log, view, id)
  {
    if link.next == link.mark.value {
      RepeatsEnd(link.up, log, link.next, view, id);
    }
  }

  lemma RepeatTracks(link: Link, log: seq<Change>, view: Option<Shown>, after: Option<Shown>, accepted: bool, id: Id)
    requires Shortening(log) && link.mark.Some? && !link.IsSettling() && link.next < link.mark.value <= |log|
    requires Tracks(link, log, view, id)
    requires after.None? || after == FeedView(link.up, view, log[link.next], id)
    ensures Tracks(Advanced(link, log[link.next], accepted), log, after, id)
  {
    if after.Some? {
      if NoOffline(log, link.next + 1, link.mark.value, id) {
        RepeatMoves(link, log, view, id);
      }
      RepeatingTracks(Advanced(link, log[link.next], accepted), log, after, id);
    }
  }

  lemma IncrementTracks(link: Link, log: seq<Change>, view: Option<Shown>, after: Option<Shown>, accepted: bool,
                     id: Id)
    requires Shortening(log) && link.mark.Some? && !link.IsSettling() && link.mark.value <= link.next < |log|
    requires Tracks(link, log, view, id)
    requires after.None? || after == FeedView(link.up, view, log[link.next], id)
    ensures Tracks(Advanced(link, log[link.next], accepted), log, after, id)
  {
    if after.Some? {
      OneIncrementFollows(link.up, log, link.next, view, id, view.Some?);
    }
  }

  lemma HeadTracks(link: Link, log: seq<Change>, view: Option<Shown>, after: Option<Shown>, accepted: bool, id: Id)
    requires Shortening(log) && ItemsOk(link, log) && Head(link, log).Some? && Tracks(link, log, view, id)
    requires accepted ==> Head(link, log).value.Online? && !IsDropped(link, Head(link, log).value)
    requires after.None? || after == FeedView(link.up, view, Head(link, log).value, id)
    requires Head(link, log).value.Online? ==> Answers(after, view, Head(link, log).value.device, accepted, id)
    ensures Tracks(Advanced(link, Head(link, log).value, accepted), log, after, id)
  {
    if link.items != [] {
      ItemTracks(link, log, view, after, accepted, id);
    } else if link.next < link.mark.value {
      RepeatTracks(link, log, view, after, accepted, id);
    } else {
      IncrementTracks(link, log, view, after, accepted, id);
    }
  }

  /// What a link delivers was published by its lower end.
  lemma HeadWasPublished(link: Link, log: seq<Change>)
    requires ItemsOk(link, log) && Head(link, log).Some? && Head(link, log).value.Online?
    ensures Head(link, log).value in log
  {
    if link.items != [] {
      var device := link.items[0];
      assert device in link.items;
      ReplayIsPublished(log[..link.mark.value], device.id);
    }
  }

  lemma DroppedKeepsLink(net: Net, used: set<nat>, far: map<nat, Id>, tunnel: nat, link: Link)
    requires LinkOk(net, used, far, tunnel, link) && Shortening(net[link.down].log)
    requires Head(link, net[link.down].log).Some? && IsDropped(link, Head(link, net[link.down].log).value)
    ensures LinkOk(net, used, far, tunnel, Advanced(link, Head(link, net[link.down].log).value, false))
  {
    var log := net[link.down].log;
    HeadMovesItems(link, log, false);
    forall id
      ensures Tracks(Advanced(link, Head(link, log).value, false), log, ViewOn(net[link.up], link.handle, id), id)
    {
      HeadTracks(link, log, ViewOn(net[link.up], link.handle, id), ViewOn(net[link.up], link.handle, id), false, id);
    }
  }

  lemma HeadMovesItems(link: Link, log: seq<Change>, accepted: bool)
    requires ItemsOk(link, log) && Head(link, log).Some?
    ensures ItemsOk(Advanced(link, Head(link, log).value, accepted), log)
  {}

  lemma ReceivedKeepsLink(net: Net, used: set<nat>, far: map<nat, Id>, tunnel: nat, link: Link, now: int)
    requires LinkOk(net, used, far, tunnel, link) && Shortening(net[link.down].log)
    requires Head(link, net[link.down].log).Some? && !IsDropped(link, Head(link, net[link.down].log).value)
    requires Head(link, net[link.down].log).value.Online? ==> link.drawn.Some?
    requires Enabled(link.up, net[link.up], EventFor(link, Head(link, net[link.down].log).value, now))
    requires forall id :: ViewOn(net[link.up], link.handle, id).Some? ==>
                            IsAnnouncedBy(net[link.up].state.entries[id], link.handle.deviceId)
    ensures var change := Head(link, net[link.down].log).value;
            LinkOk(WithEvent(net, link.up, EventFor(link, change, now)), used, far, tunnel,
                   Advanced(link, change, IsAccepted(link, net[link.up], change)))
  {
    var log := net[link.down].log;
    var change := Head(link, log).value;
    var event := EventFor(link, change, now);
    var after := WithEvent(net, link.up, event);
    var accepted := IsAccepted(link, net[link.up], change);
    var moved := Advanced(link, change, accepted);
    LogGrows(link.up, net[link.up], event);
    HeadMovesItems(link, log, accepted);
    ItemsExtend(moved, log, after[link.down].log);
    forall id
      ensures Tracks(moved, after[link.down].log, ViewOn(after[link.up], link.handle, id), id)
    {
      var view := ViewOn(after[link.up], link.handle, id);
      OwnFrameMovesView(net[link.up], link, change, now, id);
      HeadTracks(link, log, ViewOn(net[link.up], link.handle, id), view, accepted, id);
      TracksExtends(moved, log, after[link.down].log, view, id);
    }
    if change.Offline? {
      forall id
        ensures ViewOn(after[link.up], link.handle, id).Some? && link.drawn.Some? ==>
                  after[link.up].state.entries[id].sequence < link.drawn.value
      {
        OthersLoseOrKeep(link.up, net[link.up], event, link.handle, id);
      }
    }
  }

  // ---------- every step of the network ----------

  lemma EventKeepsRelays(world: World, far: map<nat, Id>, relay: Id, event: Event)
    requires WorldOk(world, far) && relay in world.net && Enabled(relay, world.net[relay], event)
    requires event.Announce? ==>
               && event.link.tunnel in far && CleanChain(far[event.link.tunnel], event.device.via)
               && event.link.tunnel in world.links && event.linkDeviceId == event.link.deviceId
               && world.links[event.link.tunnel].up == relay && world.links[event.link.tunnel].handle == event.link
    ensures var net := WithEvent(world.net, relay, event);
            forall r :: r in net ==> RelayOk(r, net[r], far) && Placed(world.links, world.used, r, net[r])
  {
    EventKeepsRelay(relay, world.net[relay], far, event);
    if event.Announce? {
      assert LinkOk(world.net, world.used, far, event.link.tunnel, world.links[event.link.tunnel]);
    }
    EventKeepsPlaced(world.links, world.used, relay, world.net[relay], event);
  }

  /// Placement depends on a link only through its upper end and its handle.
  lemma MovedLinkKeepsPlaced(links: map<nat, Link>, used: set<nat>, relay: Id, sys: System, tunnel: nat, moved: Link)
    requires Placed(links, used, relay, sys) && tunnel in links
    requires moved.up == links[tunnel].up && moved.handle == links[tunnel].handle
    ensures Placed(links[tunnel := moved], used, relay, sys)
  {}

  /// A world stays in order when one link moves on and one event happens that the others allow.
  lemma MovedLinkKeepsWorld(world: World, far: map<nat, Id>, net: Net, tunnel: nat, moved: Link)
    requires tunnel in world.links
    requires moved.up == world.links[tunnel].up && moved.handle == world.links[tunnel].handle
    requires forall r {:trigger RelayOk(r, net[r], far)} :: r in net ==> RelayOk(r, net[r], far)
    requires forall r {:trigger Placed(world.links, world.used, r, net[r])} ::
               r in net ==> Placed(world.links, world.used, r, net[r])
    requires LinkOk(net, world.used, far, tunnel, moved)
    requires forall t {:trigger LinkOk(net, world.used, far, t, world.links[t])} ::
               t in world.links && t != tunnel ==> LinkOk(net, world.used, far, t, world.links[t])
    ensures WorldOk(World(net, world.links[tunnel := moved], world.used), far)
  {
    forall r | r in net
      ensures Placed(world.links[tunnel := moved], world.used, r, net[r])
    {
      MovedLinkKeepsPlaced(world.links, world.used, r, net[r], tunnel, moved);
    }
  }

  lemma EventKeepsOtherLinks(world: World, far: map<nat, Id>, relay: Id, event: Event, tunnel: nat)
    requires WorldOk(world, far) && relay in world.net
    requires event.Announce? ==> event.link.tunnel == tunnel
    ensures forall t :: t in world.links && t != tunnel ==>
              LinkOk(WithEvent(world.net, relay, event), world.used, far, t, world.links[t])
  {
    forall t | t in world.links && t != tunnel
      ensures LinkOk(WithEvent(world.net, relay, event), world.used, far, t, world.links[t])
    {
      assert LinkOk(world.net, world.used, far, t, world.links[t]);
      EventKeepsLink(world.net, world.used, far, relay, event, t, world.links[t]);
    }
  }

  lemma ActKeepsWorld(world: World, far: map<nat, Id>, step: Step)
    requires step.Act? && WorldOk(world, far) && CanStep(world, far, step)
    ensures WorldOk(StepWorld(world, far, step), far)
  {
    EventKeepsRelays(world, far, step.relay, step.event);
    forall tunnel | tunnel in world.links
      ensures LinkOk(WithEvent(world.net, step.relay, step.event), world.used, far, tunnel, world.links[tunnel])
    {
      EventKeepsLink(world.net, world.used, far, step.relay, step.event, tunnel, world.links[tunnel]);
    }
  }

  lemma NewLinkKeepsPlaced(links: map<nat, Link>, used: set<nat>, relay: Id, sys: System, tunnel: nat, link: Link)
    requires Placed(links, used, relay, sys) && tunnel !in used
    ensures Placed(links[tunnel := link], used + {tunnel}, relay, sys)
    ensures forall id :: ViewOn(sys, Handle(link.handle.deviceId, tunnel), id).None?
  {}

  lemma OpenKeepsWorld(world: World, far: map<nat, Id>, step: Step)
    requires step.Open? && WorldOk(world, far) && CanStep(world, far, step)
    ensures WorldOk(StepWorld(world, far, step), far)
  {
    var after := StepWorld(world, far, step);
    var link := after.links[step.tunnel];
    forall relay | relay in world.net
      ensures Placed(after.links, after.used, relay, world.net[relay])
      ensures forall id :: ViewOn(world.net[relay], link.handle, id).None?
    {
      NewLinkKeepsPlaced(world.links, world.used, relay, world.net[relay], step.tunnel, link);
    }
    assert LinkOk(after.net, after.used, far, step.tunnel, link);
    forall tunnel | tunnel in world.links
      ensures LinkOk(after.net, after.used, far, tunnel, after.links[tunnel])
    {
      assert LinkOk(world.net, world.used, far, tunnel, world.links[tunnel]);
    }
  }

  lemma SentSnapshotKeepsItems(link: Link, log: seq<Change>, jump: Jump)
    requires ItemsOk(link, log) && JumpOk(jump, log)
    ensures ItemsOk(link.(jumps := link.jumps + [jump]), log)
  {
    forall j | j in link.jumps + [jump]
      ensures JumpOk(j, log)
    {
      assert j in link.jumps || j == jump;
    }
  }

  lemma SentSnapshotKeepsLink(net: Net, used: set<nat>, far: map<nat, Id>, tunnel: nat, link: Link, jump: Jump)
    requires LinkOk(net, used, far, tunnel, link) && JumpOk(jump, net[link.down].log)
    ensures LinkOk(net, used, far, tunnel, link.(jumps := link.jumps + [jump]))
  {
    var sent := link.(jumps := link.jumps + [jump]);
    SentSnapshotKeepsItems(link, net[link.down].log, jump);
    forall id
      ensures Tracks(sent, net[link.down].log, ViewOn(net[link.up], link.handle, id), id)
    {
      assert Tracks(link, net[link.down].log, ViewOn(net[link.up], link.handle, id), id);
    }
  }

  lemma SnapshotKeepsWorld(world: World, far: map<nat, Id>, tunnel: nat, from: nat, resume: nat,
                           devices: seq<AnnouncedDevice>)
    requires WorldOk(world, far) && CanStep(world, far, TakeSnapshot(tunnel, from, resume, devices))
    ensures WorldOk(StepWorld(world, far, TakeSnapshot(tunnel, from, resume, devices)), far)
  {
    var link := world.links[tunnel];
    var log := world.net[link.down].log;
    var jump := Jump(from, resume, |log|, devices);
    assert LinkOk(world.net, world.used, far, tunnel, link);
    assert RelayOk(link.down, world.net[link.down], far);
    assert log[..|log|] == log;
    SentSnapshotKeepsLink(world.net, world.used, far, tunnel, link, jump);
    MovedLinkKeepsWorld(world, far, world.net, tunnel, link.(jumps := link.jumps + [jump]));
  }

  /// Whatever is held over the link when a snapshot begins is among what is left to settle.
  lemma BegunKeepsLink(net: Net, used: set<nat>, far: map<nat, Id>, tunnel: nat, link: Link)
    requires LinkOk(net, used, far, tunnel, link) && link.jumps != []
    requires forall id :: ViewOn(net[link.up], link.handle, id).Some? ==>
                            IsAnnouncedBy(net[link.up].state.entries[id], link.handle.deviceId)
    ensures LinkOk(net, used, far, tunnel, Begun(link, net[link.up]))
  {
    var begun, log := Begun(link, net[link.up]), net[link.down].log;
    assert link.jumps[0] in link.jumps && JumpOk(link.jumps[0], log);
    forall jump | jump in begun.jumps
      ensures JumpOk(jump, log)
    {
      assert jump in link.jumps;
    }
    forall id
      ensures Tracks(begun, log, ViewOn(net[link.up], link.handle, id), id)
    {
      assert ViewOn(net[link.up], link.handle, id).Some? ==> id in begun.left;
    }
  }

  lemma BeginKeepsWorld(world: World, far: map<nat, Id>, tunnel: nat)
    requires WorldOk(world, far) && CanStep(world, far, Begin(tunnel))
    ensures WorldOk(StepWorld(world, far, Begin(tunnel)), far)
  {
    var link := world.links[tunnel];
    OwnRoutesAreOwned(world, far, tunnel);
    BegunKeepsLink(world.net, world.used, far, tunnel, link);
    MovedLinkKeepsWorld(world, far, world.net, tunnel, Begun(link, world.net[link.up]));
  }

  /// A leftover that is withdrawn is no longer held.
  lemma LeftoverKeepsLink(net: Net, used: set<nat>, far: map<nat, Id>, tunnel: nat, link: Link, deviceId: Id, now: int)
    requires LinkOk(net, used, far, tunnel, link) && link.items == [] && deviceId in link.left
    requires forall id :: ViewOn(net[link.up], link.handle, id).Some? ==>
                            IsAnnouncedBy(net[link.up].state.entries[id], link.handle.deviceId)
    ensures LinkOk(WithEvent(net, link.up, Withdraw(link.handle.deviceId, deviceId, now)), used, far, tunnel,
                   link.(left := link.left - {deviceId}))
  {
    var event := Withdraw(link.handle.deviceId, deviceId, now);
    var after, moved := WithEvent(net, link.up, event), link.(left := link.left - {deviceId});
    EventKeepsLink(net, used, far, link.up, event, tunnel, link);
    forall id
      ensures Tracks(moved, after[link.down].log, ViewOn(after[link.up], link.handle, id), id)
    {
      assert Tracks(link, after[link.down].log, ViewOn(after[link.up], link.handle, id), id);
      assert ViewOn(after[link.up], link.handle, deviceId).None?;
    }
  }

  lemma LeftoverKeepsWorld(world: World, far: map<nat, Id>, tunnel: nat, deviceId: Id, now: int)
    requires WorldOk(world, far) && CanStep(world, far, WithdrawLeftover(tunnel, deviceId, now))
    ensures WorldOk(StepWorld(world, far, WithdrawLeftover(tunnel, deviceId, now)), far)
  {
    var link := world.links[tunnel];
    var event := Withdraw(link.handle.deviceId, deviceId, now);
    EventKeepsRelays(world, far, link.up, event);
    OwnRoutesAreOwned(world, far, tunnel);
    LeftoverKeepsLink(world.net, world.used, far, tunnel, link, deviceId, now);
    EventKeepsOtherLinks(world, far, link.up, event, tunnel);
    MovedLinkKeepsWorld(world, far, WithEvent(world.net, link.up, event), tunnel,
                        link.(left := link.left - {deviceId}));
  }

  lemma DrawnKeepsLink(net: Net, used: set<nat>, far: map<nat, Id>, tunnel: nat, link: Link)
    requires LinkOk(net, used, far, tunnel, link) && TableInvariant(link.up, net[link.up])
    ensures LinkOk(WithEvent(net, link.up, Draw), used, far, tunnel, link.(drawn := Some(net[link.up].counter)))
  {
    var moved := link.(drawn := Some(net[link.up].counter));
    var after := WithEvent(net, link.up, Draw);
    EventKeepsLink(net, used, far, link.up, Draw, tunnel, link);
    forall id
      ensures Tracks(moved, after[link.down].log, ViewOn(after[link.up], link.handle, id), id)
    {
      assert Tracks(link, after[link.down].log, ViewOn(after[link.up], link.handle, id), id);
    }
  }

  lemma DrawKeepsWorld(world: World, far: map<nat, Id>, tunnel: nat)
    requires WorldOk(world, far) && tunnel in world.links && world.links[tunnel].up in world.net
    ensures var link := world.links[tunnel];
            WorldOk(World(WithEvent(world.net, link.up, Draw),
                          world.links[tunnel := link.(drawn := Some(world.net[link.up].counter))], world.used), far)
  {
    var link := world.links[tunnel];
    assert RelayOk(link.up, world.net[link.up], far);
    EventKeepsRelays(world, far, link.up, Draw);
    DrawnKeepsLink(world.net, world.used, far, tunnel, link);
    EventKeepsOtherLinks(world, far, link.up, Draw, tunnel);
    MovedLinkKeepsWorld(world, far, WithEvent(world.net, link.up, Draw), tunnel,
                        link.(drawn := Some(world.net[link.up].counter)));
  }

  lemma DroppedKeepsWorld(world: World, far: map<nat, Id>, tunnel: nat)
    requires WorldOk(world, far) && tunnel in world.links && world.links[tunnel].down in world.net
    requires var link := world.links[tunnel];
             var head := Head(link, world.net[link.down].log);
             head.Some? && IsDropped(link, head.value)
    ensures var link := world.links[tunnel];
            var change := Head(link, world.net[link.down].log).value;
            WorldOk(World(world.net, world.links[tunnel := Advanced(link, change, false)], world.used), far)
  {
    var link := world.links[tunnel];
    assert RelayOk(link.down, world.net[link.down], far);
    DroppedKeepsLink(world.net, world.used, far, tunnel, link);
    var change := Head(link, world.net[link.down].log).value;
    MovedLinkKeepsWorld(world, far, world.net, tunnel, Advanced(link, change, false));
  }

  /// The frame in hand may be applied: what it announces was published, on a clean chain.
  lemma HeadIsClean(world: World, far: map<nat, Id>, tunnel: nat)
    requires WorldOk(world, far) && tunnel in world.links && world.links[tunnel].down in world.net
    requires var link := world.links[tunnel];
             var head := Head(link, world.net[link.down].log);
             head.Some? && head.value.Online?
    ensures var link := world.links[tunnel];
            var change := Head(link, world.net[link.down].log).value;
            && tunnel in far && far[tunnel] == link.down && link.handle.tunnel == tunnel
            && CleanChain(link.down, change.device.via)
  {
    var link := world.links[tunnel];
    assert LinkOk(world.net, world.used, far, tunnel, link);
    assert RelayOk(link.down, world.net[link.down], far);
    HeadWasPublished(link, world.net[link.down].log);
  }

  lemma OwnRoutesAreOwned(world: World, far: map<nat, Id>, tunnel: nat)
    requires WorldOk(world, far) && tunnel in world.links && world.links[tunnel].up in world.net
    ensures var link := world.links[tunnel];
            forall id :: ViewOn(world.net[link.up], link.handle, id).Some? ==>
                           IsAnnouncedBy(world.net[link.up].state.entries[id], link.handle.deviceId)
  {
    assert Placed(world.links, world.used, world.links[tunnel].up, world.net[world.links[tunnel].up]);
  }

  lemma AppliedKeepsWorld(world: World, far: map<nat, Id>, tunnel: nat, change: Change, now: int)
    requires WorldOk(world, far) && tunnel in world.links
    requires world.links[tunnel].up in world.net && world.links[tunnel].down in world.net
    requires var link := world.links[tunnel];
             && Head(link, world.net[link.down].log) == Some(change) && !IsDropped(link, change)
             && (change.Online? ==> link.drawn.Some?)
             && Enabled(link.up, world.net[link.up], EventFor(link, change, now))
    ensures var link := world.links[tunnel];
            WorldOk(World(WithEvent(world.net, link.up, EventFor(link, change, now)),
                          world.links[tunnel := Advanced(link, change, IsAccepted(link, world.net[link.up], change))],
                          world.used), far)
  {
    var link := world.links[tunnel];
    var event := EventFor(link, change, now);
    assert LinkOk(world.net, world.used, far, tunnel, link);
    assert RelayOk(link.down, world.net[link.down], far);
    if change.Online? {
      HeadIsClean(world, far, tunnel);
    }
    EventKeepsRelays(world, far, link.up, event);
    OwnRoutesAreOwned(world, far, tunnel);
    ReceivedKeepsLink(world.net, world.used, far, tunnel, link, now);
    EventKeepsOtherLinks(world, far, link.up, event, tunnel);
    MovedLinkKeepsWorld(world, far, WithEvent(world.net, link.up, event), tunnel,
                        Advanced(link, change, IsAccepted(link, world.net[link.up], change)));
  }

  lemma FewerLinksKeepPlaced(links: map<nat, Link>, fewer: map<nat, Link>, used: set<nat>, relay: Id, sys: System)
    requires Placed(links, used, relay, sys)
    requires forall t :: t in fewer ==> t in links && fewer[t] == links[t]
    ensures Placed(fewer, used, relay, sys)
  {}

  lemma CloseKeepsWorld(world: World, far: map<nat, Id>, tunnel: nat)
    requires WorldOk(world, far)
    ensures WorldOk(World(world.net, world.links - {tunnel}, world.used), far)
  {
    forall relay | relay in world.net
      ensures Placed(world.links - {tunnel}, world.used, relay, world.net[relay])
    {
      FewerLinksKeepPlaced(world.links, world.links - {tunnel}, world.used, relay, world.net[relay]);
    }
  }

  lemma InitialRelayIsOk(relay: Id, far: map<nat, Id>)
    ensures RelayOk(relay, INITIAL, far)
  {}

  /// A link looks at its two ends only.
  lemma LinkSeesItsEnds(net: Net, after: Net, used: set<nat>, far: map<nat, Id>, tunnel: nat, link: Link)
    requires LinkOk(net, used, far, tunnel, link)
    requires link.up in after && after[link.up] == net[link.up]
    requires link.down in after && after[link.down] == net[link.down]
    ensures LinkOk(after, used, far, tunnel, link)
  {}

  lemma RestartKeepsLinks(world: World, far: map<nat, Id>, relay: Id)
    requires WorldOk(world, far) && relay in world.net
    ensures forall t :: t in world.links && world.links[t].up != relay && world.links[t].down != relay ==>
              LinkOk(world.net[relay := INITIAL], world.used, far, t, world.links[t])
  {
    forall t | t in world.links && world.links[t].up != relay && world.links[t].down != relay
      ensures LinkOk(world.net[relay := INITIAL], world.used, far, t, world.links[t])
    {
      LinkSeesItsEnds(world.net, world.net[relay := INITIAL], world.used, far, t, world.links[t]);
    }
  }

  lemma RestartKeepsWorld(world: World, far: map<nat, Id>, relay: Id)
    requires WorldOk(world, far) && relay in world.net
    ensures WorldOk(World(world.net[relay := INITIAL],
                          map t | t in world.links && world.links[t].up != relay && world.links[t].down != relay
                            :: world.links[t],
                          world.used), far)
  {
    var links := map t | t in world.links && world.links[t].up != relay && world.links[t].down != relay
                   :: world.links[t];
    InitialRelayIsOk(relay, far);
    RestartKeepsLinks(world, far, relay);
    forall r | r in world.net && r != relay
      ensures Placed(links, world.used, r, world.net[r])
    {
      FewerLinksKeepPlaced(world.links, links, world.used, r, world.net[r]);
    }
  }

  lemma StepKeepsWorld(world: World, far: map<nat, Id>, step: Step)
    requires WorldOk(world, far) && CanStep(world, far, step)
    ensures WorldOk(StepWorld(world, far, step), far)
  {
    match step
    case Act(_, _) => ActKeepsWorld(world, far, step);
    case Open(_, _, _, _) => OpenKeepsWorld(world, far, step);
    case TakeSnapshot(tunnel, from, resume, devices) => SnapshotKeepsWorld(world, far, tunnel, from, resume, devices);
    case Begin(tunnel) => BeginKeepsWorld(world, far, tunnel);
    case WithdrawLeftover(tunnel, deviceId, now) => LeftoverKeepsWorld(world, far, tunnel, deviceId, now);
    case DrawFor(tunnel) => DrawKeepsWorld(world, far, tunnel);
    case Receive(tunnel, now) =>
      var link := world.links[tunnel];
      var change := Head(link, world.net[link.down].log).value;
      if IsDropped(link, change) {
        DroppedKeepsWorld(world, far, tunnel);
      } else {
        AppliedKeepsWorld(world, far, tunnel, change, now);
      }
    case Close(tunnel) => CloseKeepsWorld(world, far, tunnel);
    case RestartRelay(relay) => RestartKeepsWorld(world, far, relay);
  }

  lemma {:induction false} WorldHoldsInEveryRun(relays: set<Id>, far: map<nat, Id>, steps: seq<Step>)
    requires RunWorld(relays, far, steps).Some?
    ensures WorldOk(RunWorld(relays, far, steps).value, far)
  {
    if steps == [] {
      forall relay | relay in relays
        ensures RelayOk(relay, INITIAL, far)
      {
        InitialRelayIsOk(relay, far);
      }
    } else {
      WorldHoldsInEveryRun(relays, far, steps[..|steps| - 1]);
      StepKeepsWorld(RunWorld(relays, far, steps[..|steps| - 1]).value, far, steps[|steps| - 1]);
    }
  }

  // ---------- links that have delivered everything ----------

  ghost predicate Drained(world: World, tunnel: nat) {
    && tunnel in world.links
    && world.links[tunnel].mark.Some?
    && !world.links[tunnel].IsSettling()
    && world.links[tunnel].jumps == []
    && world.links[tunnel].down in world.net
    && world.links[tunnel].next >= |world.net[world.links[tunnel].down].log|
  }

  /// The route of a device leads over a tunnel whose far end has nothing left to say.
  ghost predicate OverDrainedLink(world: World, relay: Id, id: Id) {
    && relay in world.net && id in world.net[relay].state.entries
    && world.net[relay].state.entries[id].device.route.Via?
    && Drained(world, world.net[relay].state.entries[id].device.route.link.tunnel)
  }

  /// The chain the next relay announces for the device now can be used here: it has not turned back
  /// through this relay since.
  ghost predicate StillUsable(world: World, far: map<nat, Id>, relay: Id, id: Id)
    requires relay in world.net && id in world.net[relay].state.entries
    requires world.net[relay].state.entries[id].device.route.Via?
  {
    var tunnel := world.net[relay].state.entries[id].device.route.link.tunnel;
    && tunnel in far && far[tunnel] in world.net
    && var announced := Announced(far[tunnel], world.net[far[tunnel]].state.entries);
       id in announced && IsRoutable(relay, announced[id].via)
  }

  /// In every run, whoever else competed for the device: a route over a link that has delivered
  /// everything is one the next relay still announces, and if the chain announced now can be used, it
  /// is the chain of the route, under the announced name.
  lemma DrainedRoutesAreCurrent(relays: set<Id>, far: map<nat, Id>, steps: seq<Step>, relay: Id, id: Id)
    requires RunWorld(relays, far, steps).Some?
    requires OverDrainedLink(RunWorld(relays, far, steps).value, relay, id)
    ensures var world := RunWorld(relays, far, steps).value;
            var device := world.net[relay].state.entries[id].device;
            && device.route.link.tunnel in far
            && var next := far[device.route.link.tunnel];
               && next in world.net
               && var announced := Announced(next, world.net[next].state.entries);
                  && id in announced
                  && |announced[id].via| <= |device.route.hops|
                  && (StillUsable(world, far, relay, id) ==>
                        device.route.hops == announced[id].via && device.name == announced[id].name)
  {
    var world := RunWorld(relays, far, steps).value;
    WorldHoldsInEveryRun(relays, far, steps);
    DrainedRouteIsCurrent(world, far, relay, id);
  }

  lemma DrainedRouteIsCurrent(world: World, far: map<nat, Id>, relay: Id, id: Id)
    requires WorldOk(world, far) && OverDrainedLink(world, relay, id)
    ensures var device := world.net[relay].state.entries[id].device;
            && device.route.link.tunnel in far
            && var next := far[device.route.link.tunnel];
               && next in world.net
               && CaughtUp(relay, Announced(next, world.net[next].state.entries),
                    Some(Shown(device.name, device.route.hops)), id)
  {
    var route := world.net[relay].state.entries[id].device.route;
    var tunnel := route.link.tunnel;
    assert Placed(world.links, world.used, relay, world.net[relay]);
    var link := world.links[tunnel];
    assert LinkOk(world.net, world.used, far, tunnel, link);
    var log := world.net[link.down].log;
    assert RelayOk(link.down, world.net[link.down], far);
    assert Tracks(link, log, ViewOn(world.net[relay], route.link, id), id);
    assert log[..|log|] == log;
  }

  // ---------- when all of them have ----------

  /// Every announced route leads over a link that has delivered everything.
  ghost predicate Settled(world: World) {
    forall relay, id {:trigger OverDrainedLink(world, relay, id)} ::
      relay in world.net && id in world.net[relay].state.entries
      && world.net[relay].state.entries[id].device.route.Via? ==>
        OverDrainedLink(world, relay, id)
  }

  ghost predicate AgreedEverywhere(world: World, far: map<nat, Id>) {
    forall relay, id :: relay in world.net && id in world.net[relay].state.entries ==>
                          Agreed(world.net, far, world.net[relay].state.entries[id].device.route, id)
  }

  ghost predicate NoneTurnedBack(world: World, far: map<nat, Id>) {
    forall relay, id {:trigger StillUsable(world, far, relay, id)} ::
      relay in world.net && id in world.net[relay].state.entries
      && world.net[relay].state.entries[id].device.route.Via? ==>
        StillUsable(world, far, relay, id)
  }

  /// One hop of a current route: the next relay routes the device along the rest of it.
  lemma DrainedHop(world: World, far: map<nat, Id>, relay: Id, id: Id)
    requires WorldOk(world, far) && OverDrainedLink(world, relay, id) && StillUsable(world, far, relay, id)
    ensures var route := world.net[relay].state.entries[id].device.route;
            && route.link.tunnel in far && far[route.link.tunnel] in world.net
            && var next := far[route.link.tunnel];
               && id in world.net[next].state.entries
               && route.hops == [next] + world.net[next].state.entries[id].device.route.Hops()
  {
    DrainedRouteIsCurrent(world, far, relay, id);
  }

  lemma {:induction false} SettledRouteIsAgreed(world: World, far: map<nat, Id>, relay: Id, id: Id)
    requires WorldOk(world, far) && Settled(world) && NoneTurnedBack(world, far)
    requires relay in world.net && id in world.net[relay].state.entries
    ensures Agreed(world.net, far, world.net[relay].state.entries[id].device.route, id)
    decreases |world.net[relay].state.entries[id].device.route.Hops()|
  {
    var route := world.net[relay].state.entries[id].device.route;
    if route.Via? {
      DrainedHop(world, far, relay, id);
      SettledRouteIsAgreed(world, far, far[route.link.tunnel], id);
    }
  }

  lemma InstalledChainIsUsable(world: World, far: map<nat, Id>, relay: Id, id: Id)
    requires WorldOk(world, far) && relay in world.net && id in world.net[relay].state.entries
    ensures IsRoutable(relay, world.net[relay].state.entries[id].device.route.Hops())
  {
    var sys := world.net[relay];
    assert RelayOk(relay, sys, far);
    assert EntryOk(relay, id, sys.state.entries[id], sys.counter, sys.held);
  }

  lemma AgreedRouteIsUsable(world: World, far: map<nat, Id>, relay: Id, id: Id)
    requires WorldOk(world, far) && OverDrainedLink(world, relay, id)
    requires Agreed(world.net, far, world.net[relay].state.entries[id].device.route, id)
    ensures StillUsable(world, far, relay, id)
  {
    DrainedRouteIsCurrent(world, far, relay, id);
    InstalledChainIsUsable(world, far, relay, id);
    var route := world.net[relay].state.entries[id].device.route;
    assert route.hops == [route.hops[0]] + route.hops[1..];
  }

  /// Once every link has delivered everything, the tables along all routes agree with each other if and
  /// only if no relay's current chain turns back through the relay that routes over it.
  lemma SettledTablesAgreeIff(relays: set<Id>, far: map<nat, Id>, steps: seq<Step>)
    requires RunWorld(relays, far, steps).Some? && Settled(RunWorld(relays, far, steps).value)
    ensures AgreedEverywhere(RunWorld(relays, far, steps).value, far)
            <==> NoneTurnedBack(RunWorld(relays, far, steps).value, far)
  {
    var world := RunWorld(relays, far, steps).value;
    WorldHoldsInEveryRun(relays, far, steps);
    if NoneTurnedBack(world, far) {
      forall relay, id | relay in world.net && id in world.net[relay].state.entries
        ensures Agreed(world.net, far, world.net[relay].state.entries[id].device.route, id)
      {
        SettledRouteIsAgreed(world, far, relay, id);
      }
    }
    if AgreedEverywhere(world, far) {
      forall relay, id | relay in world.net && id in world.net[relay].state.entries
                         && world.net[relay].state.entries[id].device.route.Via?
        ensures StillUsable(world, far, relay, id)
      {
        AgreedRouteIsUsable(world, far, relay, id);
      }
    }
  }

  /// And then every stream arrives: it crosses exactly the announced relays and reaches the tunnel the
  /// last of them has the device on.
  lemma SettledStreamsArrive(relays: set<Id>, far: map<nat, Id>, steps: seq<Step>, relay: Id, id: Id, v: nat)
    requires RunWorld(relays, far, steps).Some?
    requires Settled(RunWorld(relays, far, steps).value) && NoneTurnedBack(RunWorld(relays, far, steps).value, far)
    requires relay in RunWorld(relays, far, steps).value.net
    requires id in RunWorld(relays, far, steps).value.net[relay].state.entries
    requires RunWorld(relays, far, steps).value.net[relay].state.entries[id].device.route.Via?
    ensures StreamArrives(RunWorld(relays, far, steps).value.net, far, relay, id, v)
  {
    var world := RunWorld(relays, far, steps).value;
    WorldHoldsInEveryRun(relays, far, steps);
    SettledRouteIsAgreed(world, far, relay, id);
    forall r | r in world.net
      ensures CleanRelay(r, world.net[r], far)
    {
      assert RelayOk(r, world.net[r], far);
    }
    AgreedStreamArrives(world.net, far, relay, id, v);
  }
}
