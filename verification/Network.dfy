/// A network of relays running the registry, each announcing to others what it published at any
/// earlier time: announcements may be delayed, lost, repeated and reordered, and relays may restart.
module Network {
  import opened Protocol
  import opened RoutingTable
  import opened RegistryRuns
  import opened Forwarding

  /// The registries of all relays, by relay id.
  type Net = map<Id, System>

  datatype NetStep = Act(relay: Id, event: Event) | Restart(relay: Id)

  /// A device announced to a relay over a tunnel, in a snapshot or as an increment, was published by the
  /// relay behind that tunnel at some time.
  ghost predicate WasPublished(net: Net, far: map<nat, Id>, link: Handle, device: AnnouncedDevice) {
    && link.tunnel in far && far[link.tunnel] in net
    && exists shown :: Online(shown) in net[far[link.tunnel]].log && shown.id == device.id && shown.via == device.via
  }

  ghost predicate CanHappen(net: Net, far: map<nat, Id>, step: NetStep) {
    && step.relay in net
    && (step.Act? ==> Enabled(step.relay, net[step.relay], step.event))
    && (step.Act? && step.event.Announce? ==> WasPublished(net, far, step.event.link, step.event.device))
  }

  /// A restarted relay has an empty table, but what it published before may still be on its way.
  function Restarted(sys: System): System {
    INITIAL.(log := sys.log)
  }

  function StepNet(net: Net, step: NetStep): Net {
    if step.relay !in net then net
    else if step.Restart? then net[step.relay := Restarted(net[step.relay])]
    else net[step.relay := Next(step.relay, net[step.relay], step.event)]
  }

  function RunNet(relays: set<Id>, steps: seq<NetStep>): Net {
    if steps == [] then map relay | relay in relays :: INITIAL
    else StepNet(RunNet(relays, steps[..|steps| - 1]), steps[|steps| - 1])
  }

  ghost predicate ValidNet(relays: set<Id>, far: map<nat, Id>, steps: seq<NetStep>) {
    steps != [] ==>
      && ValidNet(relays, far, steps[..|steps| - 1])
      && CanHappen(RunNet(relays, steps[..|steps| - 1]), far, steps[|steps| - 1])
  }

  /// A chain that names every relay once, starts at the relay that announces it and fits the budget.
  ghost predicate CleanChain(announcer: Id, via: seq<Id>) {
    NoDuplicates(via) && via != [] && via[0] == announcer && |via| <= MAX_HOPS
  }

  ghost predicate CleanLog(relay: Id, log: seq<Change>) {
    forall c :: c in log && c.Online? ==> CleanChain(relay, c.device.via)
  }

  ghost predicate CleanRoute(route: Route, far: map<nat, Id>) {
    route.Via? ==> route.link.tunnel in far && CleanChain(far[route.link.tunnel], route.hops)
  }

  /// Everything the relay could announce now was published, so what a snapshot lists is in the log.
  ghost predicate AnnouncementsArePublished(relay: Id, sys: System) {
    forall id :: id in Announced(relay, sys.state.entries) ==>
                   && Announced(relay, sys.state.entries)[id].id == id
                   && Online(Announced(relay, sys.state.entries)[id]) in sys.log
  }

  ghost predicate CleanRelay(relay: Id, sys: System, far: map<nat, Id>) {
    && TableInvariant(relay, sys)
    && AnnouncementsArePublished(relay, sys)
    && CleanLog(relay, sys.log)
    && (forall id :: id in sys.state.entries ==> CleanRoute(sys.state.entries[id].device.route, far))
  }

  ghost predicate CleanNet(net: Net, far: map<nat, Id>) {
    forall relay :: relay in net ==> CleanRelay(relay, net[relay], far)
  }

  lemma OwnChainIsClean(relay: Id, hops: seq<Id>)
    requires NoDuplicates(hops) && IsRoutable(relay, hops)
    ensures CleanChain(relay, [relay] + hops)
  {}

  lemma {:induction false} OfflineChangesAreClean(relay: Id, entries: map<Id, Entry>, ids: seq<Id>)
    ensures CleanLog(relay, OfflineChanges(relay, entries, ids))
  {
    if ids != [] {
      OfflineChangesAreClean(relay, entries, ids[..|ids| - 1]);
    }
  }

  lemma StepKeepsPublished(relay: Id, sys: System, event: Event)
    requires TableInvariant(relay, sys) && Enabled(relay, sys, event) && AnnouncementsArePublished(relay, sys)
    ensures AnnouncementsArePublished(relay, Next(relay, sys, event))
  {
    var after := Next(relay, sys, event);
    assert sys.log <= after.log;
    forall id | id in Announced(relay, after.state.entries)
      ensures Announced(relay, after.state.entries)[id].id == id
      ensures Online(Announced(relay, after.state.entries)[id]) in after.log
    {
      var shown := Announced(relay, after.state.entries)[id];
      if id in sys.state.entries && after.state.entries[id] == sys.state.entries[id] {
        assert Announced(relay, sys.state.entries)[id] == shown;
      } else {
        assert after.log[|after.log| - 1] == Online(shown);
      }
    }
  }

  lemma EventKeepsClean(relay: Id, sys: System, far: map<nat, Id>, event: Event)
    requires CleanRelay(relay, sys, far) && Enabled(relay, sys, event)
    requires event.Announce? ==>
               event.link.tunnel in far && CleanChain(far[event.link.tunnel], event.device.via)
    ensures CleanRelay(relay, Next(relay, sys, event), far)
  {
    StepKeepsTable(relay, sys, event);
    StepKeepsPublished(relay, sys, event);
    match event {
      case Draw =>
      case Connect(presence, serial, now) =>
        OwnChainIsClean(relay, []);
        assert DirectEntry(presence, serial, now).device.route.Hops() == [];
      case Disconnect(deviceId, serial, order) =>
        OfflineChangesAreClean(relay, sys.state.entries, [deviceId] + order);
      case Announce(_, link, device, _, _) =>
        OwnChainIsClean(relay, device.via);
      case Withdraw(_, _, _) =>
    }
  }

  lemma StepKeepsClean(net: Net, far: map<nat, Id>, step: NetStep)
    requires CleanNet(net, far) && CanHappen(net, far, step)
    ensures CleanNet(StepNet(net, step), far)
  {
    if step.Act? {
      if step.event.Announce? {
        assert CleanRelay(far[step.event.link.tunnel], net[far[step.event.link.tunnel]], far);
      }
      EventKeepsClean(step.relay, net[step.relay], far, step.event);
    }
  }

  /// In every run of the network every published chain names each relay once, and every installed
  /// route starts at the relay behind its tunnel.
  lemma {:induction false} ChainsAreCleanInEveryRun(relays: set<Id>, far: map<nat, Id>, steps: seq<NetStep>)
    requires ValidNet(relays, far, steps)
    ensures CleanNet(RunNet(relays, steps), far)
  {
    if steps != [] {
      ChainsAreCleanInEveryRun(relays, far, steps[..|steps| - 1]);
      StepKeepsClean(RunNet(relays, steps[..|steps| - 1]), far, steps[|steps| - 1]);
    }
  }

  /// Whatever a relay lists in a snapshot, also after a restart, may be announced over its tunnels.
  lemma SnapshotsWerePublished(relays: set<Id>, far: map<nat, Id>, steps: seq<NetStep>, link: Handle, id: Id)
    requires ValidNet(relays, far, steps)
    requires link.tunnel in far && far[link.tunnel] in RunNet(relays, steps)
    requires id in Announced(far[link.tunnel], RunNet(relays, steps)[far[link.tunnel]].state.entries)
    ensures WasPublished(RunNet(relays, steps), far, link,
                         Announced(far[link.tunnel], RunNet(relays, steps)[far[link.tunnel]].state.entries)[id])
  {
    ChainsAreCleanInEveryRun(relays, far, steps);
    var relay := far[link.tunnel];
    assert CleanRelay(relay, RunNet(relays, steps)[relay], far);
  }

  /// A stream that follows the route its lookup answers, hop by hop, is refused by none of its relays.
  lemma InstalledRoutesAreFollowable(relays: set<Id>, far: map<nat, Id>, steps: seq<NetStep>, relay: Id, id: Id, v: nat)
    requires ValidNet(relays, far, steps)
    requires relay in RunNet(relays, steps) && RouteIn(RunNet(relays, steps)[relay].state, id).Some?
    ensures var route := RouteIn(RunNet(relays, steps)[relay].state, id).value;
            match route
            case Direct(_) => FirstPreface(v, route, id, relay) == StreamPreface(v, id, [])
            case Via(_, hops) =>
              && FirstPreface(v, route, id, relay) == StreamPreface(v, id, [relay])
              && ExtendAll(FirstPreface(v, route, id, relay), hops) == Forward(StreamPreface(v, id, [relay] + hops))
  {
    ChainsAreCleanInEveryRun(relays, far, steps);
    var net := RunNet(relays, steps);
    var entry := net[relay].state.entries[id];
    assert CleanRelay(relay, net[relay], far) && CleanRoute(entry.device.route, far);
    var first := FirstPreface(v, entry.device.route, id, relay);
    if entry.device.route.Via? {
      OwnChainIsClean(relay, entry.device.route.hops);
    }
    PathIsCarriedIff(first, entry.device.route.Hops());
  }

  // ---------- delivery when the tables agree ----------

  function RoutesOf(sys: System): map<Id, Route> {
    map id | id in sys.state.entries && RouteIn(sys.state, id).Some? :: RouteIn(sys.state, id).value
  }

  /// The relays along a route all still route the device along the rest of it.
  ghost predicate Agreed(net: Net, far: map<nat, Id>, route: Route, id: Id)
    decreases |route.Hops()|
  {
    route.Via? ==>
      && route.hops != []
      && route.link.tunnel in far && far[route.link.tunnel] == route.hops[0]
      && route.hops[0] in net && id in net[route.hops[0]].state.entries
      && var next := net[route.hops[0]].state.entries[id].device.route;
         next.Hops() == route.hops[1..] && (next.Via? || route.hops[1..] == []) && Agreed(net, far, next, id)
  }

  /// The tunnel at the far end of a route, as the tables lead to it.
  function Farthest(net: Net, route: Route, id: Id): Handle
    decreases |route.Hops()|
  {
    if route.Via? && route.hops != [] && route.hops[0] in net && id in net[route.hops[0]].state.entries
       && |net[route.hops[0]].state.entries[id].device.route.Hops()| < |route.hops|
    then Farthest(net, net[route.hops[0]].state.entries[id].device.route, id)
    else route.Link()
  }

  lemma {:induction false} AgreedRouteIsTravelled(net: Net, far: map<nat, Id>, route: Route, id: Id, n: nat,
                                                  preface: StreamPreface)
    requires route.Via? && Agreed(net, far, route, id)
    requires preface.target == id && NoDuplicates(preface.hops + route.hops)
    requires |preface.hops + route.hops| <= MAX_HOPS
    ensures var trip := Travel((m, relay) => if relay in net then RoutesOf(net[relay]) else map[],
                               tunnel => if tunnel in far then Some(far[tunnel]) else None, n, route.hops[0], preface);
            trip.carried == route.hops && trip.end == Delivered(Farthest(net, route, id))
            && trip.preface.hops == preface.hops + route.hops
    decreases |route.hops|
  {
    var routes := (m: nat, relay: Id) => if relay in net then RoutesOf(net[relay]) else map[];
    var tunnels := (tunnel: nat) => if tunnel in far then Some(far[tunnel]) else None;
    var relay := route.hops[0];
    var all := preface.hops + route.hops;
    assert all[|preface.hops|] == relay;
    forall i | 0 <= i < |preface.hops|
      ensures preface.hops[i] != relay
    {
      assert all[i] == preface.hops[i];
    }
    var next := StreamPreface(preface.v, preface.target, preface.hops + [relay]);
    assert Extend(preface, relay) == Forward(next);
    var onward := net[relay].state.entries[id].device.route;
    assert routes(n, relay)[id] == onward;
    if onward.Direct? {
      assert route.hops == [relay];
    } else {
      assert next.hops + onward.hops == all;
      AgreedRouteIsTravelled(net, far, onward, id, n + 1, next);
      assert route.hops == [relay] + onward.hops;
    }
  }

  /// That tunnel is the one the last relay of the chain has the device on.
  lemma {:induction false} FarthestIsTheDevice(net: Net, far: map<nat, Id>, route: Route, id: Id)
    requires route.Via? && Agreed(net, far, route, id)
    ensures var last := route.hops[|route.hops| - 1];
            && last in net && id in net[last].state.entries
            && net[last].state.entries[id].device.route == Direct(Farthest(net, route, id))
    decreases |route.hops|
  {
    var onward := net[route.hops[0]].state.entries[id].device.route;
    if onward.Via? {
      FarthestIsTheDevice(net, far, onward, id);
      assert route.hops[1..][|route.hops| - 2] == route.hops[|route.hops| - 1];
    }
  }

  /// A stream opened at a relay crosses exactly the relays on its route, and reaches the tunnel the last
  /// of them has the device on.
  ghost predicate StreamArrives(net: Net, far: map<nat, Id>, relay: Id, id: Id, v: nat)
    requires relay in net && id in net[relay].state.entries && net[relay].state.entries[id].device.route.Via?
  {
    var route := net[relay].state.entries[id].device.route;
    && route.hops != []
    && var trip := Travel((m, relay) => if relay in net then RoutesOf(net[relay]) else map[],
                          tunnel => if tunnel in far then Some(far[tunnel]) else None,
                          0, route.hops[0], FirstPreface(v, route, id, relay));
       var last := route.hops[|route.hops| - 1];
       && trip.carried == route.hops
       && last in net && id in net[last].state.entries && net[last].state.entries[id].device.route.Direct?
       && trip.end == Delivered(net[last].state.entries[id].device.route.handle)
  }

  lemma AgreedStreamArrives(net: Net, far: map<nat, Id>, relay: Id, id: Id, v: nat)
    requires CleanNet(net, far) && relay in net && id in net[relay].state.entries
    requires net[relay].state.entries[id].device.route.Via?
    requires Agreed(net, far, net[relay].state.entries[id].device.route, id)
    ensures StreamArrives(net, far, relay, id, v)
  {
    var route := net[relay].state.entries[id].device.route;
    assert CleanRelay(relay, net[relay], far) && CleanRoute(route, far);
    OwnChainIsClean(relay, route.hops);
    AgreedRouteIsTravelled(net, far, route, id, 0, FirstPreface(v, route, id, relay));
    FarthestIsTheDevice(net, far, route, id);
  }

  /// When the tables along an installed route agree, a stream opened on it arrives.
  lemma AgreedStreamsArrive(relays: set<Id>, far: map<nat, Id>, steps: seq<NetStep>, relay: Id, id: Id, v: nat)
    requires ValidNet(relays, far, steps)
    requires relay in RunNet(relays, steps) && id in RunNet(relays, steps)[relay].state.entries
    requires RunNet(relays, steps)[relay].state.entries[id].device.route.Via?
    requires Agreed(RunNet(relays, steps), far, RunNet(relays, steps)[relay].state.entries[id].device.route, id)
    ensures StreamArrives(RunNet(relays, steps), far, relay, id, v)
  {
    ChainsAreCleanInEveryRun(relays, far, steps);
    AgreedStreamArrives(RunNet(relays, steps), far, relay, id, v);
  }
}
