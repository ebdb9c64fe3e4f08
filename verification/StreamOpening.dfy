/// Where streams start and where they are carried on: both ask the routing table as it is at that moment.
module StreamOpening {
  import opened Protocol
  import opened RoutingTable
  import opened RegistryObject
  import opened Forwarding

  /// All routes of a registry.
  ghost function RouteTable(registry: Registry): map<Id, Route>
    reads registry
  {
    map id | id in registry.entries :: registry.entries[id].device.route
  }

  /// The first hop: over the device's own tunnel with no hops, or over the link that announced it with
  /// this relay as the only hop.
  method OpenStream(registry: Registry, deviceId: Id, v: nat) returns (opening: Option<Opening>)
    requires registry.Valid()
    ensures opening.None? <==> deviceId !in registry.entries
    ensures opening.Some? ==>
              match registry.entries[deviceId].device.route
              case Direct(handle) => opening.value == Opening(handle, StreamPreface(v, deviceId, []))
              case Via(link, _) => opening.value == Opening(link, StreamPreface(v, deviceId, [registry.relayId]))
  {
    var route := registry.RouteTo(deviceId);
    if route.None? {
      return None;
    }
    opening := Some(Opening(route.value.Link(), FirstPreface(v, route.value, deviceId, registry.relayId)));
  }

  /// A hop in the middle: refused if this relay was crossed before, else if the budget is used up, else
  /// if the target has no route here; otherwise carried on with this relay as the last hop.
  method Carry(registry: Registry, preface: StreamPreface) returns (carried: Carried)
    requires registry.Valid()
    ensures carried == CarryIn(RouteTable(registry), registry.relayId, preface)
    ensures registry.relayId in preface.hops ==> carried == TurnedAway(Loop)
    ensures registry.relayId !in preface.hops && |preface.hops| >= MAX_HOPS ==>
              carried == TurnedAway(Budget(|preface.hops|))
    ensures registry.relayId !in preface.hops && |preface.hops| < MAX_HOPS ==>
              if preface.target !in registry.entries then carried == TurnedAway(Unknown(preface.target))
              else
                var onward := StreamPreface(preface.v, preface.target, preface.hops + [registry.relayId]);
                match registry.entries[preface.target].device.route
                case Direct(handle) => carried == CarriedOn(Opening(handle, onward))
                case Via(link, _) => carried == CarriedOn(Opening(link, onward))
  {
    var extended := Extend(preface, registry.relayId);
    if extended.Refused? {
      return TurnedAway(extended.reason);
    }
    var route := registry.RouteTo(extended.preface.target);
    if route.None? {
      return TurnedAway(Unknown(extended.preface.target));
    }
    carried := CarriedOn(Opening(route.value.Link(), extended.preface));
  }
}
