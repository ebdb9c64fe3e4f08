/// What each step of the registry makes of the table and publishes, entry by entry, and which entries a
/// subscriber sees. Nothing here is said in terms of the functions the steps are computed with.
module StepEffects {
  import opened Protocol
  import opened RoutingTable
  import opened RegistryRuns

  /// Every desktop is a destination, and so is everything another relay announced; a relay on a tunnel of
  /// its own is not.
  ghost predicate IsDestination(entry: Entry) {
    entry.device.kind == Desktop || entry.device.route.Via?
  }

  /// How a destination is seen from above: under its id and name, online, through this relay and then
  /// whatever relays its route names.
  ghost function SeenFromAbove(relay: Id, id: Id, entry: Entry): AnnouncedDevice {
    AnnouncedDevice(id, entry.device.name, true,
                    match entry.device.route
                    case Direct(_) => [relay]
                    case Via(_, hops) => [relay] + hops)
  }

  /// A subscriber that has seen `known` sees exactly the destinations of the table.
  ghost predicate SeesDestinations(relay: Id, known: map<Id, AnnouncedDevice>, entries: map<Id, Entry>) {
    && (forall id :: id in known <==> id in entries && IsDestination(entries[id]))
    && (forall id :: id in known ==> known[id] == SeenFromAbove(relay, id, entries[id]))
  }

  lemma AnnouncedAreDestinations(relay: Id, sys: System)
    requires TableInvariant(relay, sys)
    ensures SeesDestinations(relay, Announced(relay, sys.state.entries), sys.state.entries)
  {}

  /// In every run, replaying the published changes shows exactly the destinations of the table, each
  /// under its id and name on its chain.
  lemma ReplayShowsDestinations(relay: Id, events: seq<Event>)
    requires ValidRun(relay, events)
    ensures SeesDestinations(relay, Replay(Run(relay, events).log), Run(relay, events).state.entries)
  {
    LogRefinesTableInEveryRun(relay, events);
    TableHoldsInEveryRun(relay, events);
    AnnouncedAreDestinations(relay, Run(relay, events));
  }

  // ---------- a registration ----------

  /// What a registration publishes: a desktop goes online on this relay's own chain, a link takes the
  /// destination it displaces offline, and any other link publishes nothing.
  ghost function PublishedByConnect(relay: Id, entries: map<Id, Entry>, presence: Presence): seq<Change> {
    if presence.kind == Desktop then
      [Online(AnnouncedDevice(presence.deviceId, presence.name, true, [relay]))]
    else if presence.deviceId in entries && IsDestination(entries[presence.deviceId]) then
      [Offline(presence.deviceId)]
    else
      []
  }

  /// The table with the registered tunnel as the device's only route; a declared relay id names the
  /// device if it is a relay.
  ghost predicate Registers(before: State, after: State, presence: Presence, serial: nat, now: int) {
    var id := presence.deviceId;
    && id in after.entries
    && after.entries[id].device
       == OnlineDevice(id, presence.name, presence.kind, now, presence.ip, presence.version, Direct(presence.handle))
    && after.entries[id].origin == DirectTunnel(serial) && after.entries[id].sequence == serial
    && after.entries - {id} == before.entries - {id}
    && after.withdrawn == before.withdrawn - {id}
    && after.relayLinks == if presence.kind == Relay && presence.relayId.Some?
                           then before.relayLinks[presence.relayId.value := id]
                           else before.relayLinks
  }

  lemma ConnectEffect(relay: Id, sys: System, presence: Presence, serial: nat, now: int)
    requires TableInvariant(relay, sys)
    ensures var after := Next(relay, sys, Connect(presence, serial, now));
            && Registers(sys.state, after.state, presence, serial, now)
            && after.log == sys.log + PublishedByConnect(relay, sys.state.entries, presence)
  {
    var relays := [relay];
    assert relays + [] == relays;
  }

  // ---------- an announcement ----------

  /// An announced device takes the place of no route, of a longer one, or of an equally long one that
  /// was numbered earlier; never of a direct tunnel.
  ghost predicate TakesPlace(entries: map<Id, Entry>, device: AnnouncedDevice, sequence: nat) {
    device.id in entries ==>
      match entries[device.id].device.route
      case Direct(_) => false
      case Via(_, hops) =>
        || |device.via| < |hops|
        || (|device.via| == |hops| && entries[device.id].sequence < sequence)
  }

  ghost predicate InstallsAnnounced(before: State, after: State, linkDeviceId: Id, link: Handle,
                                    device: AnnouncedDevice, sequence: nat, now: int)
  {
    && device.id in after.entries
    && after.entries[device.id].device
       == OnlineDevice(device.id, device.name, Desktop, now, None, None, Via(link, device.via))
    && after.entries[device.id].origin == AnnouncedBy(linkDeviceId)
    && after.entries[device.id].sequence == sequence
    && after.entries - {device.id} == before.entries - {device.id}
    && after.withdrawn == before.withdrawn - {device.id}
    && after.relayLinks == before.relayLinks
  }

  /// An announcement that takes the place of what is there is installed and published one hop longer;
  /// any other changes nothing and publishes nothing.
  lemma AnnounceEffect(relay: Id, sys: System, linkDeviceId: Id, link: Handle, device: AnnouncedDevice, sequence: nat,
                       now: int)
    ensures var after := Next(relay, sys, Announce(linkDeviceId, link, device, sequence, now));
            if TakesPlace(sys.state.entries, device, sequence) then
              && InstallsAnnounced(sys.state, after.state, linkDeviceId, link, device, sequence, now)
              && after.log == sys.log + [Online(AnnouncedDevice(device.id, device.name, true, [relay] + device.via))]
            else
              after.state == sys.state && after.log == sys.log
  {}

  // ---------- a withdrawal ----------

  ghost predicate Withdraws(before: State, after: State, linkDeviceId: Id, deviceId: Id, now: int)
    requires deviceId in before.entries
  {
    && after.entries == before.entries - {deviceId}
    && after.withdrawn
       == before.withdrawn[deviceId := WithdrawnDevice(linkDeviceId,
                                                       KnownDevice(before.entries[deviceId].device.name, now))]
    && after.relayLinks == before.relayLinks
  }

  /// A link can withdraw what it announced and nothing else.
  lemma WithdrawEffect(relay: Id, sys: System, linkDeviceId: Id, deviceId: Id, now: int)
    requires TableInvariant(relay, sys)
    ensures var after := Next(relay, sys, Withdraw(linkDeviceId, deviceId, now));
            if deviceId in sys.state.entries && sys.state.entries[deviceId].origin == AnnouncedBy(linkDeviceId) then
              && Withdraws(sys.state, after.state, linkDeviceId, deviceId, now)
              && after.log == sys.log + [Offline(deviceId)]
            else
              after == sys
  {}

  // ---------- the end of a session ----------

  /// What ends with a link: its own entry and everything it announced.
  ghost predicate EndsWith(entries: map<Id, Entry>, deviceId: Id, id: Id) {
    id in entries && (id == deviceId || entries[id].origin == AnnouncedBy(deviceId))
  }

  ghost predicate Unregisters(before: State, after: State, deviceId: Id) {
    && (forall id :: id in after.entries <==> id in before.entries && !EndsWith(before.entries, deviceId, id))
    && (forall id :: id in after.entries ==> after.entries[id] == before.entries[id])
    && (forall id :: id in after.withdrawn <==>
                     id in before.withdrawn && before.withdrawn[id].linkDeviceId != deviceId)
    && (forall id :: id in after.withdrawn ==> after.withdrawn[id] == before.withdrawn[id])
    && (forall r :: r in after.relayLinks <==> r in before.relayLinks && before.relayLinks[r] != deviceId)
    && (forall r :: r in after.relayLinks ==> after.relayLinks[r] == before.relayLinks[r])
  }

  ghost predicate PublishedByEnd(entries: map<Id, Entry>, deviceId: Id, changes: seq<Change>) {
    && NoDuplicates(changes)
    && (forall c :: c in changes <==>
                    c.Offline? && EndsWith(entries, deviceId, c.deviceId) && IsDestination(entries[c.deviceId]))
  }
}
