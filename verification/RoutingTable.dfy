/// The routing table as a value: entries, what each entry is announced as, and the effect of every
/// block of the registry that runs under its lock.
module RoutingTable {
  import opened Protocol

  /// A tunnel, identified by the device it belongs to and a number no other tunnel has.
  datatype Handle = Handle(deviceId: Id, tunnel: nat)

  datatype Route = Direct(handle: Handle) | Via(link: Handle, hops: seq<Id>) {
    function Link(): Handle {
      if Direct? then handle else link
    }

    function Hops(): seq<Id> {
      if Direct? then [] else hops
    }
  }

  datatype OnlineDevice = OnlineDevice(
    deviceId: Id,
    name: string,
    kind: DeviceKind,
    connectedSince: int,
    ip: Option<string>,
    version: Option<string>,
    route: Route)

  /// A registration with its serial, or an announcement with the link that made it.
  datatype Origin = DirectTunnel(serial: nat) | AnnouncedBy(linkDeviceId: Id)

  datatype Entry = Entry(device: OnlineDevice, origin: Origin, sequence: nat)

  datatype Change = Online(device: AnnouncedDevice) | Offline(deviceId: Id)

  datatype KnownDevice = KnownDevice(name: string, lastSeenAt: int)

  datatype WithdrawnDevice = WithdrawnDevice(linkDeviceId: Id, device: KnownDevice)

  datatype State = State(
    entries: map<Id, Entry>,
    relayLinks: map<Id, Id>,
    withdrawn: map<Id, WithdrawnDevice>)

  /// A registration as the session hands it to the table.
  datatype Presence = Presence(
    deviceId: Id,
    name: string,
    kind: DeviceKind,
    relayId: Option<Id>,
    ip: Option<string>,
    version: Option<string>,
    handle: Handle)

  const EMPTY := State(map[], map[], map[])

  // ---------- reading the table ----------

  /// What an entry looks like from above: this relay heads its chain. A relay on a tunnel of its own is
  /// not offered.
  function AnnouncementOf(relay: Id, entry: Entry): Option<AnnouncedDevice> {
    if entry.device.kind == Relay && entry.device.route.Direct? then
      None
    else
      Some(AnnouncedDevice(entry.device.deviceId, entry.device.name, true, [relay] + entry.device.route.Hops()))
  }

  function AnnouncementIn(relay: Id, entries: map<Id, Entry>, id: Id): Option<AnnouncedDevice> {
    if id in entries then AnnouncementOf(relay, entries[id]) else None
  }

  /// All announcements of a table, by device id.
  ghost function Announced(relay: Id, entries: map<Id, Entry>): map<Id, AnnouncedDevice> {
    map id | id in entries && AnnouncementOf(relay, entries[id]).Some? :: AnnouncementOf(relay, entries[id]).value
  }

  /// The change to publish for one device, from what it was announced as before and after.
  function Transition(id: Id, previous: Option<AnnouncedDevice>, current: Option<AnnouncedDevice>): seq<Change> {
    if current.Some? then [Online(current.value)]
    else if previous.Some? then [Offline(id)]
    else []
  }

  function IsRoutable(relay: Id, via: seq<Id>): bool {
    |via| < MAX_HOPS && relay !in via
  }

  /// A direct tunnel always stays; of two announced routes fewer hops win, and of equally many the later
  /// number.
  function Replaces(existing: Route, existingSequence: nat, hops: seq<Id>, sequence: nat): bool {
    match existing
    case Direct(_) => false
    case Via(_, existingHops) =>
      |hops| < |existingHops| || (|hops| == |existingHops| && sequence > existingSequence)
  }

  function IsAnnouncedBy(entry: Entry, linkDeviceId: Id): bool {
    entry.origin == AnnouncedBy(linkDeviceId)
  }

  /// The devices whose entry a link announced.
  function OwnedBy(entries: map<Id, Entry>, linkDeviceId: Id): set<Id> {
    set id | id in entries && IsAnnouncedBy(entries[id], linkDeviceId)
  }

  function IsRegistered(st: State, deviceId: Id, serial: nat): bool {
    deviceId in st.entries && st.entries[deviceId].origin == DirectTunnel(serial)
  }

  ghost predicate IsDirect(st: State, deviceId: Id) {
    deviceId in st.entries && st.entries[deviceId].origin.DirectTunnel?
  }

  /// The route a stream to a device takes.
  function RouteIn(st: State, deviceId: Id): Option<Route> {
    if deviceId in st.entries then Some(st.entries[deviceId].device.route) else None
  }

  // ---------- the blocks that run under the lock ----------

  function DirectEntry(presence: Presence, serial: nat, now: int): Entry {
    Entry(
      OnlineDevice(presence.deviceId, presence.name, presence.kind, now, presence.ip, presence.version,
                   Direct(presence.handle)),
      DirectTunnel(serial),
      serial)
  }

  function Connected(st: State, presence: Presence, serial: nat, now: int): State {
    State(
      st.entries[presence.deviceId := DirectEntry(presence, serial, now)],
      if presence.relayId.Some? && presence.kind == Relay
      then st.relayLinks[presence.relayId.value := presence.deviceId]
      else st.relayLinks,
      st.withdrawn - {presence.deviceId})
  }

  /// The direct tunnel a registration puts out of use, if the device had one.
  function Displaced(st: State, deviceId: Id): Option<Handle> {
    if deviceId in st.entries && st.entries[deviceId].origin.DirectTunnel?
    then Some(st.entries[deviceId].device.route.Link())
    else None
  }

  function Disconnected(st: State, deviceId: Id): State {
    State(
      st.entries - ({deviceId} + OwnedBy(st.entries, deviceId)),
      map relay | relay in st.relayLinks && st.relayLinks[relay] != deviceId :: st.relayLinks[relay],
      map id | id in st.withdrawn && st.withdrawn[id].linkDeviceId != deviceId :: st.withdrawn[id])
  }

  /// One Offline per listed device that was announced.
  function OfflineChanges(relay: Id, entries: map<Id, Entry>, ids: seq<Id>): seq<Change> {
    if ids == [] then []
    else
      var last := ids[|ids| - 1];
      OfflineChanges(relay, entries, ids[..|ids| - 1])
      + Transition(last, AnnouncementIn(relay, entries, last), None)
  }

  lemma OfflineChangesNext(relay: Id, entries: map<Id, Entry>, ids: seq<Id>, i: nat)
    requires i < |ids|
    ensures OfflineChanges(relay, entries, ids[..i + 1])
         == OfflineChanges(relay, entries, ids[..i]) + Transition(ids[i], AnnouncementIn(relay, entries, ids[i]), None)
    ensures forall id :: id in ids[..i + 1] <==> id in ids[..i] || id == ids[i]
    ensures NoDuplicates(ids) ==> ids[i] !in ids[..i]
  {
    assert ids[..i + 1][..i] == ids[..i];
    assert ids[..i + 1] == ids[..i] + [ids[i]];
  }

  lemma RemoveOneMore(relay: Id, entries: map<Id, Entry>, removed: set<Id>, id: Id)
    requires id !in removed
    ensures (entries - removed) - {id} == entries - (removed + {id})
    ensures AnnouncementIn(relay, entries - removed, id) == AnnouncementIn(relay, entries, id)
  {}

  function Accepts(st: State, device: AnnouncedDevice, sequence: nat): bool {
    device.id in st.entries ==>
      Replaces(st.entries[device.id].device.route, st.entries[device.id].sequence, device.via, sequence)
  }

  function AnnouncedEntry(linkDeviceId: Id, link: Handle, device: AnnouncedDevice, sequence: nat, now: int): Entry {
    Entry(
      OnlineDevice(device.id, device.name, Desktop, now, None, None, Via(link, device.via)),
      AnnouncedBy(linkDeviceId),
      sequence)
  }

  function Installed(st: State, linkDeviceId: Id, link: Handle, device: AnnouncedDevice, sequence: nat, now: int)
    : State
  {
    st.(entries := st.entries[device.id := AnnouncedEntry(linkDeviceId, link, device, sequence, now)],
        withdrawn := st.withdrawn - {device.id})
  }

  function Withdrawn(st: State, linkDeviceId: Id, deviceId: Id, now: int): State
    requires deviceId in OwnedBy(st.entries, linkDeviceId)
  {
    st.(entries := st.entries - {deviceId},
        withdrawn := st.withdrawn[deviceId :=
          WithdrawnDevice(linkDeviceId, KnownDevice(st.entries[deviceId].device.name, now))])
  }

  // ---------- `Replaces` orders announced routes ----------

  /// Among announced routes with distinct sequence numbers exactly one of two replaces the other.
  lemma ReplacesIsTotal(a: Route, sa: nat, b: Route, sb: nat)
    requires a.Via? && b.Via? && sa != sb
    ensures Replaces(a, sa, b.hops, sb) <==> !Replaces(b, sb, a.hops, sa)
  {}

  lemma ReplacesIsTransitive(a: Route, sa: nat, b: Route, sb: nat, hops: seq<Id>, sequence: nat)
    requires b.Via? && Replaces(a, sa, b.hops, sb) && Replaces(b, sb, hops, sequence)
    ensures Replaces(a, sa, hops, sequence)
  {}
}
