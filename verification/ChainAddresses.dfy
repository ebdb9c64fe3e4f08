/// The addresses a device has across a chain of relays: each relay reads the list its upstream sent
/// for its own link device and rewrites it for its devices, one hop further out.
module ChainAddresses {
  import opened Protocol
  import opened Text
  import opened Addressing
  import opened HostRules

  const MAX_HOP_COUNT: nat := 0xFFFF_FFFF

  datatype RelayAddress = RelayAddress(relayId: Id, relayName: string, url: string, hops: nat)

  /// A relay further up, as far as printing addresses of any device behind it goes.
  datatype UpstreamRelay = UpstreamRelay(relayId: Id, relayName: string, origin: string, hops: nat)

  datatype UpstreamReach = UpstreamReach(relays: seq<UpstreamRelay>, chain: seq<Id>)

  const NO_REACH := UpstreamReach([], [])

  /// Hop counts are 32-bit and saturate.
  function OneFurther(hops: nat): nat {
    if hops >= MAX_HOP_COUNT then MAX_HOP_COUNT else hops + 1
  }

  function ReadRelay(suffix: string, address: RelayAddress): seq<UpstreamRelay> {
    match StripSuffix(address.url, suffix)
    case None => []
    case Some(origin) => [UpstreamRelay(address.relayId, address.relayName, origin, OneFurther(address.hops))]
  }

  function ReadRelays(suffix: string, addresses: seq<RelayAddress>): seq<UpstreamRelay> {
    if addresses == [] then [] else ReadRelay(suffix, addresses[0]) + ReadRelays(suffix, addresses[1..])
  }

  /// What the upstream listed for this relay's own link device, address by address; an entry that is
  /// not the path address of that device is dropped.
  function FromWelcome(linkDeviceId: Id, upstream: Id, addresses: seq<RelayAddress>, chain: seq<Id>): UpstreamReach {
    UpstreamReach(ReadRelays(PathBase(linkDeviceId), addresses), [upstream] + chain)
  }

  function AddressFor(relay: UpstreamRelay, deviceId: Id): RelayAddress {
    RelayAddress(relay.relayId, relay.relayName, relay.origin + PathBase(deviceId), relay.hops)
  }

  function AddressesFor(reach: UpstreamReach, deviceId: Id): seq<RelayAddress> {
    seq(|reach.relays|, i requires 0 <= i < |reach.relays| => AddressFor(reach.relays[i], deviceId))
  }

  // ---------- a chain of relays ----------

  /// A relay's configuration, and its device id on the relay above it.
  datatype Level = Level(relayId: Id, publicUrl: PublicUrl, base: Option<string>, linkDeviceId: Id)

  function OwnAddress(level: Level, deviceId: Id, hops: nat): RelayAddress {
    RelayAddress(level.relayId, level.publicUrl.host, DeviceUrl(level.publicUrl, level.base, deviceId), hops)
  }

  /// The addresses of a device: its own on this relay, followed by those on the relays above.
  function DeviceAddresses(level: Level, reach: UpstreamReach, deviceId: Id): seq<RelayAddress> {
    [OwnAddress(level, deviceId, 0)] + AddressesFor(reach, deviceId)
  }

  /// What relay `n` of a chain (0 is the top) has been told by relay `n - 1`.
  function ReachAt(levels: seq<Level>, n: nat): UpstreamReach
    requires n < |levels|
  {
    if n == 0 then NO_REACH
    else
      var above := ReachAt(levels, n - 1);
      FromWelcome(levels[n].linkDeviceId, levels[n - 1].relayId,
                  DeviceAddresses(levels[n - 1], above, levels[n].linkDeviceId), above.chain)
  }

  /// The addresses relay `n` reports for one of its devices.
  function AddressesAt(levels: seq<Level>, n: nat, deviceId: Id): seq<RelayAddress>
    requires n < |levels|
  {
    DeviceAddresses(levels[n], ReachAt(levels, n), deviceId)
  }

  /// What accepted configurations and generated ids guarantee.
  ghost predicate PlainLevel(level: Level) {
    && '/' !in level.publicUrl.host
    && (level.base.Some? ==> '/' !in level.base.value)
    && IsDeviceIdText(level.linkDeviceId)
  }

  ghost predicate AllPlain(levels: seq<Level>) {
    forall i :: 0 <= i < |levels| ==> PlainLevel(levels[i])
  }

  ghost predicate AllPathForm(levels: seq<Level>) {
    forall i :: 0 <= i < |levels| ==> levels[i].base.None?
  }

  // ---------- one rewrite ----------

  function Rewrite(addresses: seq<RelayAddress>, linkDeviceId: Id, deviceId: Id): seq<RelayAddress> {
    AddressesFor(UpstreamReach(ReadRelays(PathBase(linkDeviceId), addresses), []), deviceId)
  }

  lemma {:induction false} ReadRelaysAppend(suffix: string, left: seq<RelayAddress>, right: seq<RelayAddress>)
    ensures ReadRelays(suffix, left + right) == ReadRelays(suffix, left) + ReadRelays(suffix, right)
  {
    if left == [] {
      assert left + right == right;
    } else {
      assert (left + right)[1..] == left[1..] + right;
      ReadRelaysAppend(suffix, left[1..], right);
    }
  }

  lemma RewriteAppend(left: seq<RelayAddress>, right: seq<RelayAddress>, linkDeviceId: Id, deviceId: Id)
    ensures Rewrite(left + right, linkDeviceId, deviceId)
         == Rewrite(left, linkDeviceId, deviceId) + Rewrite(right, linkDeviceId, deviceId)
  {
    ReadRelaysAppend(PathBase(linkDeviceId), left, right);
  }

  lemma RewriteOne(address: RelayAddress, linkDeviceId: Id, deviceId: Id)
    ensures StripSuffix(address.url, PathBase(linkDeviceId)).None? ==> Rewrite([address], linkDeviceId, deviceId) == []
    ensures forall origin :: address.url == origin + PathBase(linkDeviceId) ==>
              Rewrite([address], linkDeviceId, deviceId)
              == [RelayAddress(address.relayId, address.relayName, origin + PathBase(deviceId),
                               OneFurther(address.hops))]
  {
    var suffix := PathBase(linkDeviceId);
    assert ReadRelays(suffix, [address]) == ReadRelay(suffix, address) + ReadRelays(suffix, []);
    forall origin | address.url == origin + suffix
      ensures StripSuffix(address.url, suffix) == Some(origin)
    {
      assert address.url[|origin|..] == suffix && address.url[..|origin|] == origin;
    }
  }

  /// An address in subdomain form never ends in the path of the device it is for.
  lemma SubdomainUrlHasNoPath(scheme: string, host: string, id: Id)
    requires '/' !in host && '/' !in scheme
    ensures StripSuffix(scheme + "://" + host + "/", PathBase(id)).None?
  {
    var url := scheme + "://" + host + "/";
    forall i | 0 <= i < |scheme|
      ensures url[i] != '/'
    {
      assert url[i] == scheme[i];
    }
    forall i | |scheme| + 2 < i < |url| - 1
      ensures url[i] != '/'
    {
      assert url[i] == host[i - |scheme| - 3];
    }
    assert PathBase(id)[0] == '/' && PathBase(id)[2] == '/';
  }

  lemma RewriteSubdomain(level: Level, hops: nat, linkDeviceId: Id, deviceId: Id)
    requires PlainLevel(level) && level.base.Some? && '/' !in linkDeviceId
    ensures Rewrite([OwnAddress(level, linkDeviceId, hops)], linkDeviceId, deviceId) == []
  {
    var base, port := level.base.value, level.publicUrl.PortSuffix();
    Regroup(level.publicUrl.Scheme(), linkDeviceId, base, port);
    SubdomainUrlHasNoPath(level.publicUrl.Scheme(), linkDeviceId + "." + base + port, linkDeviceId);
    RewriteOne(OwnAddress(level, linkDeviceId, hops), linkDeviceId, deviceId);
  }

  lemma RewritePath(level: Level, hops: nat, linkDeviceId: Id, deviceId: Id)
    requires level.base.None?
    ensures Rewrite([OwnAddress(level, linkDeviceId, hops)], linkDeviceId, deviceId)
         == [OwnAddress(level, deviceId, OneFurther(hops))]
  {
    var address := OwnAddress(level, linkDeviceId, hops);
    RewriteOne(address, linkDeviceId, deviceId);
    assert address.url == level.publicUrl.Origin() + PathBase(linkDeviceId);
  }

  /// An upstream's own address becomes its address for another device, one hop further out; one in
  /// subdomain form cannot be rewritten and is left out.
  lemma RewriteOwn(level: Level, hops: nat, linkDeviceId: Id, deviceId: Id)
    requires PlainLevel(level) && IsDeviceIdText(linkDeviceId)
    ensures Rewrite([OwnAddress(level, linkDeviceId, hops)], linkDeviceId, deviceId)
         == if level.base.None? then [OwnAddress(level, deviceId, OneFurther(hops))] else []
  {
    if level.base.None? {
      RewritePath(level, hops, linkDeviceId, deviceId);
    } else {
      RewriteSubdomain(level, hops, linkDeviceId, deviceId);
    }
  }

  // ---------- the whole chain ----------

  /// A relay's own address, if it is in path form.
  function Nearest(level: Level, hops: nat, deviceId: Id): seq<RelayAddress> {
    if level.base.None? then [OwnAddress(level, deviceId, hops)] else []
  }

  /// The path-form relays above relay `n`, nearest first; the nearest relay counts `hops` hops.
  function PathFormAbove(levels: seq<Level>, n: nat, hops: nat, deviceId: Id): seq<RelayAddress>
    requires n <= |levels|
  {
    if n == 0 then []
    else Nearest(levels[n - 1], hops, deviceId) + PathFormAbove(levels, n - 1, OneFurther(hops), deviceId)
  }

  lemma RewriteNearest(level: Level, hops: nat, linkDeviceId: Id, deviceId: Id)
    requires PlainLevel(level) && IsDeviceIdText(linkDeviceId)
    ensures Rewrite(Nearest(level, hops, linkDeviceId), linkDeviceId, deviceId)
         == Nearest(level, OneFurther(hops), deviceId)
  {
    if level.base.None? {
      RewriteOwn(level, hops, linkDeviceId, deviceId);
    }
  }

  lemma {:induction false} RewriteAbove(levels: seq<Level>, n: nat, hops: nat, linkDeviceId: Id, deviceId: Id)
    requires n <= |levels| && AllPlain(levels) && IsDeviceIdText(linkDeviceId)
    ensures Rewrite(PathFormAbove(levels, n, hops, linkDeviceId), linkDeviceId, deviceId)
         == PathFormAbove(levels, n, OneFurther(hops), deviceId)
    decreases n
  {
    if n > 0 {
      var nearest := Nearest(levels[n - 1], hops, linkDeviceId);
      var rest := PathFormAbove(levels, n - 1, OneFurther(hops), linkDeviceId);
      RewriteAppend(nearest, rest, linkDeviceId, deviceId);
      RewriteNearest(levels[n - 1], hops, linkDeviceId, deviceId);
      RewriteAbove(levels, n - 1, OneFurther(hops), linkDeviceId, deviceId);
    }
  }

  lemma ReachIsRewrite(levels: seq<Level>, n: nat, deviceId: Id)
    requires 0 < n < |levels|
    ensures AddressesAt(levels, n, deviceId)
         == [OwnAddress(levels[n], deviceId, 0)]
            + Rewrite(AddressesAt(levels, n - 1, levels[n].linkDeviceId), levels[n].linkDeviceId, deviceId)
  {}

  /// Rewriting a whole list: the nearest relay's own address and everything above it, one hop further.
  lemma RewriteList(levels: seq<Level>, n: nat, linkDeviceId: Id, deviceId: Id)
    requires n < |levels| && AllPlain(levels) && IsDeviceIdText(linkDeviceId)
    ensures Rewrite([OwnAddress(levels[n], linkDeviceId, 0)] + PathFormAbove(levels, n, 1, linkDeviceId),
                    linkDeviceId, deviceId)
         == PathFormAbove(levels, n + 1, 1, deviceId)
  {
    RewriteAppend([OwnAddress(levels[n], linkDeviceId, 0)], PathFormAbove(levels, n, 1, linkDeviceId),
                  linkDeviceId, deviceId);
    RewriteOwn(levels[n], 0, linkDeviceId, deviceId);
    RewriteAbove(levels, n, 1, linkDeviceId, deviceId);
  }

  /// What the relay above reports, rewritten for a device of the relay below.
  lemma RewriteReport(levels: seq<Level>, n: nat, deviceId: Id, report: seq<RelayAddress>)
    requires 0 < n < |levels| && AllPlain(levels)
    requires var link := levels[n].linkDeviceId;
             report == [OwnAddress(levels[n - 1], link, 0)] + PathFormAbove(levels, n - 1, 1, link)
    ensures Rewrite(report, levels[n].linkDeviceId, deviceId) == PathFormAbove(levels, n, 1, deviceId)
  {
    assert PlainLevel(levels[n]);
    RewriteList(levels, n - 1, levels[n].linkDeviceId, deviceId);
  }

  /// A relay reports its own address at no hops and then exactly the path-form relays above it, in
  /// order, each at its own distance, whatever mix of address forms the chain has.
  lemma {:induction false} ChainIsReported(levels: seq<Level>, n: nat, deviceId: Id)
    requires n < |levels| && AllPlain(levels)
    ensures AddressesAt(levels, n, deviceId)
         == [OwnAddress(levels[n], deviceId, 0)] + PathFormAbove(levels, n, 1, deviceId)
    decreases n
  {
    if n > 0 {
      var link := levels[n].linkDeviceId;
      ChainIsReported(levels, n - 1, link);
      ReachIsRewrite(levels, n, deviceId);
      RewriteReport(levels, n, deviceId, AddressesAt(levels, n - 1, link));
    }
  }

  function Saturated(hops: nat): nat {
    if hops <= 4_294_967_295 then hops else 4_294_967_295
  }

  lemma NearestComesFirst(levels: seq<Level>, n: nat, hops: nat, deviceId: Id)
    requires 0 < n <= |levels| && AllPathForm(levels)
    ensures PathFormAbove(levels, n, hops, deviceId)
         == [OwnAddress(levels[n - 1], deviceId, hops)] + PathFormAbove(levels, n - 1, OneFurther(hops), deviceId)
  {}

  lemma {:induction false} PathFormAboveCounts(levels: seq<Level>, n: nat, hops: nat, deviceId: Id)
    requires n <= |levels| && AllPathForm(levels)
    ensures |PathFormAbove(levels, n, hops, deviceId)| == n
    decreases n
  {
    if n > 0 {
      NearestComesFirst(levels, n, hops, deviceId);
      PathFormAboveCounts(levels, n - 1, OneFurther(hops), deviceId);
    }
  }

  lemma {:induction false} PathFormAboveAt(levels: seq<Level>, n: nat, hops: nat, deviceId: Id, k: nat)
    requires n <= |levels| && k < n && AllPathForm(levels) && hops <= MAX_HOP_COUNT
    ensures |PathFormAbove(levels, n, hops, deviceId)| == n
    ensures PathFormAbove(levels, n, hops, deviceId)[k] == OwnAddress(levels[n - 1 - k], deviceId, Saturated(hops + k))
    decreases n
  {
    if k == 0 {
      PathFormAboveFirst(levels, n, hops, deviceId);
    } else {
      PathFormAboveAt(levels, n - 1, OneFurther(hops), deviceId, k - 1);
      SaturatedNext(hops, k);
      PathFormAboveNext(levels, n, hops, deviceId, k, OwnAddress(levels[n - 1 - k], deviceId, Saturated(hops + k)));
    }
  }

  lemma SaturatedNext(hops: nat, k: nat)
    requires hops <= MAX_HOP_COUNT && k > 0
    ensures Saturated(OneFurther(hops) + (k - 1)) == Saturated(hops + k)
  {}

  lemma PathFormAboveFirst(levels: seq<Level>, n: nat, hops: nat, deviceId: Id)
    requires 0 < n <= |levels| && AllPathForm(levels)
    ensures |PathFormAbove(levels, n, hops, deviceId)| == n
    ensures PathFormAbove(levels, n, hops, deviceId)[0] == OwnAddress(levels[n - 1], deviceId, hops)
  {
    PathFormAboveCounts(levels, n, hops, deviceId);
    NearestComesFirst(levels, n, hops, deviceId);
  }

  lemma PathFormAboveNext(levels: seq<Level>, n: nat, hops: nat, deviceId: Id, k: nat, address: RelayAddress)
    requires 0 < k < n <= |levels| && AllPathForm(levels)
    requires |PathFormAbove(levels, n - 1, OneFurther(hops), deviceId)| == n - 1
    requires PathFormAbove(levels, n - 1, OneFurther(hops), deviceId)[k - 1] == address
    ensures |PathFormAbove(levels, n, hops, deviceId)| == n
    ensures PathFormAbove(levels, n, hops, deviceId)[k] == address
  {
    NearestComesFirst(levels, n, hops, deviceId);
    NextInList(OwnAddress(levels[n - 1], deviceId, hops), PathFormAbove(levels, n - 1, OneFurther(hops), deviceId), k);
  }

  lemma NextInList(first: RelayAddress, rest: seq<RelayAddress>, k: nat)
    requires 0 < k <= |rest|
    ensures ([first] + rest)[k] == rest[k - 1]
  {}

  /// With every relay in path form, relay `n` reports hop counts 0 to `n` in order, up to what 32 bits
  /// hold, each with the id, the host and the address of the relay that many levels up.
  lemma PathChainCountsHops(levels: seq<Level>, n: nat, deviceId: Id, k: nat)
    requires n < |levels| && k <= n && AllPlain(levels) && AllPathForm(levels)
    ensures var addresses, relay := AddressesAt(levels, n, deviceId), levels[n - k];
            && |addresses| == n + 1
            && addresses[k].hops == Saturated(k)
            && addresses[k].relayId == relay.relayId && addresses[k].relayName == relay.publicUrl.host
            && addresses[k].url == SchemeText(relay.publicUrl.secure) + relay.publicUrl.host + "/d/" + deviceId + "/"
  {
    PathChainEntry(levels, n, deviceId, k);
    PathAddressIsSpelled(levels[n - k], deviceId, Saturated(k));
  }

  lemma PathChainEntry(levels: seq<Level>, n: nat, deviceId: Id, k: nat)
    requires n < |levels| && k <= n && AllPlain(levels) && AllPathForm(levels)
    ensures |AddressesAt(levels, n, deviceId)| == n + 1
    ensures AddressesAt(levels, n, deviceId)[k] == OwnAddress(levels[n - k], deviceId, Saturated(k))
  {
    ChainIsReported(levels, n, deviceId);
    PathFormAboveCounts(levels, n, 1, deviceId);
    if k > 0 {
      PathFormAboveAt(levels, n, 1, deviceId, k - 1);
      EntryAbove(levels, n, deviceId, k);
    }
  }

  lemma EntryAbove(levels: seq<Level>, n: nat, deviceId: Id, k: nat)
    requires 0 < k <= n < |levels| && |PathFormAbove(levels, n, 1, deviceId)| == n
    requires AddressesAt(levels, n, deviceId)
          == [OwnAddress(levels[n], deviceId, 0)] + PathFormAbove(levels, n, 1, deviceId)
    ensures AddressesAt(levels, n, deviceId)[k] == PathFormAbove(levels, n, 1, deviceId)[k - 1]
  {
    NextInList(OwnAddress(levels[n], deviceId, 0), PathFormAbove(levels, n, 1, deviceId), k);
  }

  lemma PathAddressIsSpelled(level: Level, deviceId: Id, hops: nat)
    requires level.base.None?
    ensures OwnAddress(level, deviceId, hops)
         == RelayAddress(level.relayId, level.publicUrl.host,
                         SchemeText(level.publicUrl.secure) + level.publicUrl.host + "/d/" + deviceId + "/", hops)
  {
    PrintedPath(level.publicUrl.secure, level.publicUrl.host, deviceId);
  }

  /// What a relay reports first, whatever its form: its own id, host and printed address, at no hops.
  lemma OwnAddressComesFirst(level: Level, reach: UpstreamReach, deviceId: Id)
    ensures DeviceAddresses(level, reach, deviceId) != []
    ensures DeviceAddresses(level, reach, deviceId)[0]
         == RelayAddress(level.relayId, level.publicUrl.host, DeviceUrl(level.publicUrl, level.base, deviceId), 0)
  {}

  function IdsAbove(levels: seq<Level>, n: nat): seq<Id>
    requires n <= |levels|
  {
    if n == 0 then [] else [levels[n - 1].relayId] + IdsAbove(levels, n - 1)
  }

  lemma ReachChainGrows(levels: seq<Level>, n: nat)
    requires 0 < n < |levels|
    ensures ReachAt(levels, n).chain == [levels[n - 1].relayId] + ReachAt(levels, n - 1).chain
  {}

  /// The chain a relay reports names every relay above it, nearest first, whatever the address forms.
  lemma {:induction false} ChainNamesEveryRelay(levels: seq<Level>, n: nat)
    requires n < |levels|
    ensures ReachAt(levels, n).chain == IdsAbove(levels, n)
  {
    if n > 0 {
      ChainNamesEveryRelay(levels, n - 1);
      ReachChainGrows(levels, n);
    }
  }
}
