/// Addresses of devices, under a subdomain or a path: what printing one and parsing it guarantee each
/// other.
module Addressing {
  import opened Protocol
  import opened Text

  const DEVICE_PATH_PREFIX := "/d/"
  const MAX_HOST_LABEL_LENGTH := 63

  /// Where the path form puts a device; it ends in a slash.
  function PathBase(deviceId: Id): string {
    DEVICE_PATH_PREFIX + deviceId + "/"
  }

  // ---------- the path form ----------

  datatype DevicePath = NeedsSlash(deviceId: Id) | Resource(deviceId: Id, rest: string)

  function ParseDevicePath(path: string): Option<DevicePath> {
    match StripPrefix(path, DEVICE_PATH_PREFIX)
    case None => None
    case Some(remainder) =>
      match SplitOnce(remainder, '/')
      case Some(parts) => if parts.0 != "" then Some(Resource(parts.0, parts.1)) else None
      case None => if remainder == "" then None else Some(NeedsSlash(remainder))
  }

  predicate IsSegment(id: Id) {
    id != "" && '/' !in id
  }

  /// A path is read as a resource of a device exactly when it is that device's base followed by the
  /// rest, and as a device without its slash exactly when it is the prefix and the id.
  lemma DevicePathsReadBack(path: string, id: Id, rest: string)
    ensures ParseDevicePath(path) == Some(Resource(id, rest)) <==>
            id != "" && '/' !in id && path == "/d/" + id + "/" + rest
    ensures ParseDevicePath(path) == Some(NeedsSlash(id)) <==> id != "" && '/' !in id && path == "/d/" + id
  {
    assert PathBase(id) == "/d/" + id + "/";
    if IsSegment(id) && path == PathBase(id) + rest {
      var remainder := id + ['/'] + rest;
      assert path == DEVICE_PATH_PREFIX + remainder;
      assert path[3..] == remainder;
      SplitOnceAt(id, '/', rest);
    }
    if IsSegment(id) && path == DEVICE_PATH_PREFIX + id {
      assert path[3..] == id;
    }
    match StripPrefix(path, DEVICE_PATH_PREFIX)
    case None =>
    case Some(remainder) =>
      match SplitOnce(remainder, '/')
      case None =>
      case Some(parts) =>
        assert path == DEVICE_PATH_PREFIX + (parts.0 + ['/'] + parts.1);
        assert path == PathBase(parts.0) + parts.1;
  }

  /// Contrary to its description, the rest of a device path may start with a slash.
  lemma RestMayStartWithSlash(id: Id, rest: string)
    requires IsSegment(id)
    ensures ParseDevicePath(PathBase(id) + "/" + rest) == Some(Resource(id, "/" + rest))
  {
    assert PathBase(id) + "/" + rest == PathBase(id) + ("/" + rest);
    DevicePathsReadBack(PathBase(id) + "/" + rest, id, "/" + rest);
  }

  // ---------- the subdomain base ----------

  predicate IsLabelChar(c: char) {
    'a' <= c <= 'z' || 'A' <= c <= 'Z' || '0' <= c <= '9' || c == '-'
  }

  /// One label in the sense of section 2.3.4 of RFC 1035, without a hyphen at either end.
  predicate IsHostLabel(piece: string) {
    && piece != ""
    && |piece| <= MAX_HOST_LABEL_LENGTH
    && piece[0] != '-'
    && piece[|piece| - 1] != '-'
    && (forall c :: c in piece ==> IsLabelChar(c))
  }

  predicate IsDot(c: char) {
    c == '.'
  }

  /// White space and dots around a base do not count, and its letters are lowered.
  function NormalBase(value: string): string {
    Lower(TrimEnd(TrimStart(Trim(value), IsDot), IsDot))
  }

  predicate IsDottedName(name: string) {
    name != "" && '.' in name && forall piece :: piece in Split(name, '.') ==> IsHostLabel(piece)
  }

  function ParseBase(value: string): Option<string> {
    var normalized := NormalBase(value);
    if IsDottedName(normalized) then Some(normalized) else None
  }

  /// The shape every accepted base has.
  ghost predicate IsBase(host: string) {
    && IsDottedName(host)
    && host[0] != '.' && host[|host| - 1] != '.'
    && Lower(host) == host
    && (forall c :: c in host ==> IsLabelChar(c) || c == '.')
  }

  lemma {:induction false} SplitCovers(s: string, c: char, x: char)
    requires x in s && x != c
    ensures exists part :: part in Split(s, c) && x in part
    decreases |s|
  {
    match SplitOnce(s, c)
    case None =>
    case Some(parts) =>
      var rest := Split(parts.1, c);
      assert Split(s, c) == [parts.0] + rest;
      if x in parts.0 {
        assert parts.0 in Split(s, c);
      } else {
        assert x in parts.1;
        SplitCovers(parts.1, c, x);
        var part :| part in rest && x in part;
        assert part in Split(s, c);
      }
  }

  lemma {:induction false} LowerIsStable(s: string)
    ensures Lower(Lower(s)) == Lower(s)
  {}

  lemma NormalBaseIsNormal(value: string)
    requires NormalBase(value) != ""
    ensures var host := NormalBase(value);
            host[0] != '.' && host[|host| - 1] != '.' && Lower(host) == host
  {
    var started := TrimStart(Trim(value), IsDot);
    var trimmed := TrimEnd(started, IsDot);
    LowerIsStable(trimmed);
    assert trimmed[0] == started[0];
  }

  lemma DottedNameCharacters(name: string)
    requires IsDottedName(name)
    ensures forall c :: c in name ==> IsLabelChar(c) || c == '.'
  {
    forall c | c in name && c != '.'
      ensures IsLabelChar(c)
    {
      SplitCovers(name, '.', c);
      var part :| part in Split(name, '.') && c in part;
    }
  }

  lemma NormalNameIsBase(name: string)
    requires IsDottedName(name) && Lower(name) == name && name[0] != '.' && name[|name| - 1] != '.'
    ensures IsBase(name)
  {
    DottedNameCharacters(name);
  }

  lemma ParsedBaseIsNormalBase(value: string, host: string)
    requires ParseBase(value) == Some(host)
    ensures host == NormalBase(value) && IsDottedName(host)
  {}

  lemma ParsedBaseHasShape(value: string, host: string)
    requires ParseBase(value) == Some(host)
    ensures IsBase(host)
  {
    ParsedBaseIsNormalBase(value, host);
    NormalBaseIsNormal(value);
    NormalNameIsBase(host);
  }

  /// A lower-case name with neither white space nor dots at its ends is normal already.
  lemma NormalBaseKeeps(host: string)
    requires host != "" && Lower(host) == host
    requires !IsSpace(host[0]) && !IsSpace(host[|host| - 1])
    requires host[0] != '.' && host[|host| - 1] != '.'
    ensures NormalBase(host) == host
  {
    TrimKeeps(host);
    assert TrimStart(host, IsDot) == host;
    assert TrimEnd(host, IsDot) == host;
  }

  lemma BaseParsesAsItself(host: string)
    requires IsBase(host)
    ensures ParseBase(host) == Some(host)
  {
    assert host[0] in host && host[|host| - 1] in host;
    NormalBaseKeeps(host);
  }

  /// An accepted base is stored in a form that is accepted again as it stands.
  lemma ParsedBasesAreNormal(value: string, host: string)
    requires ParseBase(value) == Some(host)
    ensures IsBase(host) && ParseBase(host) == Some(host)
  {
    ParsedBaseHasShape(value, host);
    BaseParsesAsItself(host);
  }

  // ---------- hosts ----------

  /// The part of a host in front of its port.
  function NameBeforePort(trimmed: string): string {
    match RsplitOnce(trimmed, ':')
    case Some(parts) => if trimmed[|trimmed| - 1] != ']' then parts.0 else trimmed
    case None => trimmed
  }

  /// White space around a host, its port, dots at its end and its letter case do not matter.
  function NormalizeHost(host: string): string {
    var trimmed := Trim(host);
    Lower(TrimEnd(NameBeforePort(trimmed), IsDot))
  }

  function LabelOf(base: string, host: string): Option<string> {
    match StripSuffix(host, base)
    case None => None
    case Some(front) =>
      match StripSuffix(front, ".")
      case None => None
      case Some(piece) => if piece != "" && '.' !in piece then Some(piece) else None
  }

  /// The text of a device id, as the protocol's own parser accepts it.
  predicate IsDeviceIdText(id: string) {
    id != "" && forall c :: c in id ==> 'a' <= c <= 'z' || '0' <= c <= '9'
  }

  function DeviceFromHost(base: Option<string>, host: string, isDeviceId: string -> bool): Option<Id> {
    match base
    case None => None
    case Some(name) =>
      match LabelOf(name, NormalizeHost(host))
      case None => None
      case Some(piece) => if isDeviceId(piece) then Some(piece) else None
  }

  lemma LabelOfExact(base: string, host: string, piece: string)
    ensures LabelOf(base, host) == Some(piece) <==> piece != "" && '.' !in piece && host == piece + "." + base
  {
    if piece != "" && '.' !in piece && host == piece + "." + base {
      assert host[|host| - |base|..] == base;
      assert host[..|host| - |base|] == piece + ".";
      assert (piece + ".")[..|piece|] == piece;
      assert (piece + ".")[|piece|..] == ".";
    }
  }

  /// A host is read as a device exactly when the id is valid and the host normalises to the id, a
  /// dot and the base.
  lemma RecognisedHostsAreExact(base: string, host: string, isDeviceId: string -> bool, id: Id)
    requires isDeviceId(id) ==> IsDeviceIdText(id)
    ensures DeviceFromHost(Some(base), host, isDeviceId) == Some(id) <==>
            isDeviceId(id) && NormalizeHost(host) == id + "." + base
  {
    LabelOfExact(base, NormalizeHost(host), id);
  }

  // ---------- printing and reading back ----------

  /// A host as a browser may spell it: any letter case, trailing dots, and a port.
  ghost predicate IsPortText(port: string) {
    || port == ""
    || (&& port[0] == ':' && ':' !in port[1..]
        && port[|port| - 1] != ']'
        && (forall c :: c in port ==> !IsSpace(c)))
  }

  ghost predicate IsPlainHost(host: string) {
    && host != "" && ':' !in host && host[|host| - 1] != '.' && host[|host| - 1] != ']'
    && (forall c :: c in host ==> !IsSpace(c))
  }

  lemma HostCharacters(base: string, id: Id, host: string)
    requires IsBase(base) && IsDeviceIdText(id) && Lower(host) == id + "." + base
    ensures IsPlainHost(host)
  {
    var name := id + "." + base;
    forall i | 0 <= i < |host|
      ensures host[i] != ':' && !IsSpace(host[i]) && host[i] != ']'
    {
      assert name[i] == LowerChar(host[i]);
      assert name[i] in id || name[i] == '.' || name[i] in base;
    }
    assert name[|name| - 1] == base[|base| - 1] == LowerChar(host[|host| - 1]);
  }

  ghost predicate AllDots(dots: string) {
    forall i :: 0 <= i < |dots| ==> dots[i] == '.'
  }

  lemma DottedHost(host: string, dots: string)
    requires IsPlainHost(host) && AllDots(dots)
    ensures var name := host + dots;
            && name != "" && ':' !in name && name[|name| - 1] != ']'
            && (forall c :: c in name ==> !IsSpace(c))
  {
    var name := host + dots;
    forall i | 0 <= i < |name|
      ensures name[i] != ':' && !IsSpace(name[i])
    {
      if i < |host| {
        assert name[i] == host[i] && host[i] in host;
      } else {
        assert name[i] == dots[i - |host|];
      }
    }
  }

  lemma TrimKeepsJoin(name: string, port: string)
    requires name != "" && (forall c :: c in name ==> !IsSpace(c)) && (forall c :: c in port ==> !IsSpace(c))
    ensures Trim(name + port) == name + port
  {
    var text := name + port;
    assert text[0] == name[0] && name[0] in name;
    if port == "" {
      assert text[|text| - 1] == name[|name| - 1] && name[|name| - 1] in name;
    } else {
      assert text[|text| - 1] == port[|port| - 1] && port[|port| - 1] in port;
    }
    TrimKeeps(text);
  }

  lemma PortIsDropped(name: string, port: string)
    requires name != "" && ':' !in name && name[|name| - 1] != ']'
    requires port == "" || (port[0] == ':' && ':' !in port[1..] && port[|port| - 1] != ']')
    ensures NameBeforePort(name + port) == name
  {
    if port == "" {
      assert name + port == name;
    } else {
      assert port == [':'] + port[1..];
      assert name + port == name + [':'] + port[1..];
      RsplitOnceAt(name, ':', port[1..]);
    }
  }

  lemma NormalizeDropsPort(host: string, dots: string, port: string)
    requires IsPlainHost(host) && AllDots(dots) && IsPortText(port)
    ensures NormalizeHost(host + dots + port) == Lower(host)
  {
    var name := host + dots;
    DottedHost(host, dots);
    TrimKeepsJoin(name, port);
    PortIsDropped(name, port);
    TrimEndDrops(host, dots, IsDot);
  }

  /// Any spelling of a device's host, with any port and any number of dots before the port, is read
  /// as that device.
  lemma SpellingsReadBack(base: string, id: Id, host: string, dots: string, port: string, isDeviceId: string -> bool)
    requires IsBase(base) && IsDeviceIdText(id) && isDeviceId(id)
    requires Lower(host) == id + "." + base
    requires AllDots(dots) && IsPortText(port)
    ensures DeviceFromHost(Some(base), host + dots + port, isDeviceId) == Some(id)
  {
    HostCharacters(base, id, host);
    NormalizeDropsPort(host, dots, port);
    RecognisedHostsAreExact(base, host + dots + port, isDeviceId, id);
  }

  // ---------- the advertised address ----------

  datatype PublicUrl = PublicUrl(secure: bool, host: string) {
    function Scheme(): string {
      if secure then "https" else "http"
    }

    function Origin(): string {
      Scheme() + "://" + host
    }

    /// What is left of the host when a port is cut off; nothing is cut after a closing bracket.
    function HostName(): (name: string)
      ensures name <= host
    {
      match RsplitOnce(host, ':')
      case Some(parts) => if host[|host| - 1] != ']' then parts.0 else host
      case None => host
    }

    function PortSuffix(): string {
      host[|HostName()|..]
    }
  }

  datatype UrlError = UnsupportedScheme | UnexpectedPath(rest: string) | MissingHost

  datatype ParsedUrl = Accepted(url: PublicUrl) | Rejected(error: UrlError)

  predicate IsSlash(c: char) {
    c == '/'
  }

  /// What follows the first path, query or fragment mark, from that mark on.
  function FromMark(s: string): string {
    if s == "" || s[0] == '/' || s[0] == '?' || s[0] == '#' then s else FromMark(s[1..])
  }

  function ParsePublicUrl(value: string): ParsedUrl {
    ParseTrimmedUrl(Trim(value))
  }

  function ParseTrimmedUrl(trimmed: string): ParsedUrl {
    var https, http := StripPrefix(trimmed, "https://"), StripPrefix(trimmed, "http://");
    if https.None? && http.None? then Rejected(UnsupportedScheme)
    else
      var rest := TrimEnd(if https.Some? then https.value else http.value, IsSlash);
      if FromMark(rest) != "" then Rejected(UnexpectedPath(FromMark(rest)))
      else if rest == "" then Rejected(MissingHost)
      else Accepted(PublicUrl(https.Some?, rest))
  }

  lemma {:induction false} NoMarkLeft(s: string)
    ensures FromMark(s) == "" <==> '/' !in s && '?' !in s && '#' !in s
  {
    if s != "" {
      NoMarkLeft(s[1..]);
      assert s == [s[0]] + s[1..];
    }
  }

  /// An accepted public url is a bare origin: its host is not empty and holds none of the three marks
  /// that would end it.
  lemma AcceptedUrlsAreOrigins(value: string)
    requires ParsePublicUrl(value).Accepted?
    ensures var host := ParsePublicUrl(value).url.host;
            host != "" && '/' !in host && '?' !in host && '#' !in host
  {
    NoMarkLeft(ParsePublicUrl(value).url.host);
  }

  function DeviceUrl(publicUrl: PublicUrl, base: Option<string>, id: Id): string {
    match base
    case Some(name) => publicUrl.Scheme() + "://" + id + "." + name + publicUrl.PortSuffix() + "/"
    case None => publicUrl.Origin() + PathBase(id)
  }

  /// The host a browser sends for an absolute url: what stands between the scheme and the path.
  function HostOf(url: string): string {
    match SplitOnce(url, '/')
    case None => ""
    case Some(scheme) =>
      match SplitOnce(if scheme.1 != "" then scheme.1[1..] else "", '/')
      case None => ""
      case Some(parts) => parts.0
  }

  lemma HostOfParts(scheme: string, host: string)
    requires '/' !in scheme && '/' !in host
    ensures HostOf(scheme + "://" + host + "/") == host
  {
    var url := scheme + "://" + host + "/";
    assert url == (scheme + ":") + ['/'] + ("/" + host + "/");
    SplitOnceAt(scheme + ":", '/', "/" + host + "/");
    assert ("/" + host + "/")[1..] == host + ['/'] + "";
    SplitOnceAt(host, '/', "");
  }

  lemma Regroup(scheme: string, id: string, base: string, port: string)
    ensures scheme + "://" + id + "." + base + port + "/" == scheme + "://" + (id + "." + base + port) + "/"
  {}

  lemma NoSlash(base: string, id: Id)
    requires IsBase(base) && IsDeviceIdText(id)
    ensures '/' !in base && '/' !in id
  {}

  lemma DeviceUrlHost(publicUrl: PublicUrl, base: string, id: Id)
    requires '/' !in base && '/' !in id && '/' !in publicUrl.host
    ensures HostOf(DeviceUrl(publicUrl, Some(base), id)) == id + "." + base + publicUrl.PortSuffix()
  {
    var host := id + "." + base + publicUrl.PortSuffix();
    Regroup(publicUrl.Scheme(), id, base, publicUrl.PortSuffix());
    HostOfParts(publicUrl.Scheme(), host);
  }

  /// The relay's port, as far as white space at its end counts, does not close a bracket.
  predicate PortClosesNoBracket(publicUrl: PublicUrl) {
    var port := TrimEnd(publicUrl.PortSuffix(), IsSpace);
    port == "" || port[|port| - 1] != ']'
  }

  /// With a base configured, the host of the address the relay hands out, with the relay's own port, is
  /// read back as the device it was printed for, if and only if that port does not end in a bracket.
  lemma AdvertisedAddressReadsBack(publicUrl: PublicUrl, base: string, id: Id, isDeviceId: string -> bool)
    requires IsBase(base) && IsDeviceIdText(id) && isDeviceId(id)
    requires '/' !in publicUrl.host
    ensures DeviceFromHost(Some(base), HostOf(DeviceUrl(publicUrl, Some(base), id)), isDeviceId) == Some(id)
            <==> PortClosesNoBracket(publicUrl)
  {
    var name := id + "." + base;
    NoSlash(base, id);
    DeviceUrlHost(publicUrl, base, id);
    LowerOfName(base, id);
    HostCharacters(base, id, name);
    NormalizesToNameIff(publicUrl, name);
    RecognisedHostsAreExact(base, name + publicUrl.PortSuffix(), isDeviceId, id);
  }

  lemma NormalizesToNameIff(publicUrl: PublicUrl, name: string)
    requires IsPlainHost(name) && Lower(name) == name
    ensures NormalizeHost(name + publicUrl.PortSuffix()) == name <==> PortClosesNoBracket(publicUrl)
  {
    var port := TrimEnd(publicUrl.PortSuffix(), IsSpace);
    TrimPortKeepsName(name, publicUrl.PortSuffix());
    if PortClosesNoBracket(publicUrl) {
      PortSuffixHasOneColon(publicUrl);
      NameReadsBack(name, port);
    } else {
      BracketIsKept(name, port);
    }
  }

  /// Behind the scheme, everything up to the slash at the end is the host, if it holds no mark.
  lemma UrlIsAccepted(host: string)
    requires host != "" && '/' !in host && '?' !in host && '#' !in host
    ensures ParsePublicUrl("https://" + host + "/") == Accepted(PublicUrl(true, host))
  {
    var value := "https://" + host + "/";
    TrimKeeps(value);
    assert value == "https://" + (host + "/") && value[8..] == host + "/";
    assert host[|host| - 1] in host;
    TrimEndDrops(host, "/", IsSlash);
    NoMarkLeft(host);
  }

  lemma PortSuffixAt(name: string, port: string)
    requires ':' !in port && port != "" && port[|port| - 1] != ']'
    ensures PublicUrl(true, name + [':'] + port).PortSuffix() == [':'] + port
  {
    RsplitOnceAt(name, ':', port);
  }

  lemma BracketEndsPort(port: string, digits: string)
    requires port == [':'] + digits + "] "
    ensures TrimEnd(port, IsSpace) == [':'] + digits + "]"
  {
    assert port == [':'] + digits + "]" + " ";
    TrimEndDrops([':'] + digits + "]", " ", IsSpace);
  }

  predicate IsNameText(text: string) {
    forall i :: 0 <= i < |text| ==> IsLabelChar(text[i]) || text[i] == '.'
  }

  lemma BracketPortCharacters(name: string, digits: string)
    requires IsNameText(name) && IsNameText(digits)
    ensures ':' !in digits + "] "
    ensures var host := name + [':'] + (digits + "] ");
            '/' !in host && '?' !in host && '#' !in host
  {
    var port := digits + "] ";
    var host := name + [':'] + port;
    assert forall i :: 0 <= i < |port| ==> port[i] == if i < |digits| then digits[i] else "] "[i - |digits|];
    assert forall i :: 0 <= i < |host| ==>
                         host[i] == if i < |name| then name[i] else if i == |name| then ':' else port[i - |name| - 1];
  }

  /// The failing case is reachable: any name with a port that ends in a bracket and a space is accepted.
  lemma BracketPortIsAccepted(name: string, digits: string)
    requires IsNameText(name) && IsNameText(digits)
    ensures var host := name + [':'] + (digits + "] ");
            && ParsePublicUrl("https://" + host + "/") == Accepted(PublicUrl(true, host))
            && !PortClosesNoBracket(PublicUrl(true, host))
  {
    var port := digits + "] ";
    BracketPortCharacters(name, digits);
    UrlIsAccepted(name + [':'] + port);
    PortSuffixAt(name, port);
    BracketEndsPort([':'] + port, digits);
  }

  /// White space around a name with a port can only be at the end of the port.
  lemma TrimPortKeepsName(name: string, port: string)
    requires IsPlainHost(name)
    ensures Trim(name + port) == name + TrimEnd(port, IsSpace)
  {
    assert (name + port)[0] == name[0] && name[0] in name;
    assert TrimStart(name + port, IsSpace) == name + port;
    TrimEndOfJoin(name, port);
  }

  lemma {:induction false} TrimEndOfJoin(name: string, port: string)
    requires IsPlainHost(name)
    ensures TrimEnd(name + port, IsSpace) == name + TrimEnd(port, IsSpace)
    decreases |port|
  {
    if port == "" {
      assert name + port == name && name[|name| - 1] in name;
    } else {
      assert (name + port)[..|name + port| - 1] == name + port[..|port| - 1];
      TrimEndOfJoin(name, port[..|port| - 1]);
    }
  }

  lemma SuffixStartsWithColon(publicUrl: PublicUrl, rest: string)
    requires publicUrl.PortSuffix() != "" && RsplitOnce(publicUrl.host, ':').Some?
    requires rest == RsplitOnce(publicUrl.host, ':').value.1
    ensures publicUrl.PortSuffix() == [':'] + rest
  {
    var name := RsplitOnce(publicUrl.host, ':').value.0;
    assert publicUrl.HostName() == name;
    AfterName(publicUrl.host, name, rest);
  }

  lemma AfterName(host: string, name: string, rest: string)
    requires host == name + [':'] + rest
    ensures host[|name|..] == [':'] + rest
  {}

  lemma PortSuffixHasOneColon(publicUrl: PublicUrl)
    ensures var port := TrimEnd(publicUrl.PortSuffix(), IsSpace);
            port == "" || (port[0] == ':' && ':' !in port[1..])
  {
    var suffix := publicUrl.PortSuffix();
    if suffix != "" {
      var parts := RsplitOnce(publicUrl.host, ':').value;
      SuffixStartsWithColon(publicUrl, parts.1);
      TrimEndIsFront(suffix, IsSpace);
      FrontHasOneColon(parts.1, TrimEnd(suffix, IsSpace));
    }
  }

  lemma FrontHasOneColon(rest: string, front: string)
    requires ':' !in rest && front <= [':'] + rest && front != ""
    ensures front[0] == ':' && ':' !in front[1..]
  {
    forall i | 0 <= i < |front[1..]|
      ensures front[1..][i] != ':'
    {
      assert front[1..][i] == ([':'] + rest)[i + 1] == rest[i];
    }
  }

  lemma NameReadsBack(name: string, port: string)
    requires IsPlainHost(name) && Lower(name) == name
    requires port == "" || (port[0] == ':' && ':' !in port[1..] && port[|port| - 1] != ']')
    ensures Lower(TrimEnd(NameBeforePort(name + port), IsDot)) == name
  {
    PortIsDropped(name, port);
  }

  lemma BracketIsKept(name: string, port: string)
    requires name != "" && port != "" && port[|port| - 1] == ']'
    ensures Lower(TrimEnd(NameBeforePort(name + port), IsDot)) != name
  {
    assert (name + port)[|name + port| - 1] == ']';
    assert NameBeforePort(name + port) == name + port;
    assert TrimEnd(name + port, IsDot) == name + port;
  }

  lemma LowerOfName(base: string, id: Id)
    requires IsBase(base) && IsDeviceIdText(id)
    ensures Lower(id + "." + base) == id + "." + base
  {
    var name := id + "." + base;
    forall i | 0 <= i < |name|
      ensures LowerChar(name[i]) == name[i]
    {
      if i < |id| {
        assert name[i] == id[i] && id[i] in id;
      } else if i > |id| {
        assert name[i] == base[i - |id| - 1] == Lower(base)[i - |id| - 1];
      }
    }
  }

  /// Without a base the address is the relay's origin followed by a path that reads back as the
  /// device's own root.
  lemma PathAddressReadsBack(publicUrl: PublicUrl, id: Id)
    requires IsDeviceIdText(id)
    ensures DeviceUrl(publicUrl, None, id) == publicUrl.Origin() + PathBase(id)
    ensures ParseDevicePath(DeviceUrl(publicUrl, None, id)[|publicUrl.Origin()|..]) == Some(Resource(id, ""))
  {
    assert DeviceUrl(publicUrl, None, id)[|publicUrl.Origin()|..] == PathBase(id);
    assert PathBase(id) == PathBase(id) + "";
    DevicePathsReadBack(PathBase(id), id, "");
  }
}
