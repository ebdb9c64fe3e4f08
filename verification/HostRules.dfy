/// What is accepted as a base, as a public url and as a device's host, and what is printed, spelled out
/// character by character.
module HostRules {
  import opened Protocol
  import opened Text
  import opened Addressing

  // ---------- the base of the subdomain form ----------

  predicate IsAlphanumeric(c: char) {
    'a' <= c <= 'z' || 'A' <= c <= 'Z' || '0' <= c <= '9'
  }

  ghost predicate HasDot(s: string, i: nat, n: nat)
    requires i + n <= |s|
  {
    exists j :: i <= j < i + n && s[j] == '.'
  }

  /// Letters, digits, hyphens and dots, with a letter or a digit at both ends and on both sides of every
  /// dot, and never more than 63 characters without a dot.
  ghost predicate FollowsLabelRule(s: string) {
    && s != "" && IsAlphanumeric(s[0]) && IsAlphanumeric(s[|s| - 1])
    && (forall i :: 0 <= i < |s| ==> IsAlphanumeric(s[i]) || s[i] == '-' || s[i] == '.')
    && (forall i :: 0 < i < |s| - 1 && s[i] == '.' ==> IsAlphanumeric(s[i - 1]) && IsAlphanumeric(s[i + 1]))
    && (forall i: nat :: i + 64 <= |s| ==> HasDot(s, i, 64))
  }

  lemma LongOnesHaveADot(s: string)
    requires FollowsLabelRule(s) && |s| > 63
    ensures exists j :: 0 <= j < 64 && s[j] == '.'
  {
    assert HasDot(s, 0, 64);
  }

  lemma ShortWithoutDots(s: string)
    requires '.' !in s && FollowsLabelRule(s)
    ensures |s| <= 63
  {
    if |s| > 63 {
      LongOnesHaveADot(s);
    }
  }

  lemma LabelWithoutDots(s: string)
    requires '.' !in s
    ensures IsHostLabel(s) <==> FollowsLabelRule(s)
  {
    assert forall i :: 0 <= i < |s| ==> s[i] in s && s[i] != '.';
    if FollowsLabelRule(s) {
      ShortWithoutDots(s);
    }
  }

  lemma JoinFollows(left: string, right: string)
    requires '.' !in left && FollowsLabelRule(left) && FollowsLabelRule(right)
    ensures FollowsLabelRule(left + ['.'] + right)
  {
    var s, at := left + ['.'] + right, |left|;
    ShortWithoutDots(left);
    assert forall i :: 0 <= i < |s| ==> s[i] == if i < at then left[i] else if i == at then '.' else right[i - at - 1];
    forall i: nat | i + 64 <= |s|
      ensures HasDot(s, i, 64)
    {
      if i > at {
        assert HasDot(right, i - at - 1, 64);
        var j :| i - at - 1 <= j < i - at - 1 + 64 && right[j] == '.';
        assert s[j + at + 1] == '.';
      } else {
        assert s[at] == '.';
      }
    }
  }

  lemma LeftPartFollows(left: string, right: string)
    requires '.' !in left && FollowsLabelRule(left + ['.'] + right)
    ensures FollowsLabelRule(left)
  {
    var s, at := left + ['.'] + right, |left|;
    assert s[at] == '.';
    assert forall i :: 0 <= i < at ==> s[i] == left[i] && left[i] in left;
    if at > 63 {
      LongOnesHaveADot(s);
    }
  }

  lemma RightPartFollows(left: string, right: string)
    requires FollowsLabelRule(left + ['.'] + right)
    ensures FollowsLabelRule(right)
  {
    var s, at := left + ['.'] + right, |left|;
    assert s[at] == '.';
    assert forall i :: 0 <= i < |right| ==> right[i] == s[at + 1 + i];
    forall i: nat | i + 64 <= |right|
      ensures HasDot(right, i, 64)
    {
      assert HasDot(s, at + 1 + i, 64);
      var j :| at + 1 + i <= j < at + 1 + i + 64 && s[j] == '.';
      assert right[j - at - 1] == '.';
    }
  }

  lemma {:induction false} SplitLabelsFollow(s: string)
    ensures (forall piece :: piece in Split(s, '.') ==> IsHostLabel(piece)) <==> FollowsLabelRule(s)
    decreases |s|
  {
    match SplitOnce(s, '.')
    case None =>
      assert Split(s, '.') == [s];
      LabelWithoutDots(s);
    case Some(parts) =>
      var rest := Split(parts.1, '.');
      assert Split(s, '.') == [parts.0] + rest;
      assert parts.0 in Split(s, '.') && forall piece :: piece in rest ==> piece in Split(s, '.');
      SplitLabelsFollow(parts.1);
      LabelWithoutDots(parts.0);
      if FollowsLabelRule(s) {
        LeftPartFollows(parts.0, parts.1);
        RightPartFollows(parts.0, parts.1);
      }
      if FollowsLabelRule(parts.0) && FollowsLabelRule(parts.1) {
        JoinFollows(parts.0, parts.1);
      }
  }

  /// A base is accepted, in lower case and without white space and dots around it, if and only if what
  /// is left follows the rule and has a dot.
  lemma BaseIsAcceptedIff(value: string, host: string)
    ensures ParseBase(value) == Some(host) <==> host == NormalBase(value) && '.' in host && FollowsLabelRule(host)
  {
    SplitLabelsFollow(NormalBase(value));
  }

  // ---------- white space around a text ----------

  predicate IsBlank(s: string) {
    forall i :: 0 <= i < |s| ==>
      s[i] == ' ' || s[i] == '\t' || s[i] == '\n' || s[i] == '\r' || s[i] == 0x0b as char || s[i] == 0x0c as char
  }

  /// A text with no white space at its ends.
  predicate IsCore(s: string) {
    s == "" || (!IsBlank([s[0]]) && !IsBlank([s[|s| - 1]]))
  }

  lemma BlankIsSpace(c: char)
    ensures IsBlank([c]) <==> IsSpace(c)
  {
    assert [c][0] == c;
  }

  lemma CoreIsKept(s: string)
    requires IsCore(s)
    ensures s != "" ==> !IsSpace(s[0]) && !IsSpace(s[|s| - 1])
  {
    if s != "" {
      BlankIsSpace(s[0]);
      BlankIsSpace(s[|s| - 1]);
    }
  }

  /// White space around a core is dropped, and nothing else.
  lemma TrimFindsCore(lead: string, core: string, tail: string)
    requires IsBlank(lead) && IsBlank(tail) && core != "" && IsCore(core)
    ensures Trim(lead + core + tail) == core
  {
    CoreIsKept(core);
    StartKeepsTail(lead, core, tail);
    assert forall c :: c in tail ==> IsSpace(c);
    TrimEndDrops(core, tail, IsSpace);
  }

  lemma {:induction false} StartKeepsTail(lead: string, core: string, tail: string)
    requires IsBlank(lead) && core != "" && IsCore(core)
    ensures TrimStart(lead + core + tail, IsSpace) == core + tail
    decreases |lead|
  {
    CoreIsKept(core);
    var s := lead + core + tail;
    if lead == "" {
      assert s == core + tail && s[0] == core[0];
    } else {
      assert s[0] == lead[0] && s[1..] == lead[1..] + core + tail;
      StartKeepsTail(lead[1..], core, tail);
    }
  }

  lemma {:induction false} StartIsLead(s: string) returns (lead: string)
    ensures IsBlank(lead) && s == lead + TrimStart(s, IsSpace)
  {
    if s != "" && IsSpace(s[0]) {
      var rest := StartIsLead(s[1..]);
      lead := [s[0]] + rest;
    } else {
      lead := "";
    }
  }

  lemma {:induction false} EndIsTail(s: string) returns (tail: string)
    ensures IsBlank(tail) && s == TrimEnd(s, IsSpace) + tail
  {
    if s != "" && IsSpace(s[|s| - 1]) {
      var rest := EndIsTail(s[..|s| - 1]);
      tail := rest + [s[|s| - 1]];
    } else {
      tail := "";
    }
  }

  // ---------- the public url ----------

  predicate IsSlashes(s: string) {
    forall i :: 0 <= i < |s| ==> s[i] == '/'
  }

  function SchemeText(secure: bool): string {
    if secure then "https://" else "http://"
  }

  predicate EndsSolid(s: string) {
    s != "" && !IsBlank([s[|s| - 1]])
  }

  /// A scheme, a host without any of the three marks, and slashes.
  predicate IsOriginText(text: string, secure: bool, host: string, slashes: string) {
    && text == SchemeText(secure) + (host + slashes)
    && IsSlashes(slashes)
    && host != "" && '/' !in host && '?' !in host && '#' !in host
    && EndsSolid(host + slashes)
  }

  lemma SchemeIsStripped(secure: bool, rest: string)
    ensures var text := SchemeText(secure) + rest;
            && StripPrefix(text, "https://") == (if secure then Some(rest) else None)
            && (!secure ==> StripPrefix(text, "http://") == Some(rest))
  {
    var text := SchemeText(secure) + rest;
    assert text[4] == if secure then 's' else ':';
    assert text[|SchemeText(secure)|..] == rest;
  }

  lemma OriginTextIsAccepted(text: string, secure: bool, host: string, slashes: string)
    requires IsOriginText(text, secure, host, slashes)
    ensures ParseTrimmedUrl(text) == Accepted(PublicUrl(secure, host))
  {
    SchemeIsStripped(secure, host + slashes);
    assert host[|host| - 1] in host;
    TrimEndDrops(host, slashes, IsSlash);
    NoMarkLeft(host);
  }

  lemma {:induction false} EndIsSlashes(s: string) returns (slashes: string)
    ensures IsSlashes(slashes) && s == TrimEnd(s, IsSlash) + slashes
  {
    if s != "" && IsSlash(s[|s| - 1]) {
      var rest := EndIsSlashes(s[..|s| - 1]);
      slashes := rest + [s[|s| - 1]];
    } else {
      slashes := "";
    }
  }

  lemma AcceptedTextIsOrigin(text: string, secure: bool, host: string) returns (slashes: string)
    requires EndsSolid(text) && ParseTrimmedUrl(text) == Accepted(PublicUrl(secure, host))
    ensures IsOriginText(text, secure, host, slashes)
  {
    var rest := AcceptedTextHasScheme(text, secure, host);
    slashes := EndIsSlashes(rest);
    NoMarkLeft(host);
    LastIsKept(SchemeText(secure), rest);
  }

  lemma AcceptedTextHasScheme(text: string, secure: bool, host: string) returns (rest: string)
    requires ParseTrimmedUrl(text) == Accepted(PublicUrl(secure, host))
    ensures text == SchemeText(secure) + rest
    ensures host == TrimEnd(rest, IsSlash) && host != "" && FromMark(host) == ""
  {
    rest := text[|SchemeText(secure)|..];
    SchemeIsStripped(secure, rest);
  }

  lemma LastIsKept(front: string, rest: string)
    requires rest != ""
    ensures (front + rest)[|front + rest| - 1] == rest[|rest| - 1]
  {}

  lemma OriginIsCore(text: string, secure: bool, host: string, slashes: string)
    requires IsOriginText(text, secure, host, slashes)
    ensures text != "" && IsCore(text)
  {
    var rest := host + slashes;
    assert text[0] == 'h' && text[|text| - 1] == rest[|rest| - 1];
  }

  lemma TrimHasCore(s: string)
    ensures IsCore(Trim(s))
  {
    if Trim(s) != "" {
      BlankIsSpace(Trim(s)[0]);
      BlankIsSpace(Trim(s)[|Trim(s)| - 1]);
    }
  }

  ghost predicate IsUrlText(value: string, secure: bool, host: string, lead: string, slashes: string, tail: string) {
    && IsBlank(lead) && IsBlank(tail)
    && exists text :: value == lead + text + tail && IsOriginText(text, secure, host, slashes)
  }

  lemma AcceptedUrlIsText(value: string, secure: bool, host: string)
    requires ParsePublicUrl(value) == Accepted(PublicUrl(secure, host))
    ensures exists lead, slashes, tail :: IsUrlText(value, secure, host, lead, slashes, tail)
  {
    var lead := StartIsLead(value);
    var tail := EndIsTail(TrimStart(value, IsSpace));
    var text := Trim(value);
    TrimHasCore(value);
    assert value == lead + text + tail;
    var slashes := AcceptedTextIsOrigin(text, secure, host);
    assert IsUrlText(value, secure, host, lead, slashes, tail);
  }

  lemma UrlTextIsAccepted(value: string, secure: bool, host: string, lead: string, slashes: string, tail: string)
    requires IsUrlText(value, secure, host, lead, slashes, tail)
    ensures ParsePublicUrl(value) == Accepted(PublicUrl(secure, host))
  {
    var text :| value == lead + text + tail && IsOriginText(text, secure, host, slashes);
    OriginIsCore(text, secure, host, slashes);
    TrimFindsCore(lead, text, tail);
    OriginTextIsAccepted(text, secure, host, slashes);
  }

  /// A text is accepted as a public url if and only if, between white space, it is a scheme, a host with
  /// none of the three marks in it, and slashes; and then scheme and host are what it is.
  lemma UrlIsAcceptedIff(value: string, secure: bool, host: string)
    ensures ParsePublicUrl(value) == Accepted(PublicUrl(secure, host)) <==>
            exists lead, slashes, tail :: IsUrlText(value, secure, host, lead, slashes, tail)
  {
    if ParsePublicUrl(value) == Accepted(PublicUrl(secure, host)) {
      AcceptedUrlIsText(value, secure, host);
    }
    forall lead, slashes, tail | IsUrlText(value, secure, host, lead, slashes, tail)
      ensures ParsePublicUrl(value) == Accepted(PublicUrl(secure, host))
    {
      UrlTextIsAccepted(value, secure, host, lead, slashes, tail);
    }
  }

  // ---------- printed addresses ----------

  /// Without a base: scheme, host and the device's path.
  lemma PrintedPath(secure: bool, host: string, id: Id)
    ensures DeviceUrl(PublicUrl(secure, host), None, id) == SchemeText(secure) + host + "/d/" + id + "/"
  {
    var url := PublicUrl(secure, host);
    assert url.Scheme() + "://" == SchemeText(secure);
    assert PathBase(id) == "/d/" + id + "/";
    assert url.Origin() == SchemeText(secure) + host;
    Regroup3(SchemeText(secure) + host, "/d/" + id, "/");
  }

  lemma Regroup3(front: string, middle: string, end: string)
    ensures front + (middle + end) == front + middle + end
  {}

  lemma SubdomainIsPrinted(secure: bool, host: string, base: string, id: Id, suffix: string)
    requires PublicUrl(secure, host).PortSuffix() == suffix
    ensures DeviceUrl(PublicUrl(secure, host), Some(base), id) == SchemeText(secure) + id + "." + base + suffix + "/"
  {
    assert PublicUrl(secure, host).Scheme() + "://" == SchemeText(secure);
  }

  lemma LastColonStartsPort(secure: bool, name: string, port: string)
    requires ':' !in port && (port == "" || port[|port| - 1] != ']')
    ensures PublicUrl(secure, name + [':'] + port).PortSuffix() == [':'] + port
  {
    RsplitOnceAt(name, ':', port);
    var host := name + [':'] + port;
    assert host[|name|..] == [':'] + port;
    assert host[|host| - 1] == ([':'] + port)[|port|];
  }

  /// With a base: scheme, id, base, and the port of the relay's host, if it has one that is not part of a
  /// bracketed literal.
  lemma PrintedSubdomain(secure: bool, host: string, id: Id, base: string)
    requires host != ""
    ensures forall name, port ::
              host == name + [':'] + port && ':' !in port && (port == "" || port[|port| - 1] != ']') ==>
                DeviceUrl(PublicUrl(secure, host), Some(base), id)
                == SchemeText(secure) + id + "." + base + ([':'] + port) + "/"
    ensures ':' !in host || host[|host| - 1] == ']' ==>
              DeviceUrl(PublicUrl(secure, host), Some(base), id) == SchemeText(secure) + id + "." + base + "/"
  {
    forall name, port | host == name + [':'] + port && ':' !in port && (port == "" || port[|port| - 1] != ']')
      ensures DeviceUrl(PublicUrl(secure, host), Some(base), id)
           == SchemeText(secure) + id + "." + base + ([':'] + port) + "/"
    {
      LastColonStartsPort(secure, name, port);
      SubdomainIsPrinted(secure, host, base, id, [':'] + port);
    }
    if ':' !in host || host[|host| - 1] == ']' {
      SubdomainIsPrinted(secure, host, base, id, "");
      assert SchemeText(secure) + id + "." + base + "" == SchemeText(secure) + id + "." + base;
    }
  }

  // ---------- spellings of a device's host ----------

  /// The same text, but for letters that are upper-case on the left.
  predicate SameUpToCase(spelled: string, name: string) {
    && |spelled| == |name|
    && (forall i :: 0 <= i < |name| ==>
          || spelled[i] == name[i]
          || ('a' <= name[i] <= 'z' && 'A' <= spelled[i] <= 'Z' && spelled[i] as int + 32 == name[i] as int))
  }

  lemma CaseIsFolded(spelled: string, name: string)
    requires SameUpToCase(spelled, name) && Lower(name) == name
    ensures Lower(spelled) == name
  {
    forall i | 0 <= i < |name|
      ensures Lower(spelled)[i] == name[i]
    {
      assert Lower(name)[i] == LowerChar(name[i]);
    }
  }

  lemma BlanksDoNotMatter(lead: string, core: string, tail: string, base: Option<string>, isDeviceId: string -> bool)
    requires IsBlank(lead) && IsBlank(tail) && core != "" && IsCore(core)
    ensures DeviceFromHost(base, lead + core + tail, isDeviceId) == DeviceFromHost(base, core, isDeviceId)
  {
    TrimFindsCore(lead, core, tail);
    TrimFindsCore("", core, "");
    assert "" + core + "" == core;
    assert NormalizeHost(lead + core + tail) == NormalizeHost(core);
  }

  /// A device's host in any letter case, with dots at its end, with any port, and with white space around
  /// it all is read as that device; a relay without a base reads no host as a device.
  lemma AnySpellingReadsBack(base: string, id: Id, spelled: string, dots: string, port: string, lead: string,
                             tail: string, isDeviceId: string -> bool)
    requires IsBase(base) && IsDeviceIdText(id) && isDeviceId(id)
    requires SameUpToCase(spelled, id + "." + base)
    requires AllDots(dots) && IsPortText(port) && IsBlank(lead) && IsBlank(tail)
    ensures DeviceFromHost(Some(base), lead + (spelled + dots + port) + tail, isDeviceId) == Some(id)
    ensures DeviceFromHost(None, lead + (spelled + dots + port) + tail, isDeviceId) == None
  {
    LowerOfName(base, id);
    CaseIsFolded(spelled, id + "." + base);
    HostCharacters(base, id, spelled);
    SpellingsReadBack(base, id, spelled, dots, port, isDeviceId);
    SpelledIsCore(spelled, dots, port);
    BlanksDoNotMatter(lead, spelled + dots + port, tail, Some(base), isDeviceId);
  }

  lemma SpelledIsCore(spelled: string, dots: string, port: string)
    requires IsPlainHost(spelled) && AllDots(dots) && IsPortText(port)
    ensures spelled + dots + port != "" && IsCore(spelled + dots + port)
  {
    var text := spelled + dots + port;
    DottedHost(spelled, dots);
    assert text[0] == spelled[0] && spelled[0] in spelled;
    BlankIsSpace(text[0]);
    BlankIsSpace(text[|text| - 1]);
    if port != "" {
      assert text[|text| - 1] == port[|port| - 1] && port[|port| - 1] in port;
    } else {
      assert text == spelled + dots && text[|text| - 1] in spelled + dots;
    }
  }
}
