/// The string operations the address code is written in.
module Text {
  import opened Protocol

  predicate IsSpace(c: char) {
    c == ' ' || c == '\t' || c == '\n' || c == '\r' || c == 0x0b as char || c == 0x0c as char
  }

  function StripPrefix(s: string, prefix: string): (r: Option<string>)
    ensures r.Some? <==> prefix <= s
    ensures r.Some? ==> s == prefix + r.value
  {
    if prefix <= s then Some(s[|prefix|..]) else None
  }

  function StripSuffix(s: string, suffix: string): (r: Option<string>)
    ensures r.Some? <==> |suffix| <= |s| && s[|s| - |suffix|..] == suffix
    ensures r.Some? ==> s == r.value + suffix
  {
    if |suffix| <= |s| && s[|s| - |suffix|..] == suffix then Some(s[..|s| - |suffix|]) else None
  }

  function TrimStart(s: string, drop: char -> bool): (r: string)
    ensures r != "" ==> !drop(r[0])
  {
    if s != "" && drop(s[0]) then TrimStart(s[1..], drop) else s
  }

  function TrimEnd(s: string, drop: char -> bool): (r: string)
    ensures r != "" ==> !drop(r[|r| - 1])
    ensures r != "" ==> s != "" && r[0] == s[0]
  {
    if s != "" && drop(s[|s| - 1]) then TrimEnd(s[..|s| - 1], drop) else s
  }

  function Trim(s: string): string {
    TrimEnd(TrimStart(s, IsSpace), IsSpace)
  }

  /// Splits at the first occurrence of `c`.
  function SplitOnce(s: string, c: char): (r: Option<(string, string)>)
    ensures r.None? <==> c !in s
    ensures r.Some? ==> c !in r.value.0 && s == r.value.0 + [c] + r.value.1
  {
    if s == "" then None
    else if s[0] == c then Some(("", s[1..]))
    else
      match SplitOnce(s[1..], c)
      case None => None
      case Some(parts) => Some(([s[0]] + parts.0, parts.1))
  }

  /// Splits at the last occurrence of `c`.
  function RsplitOnce(s: string, c: char): (r: Option<(string, string)>)
    ensures r.None? <==> c !in s
    ensures r.Some? ==> c !in r.value.1 && s == r.value.0 + [c] + r.value.1
  {
    if s == "" then None
    else if s[|s| - 1] == c then Some((s[..|s| - 1], ""))
    else
      match RsplitOnce(s[..|s| - 1], c)
      case None => None
      case Some(parts) => Some((parts.0, parts.1 + [s[|s| - 1]]))
  }

  function Split(s: string, c: char): (r: seq<string>)
    ensures r != []
    decreases |s|
  {
    match SplitOnce(s, c)
    case None => [s]
    case Some(parts) => [parts.0] + Split(parts.1, c)
  }

  function LowerChar(c: char): char {
    if 'A' <= c <= 'Z' then (c as int + 32) as char else c
  }

  function Lower(s: string): (r: string)
    ensures |r| == |s|
    ensures forall i :: 0 <= i < |s| ==> r[i] == LowerChar(s[i])
  {
    seq(|s|, i requires 0 <= i < |s| => LowerChar(s[i]))
  }

  // ---------- what the operations do to strings of known shape ----------

  lemma TrimKeeps(s: string)
    requires s != "" ==> !IsSpace(s[0]) && !IsSpace(s[|s| - 1])
    ensures Trim(s) == s
  {}

  lemma {:induction false} TrimEndDrops(s: string, tail: string, drop: char -> bool)
    requires forall c :: c in tail ==> drop(c)
    requires s != "" ==> !drop(s[|s| - 1])
    ensures TrimEnd(s + tail, drop) == s
    decreases |tail|
  {
    if tail == "" {
      assert s + tail == s;
    } else {
      assert (s + tail)[..|s + tail| - 1] == s + tail[..|tail| - 1];
      TrimEndDrops(s, tail[..|tail| - 1], drop);
    }
  }

  lemma {:induction false} TrimEndIsFront(s: string, drop: char -> bool)
    ensures TrimEnd(s, drop) <= s
    ensures s != "" && !drop(s[0]) ==> TrimEnd(s, drop) != ""
  {
    if s != "" && drop(s[|s| - 1]) {
      TrimEndIsFront(s[..|s| - 1], drop);
    }
  }

  lemma {:induction false} SplitOnceAt(left: string, c: char, right: string)
    requires c !in left
    ensures SplitOnce(left + [c] + right, c) == Some((left, right))
    decreases |left|
  {
    var s := left + [c] + right;
    if left == "" {
      assert s[1..] == right;
    } else {
      assert s[0] == left[0];
      assert s[1..] == left[1..] + [c] + right;
      SplitOnceAt(left[1..], c, right);
      assert [left[0]] + left[1..] == left;
    }
  }

  lemma {:induction false} RsplitOnceAt(left: string, c: char, right: string)
    requires c !in right
    ensures RsplitOnce(left + [c] + right, c) == Some((left, right))
    decreases |right|
  {
    var s := left + [c] + right;
    if right == "" {
      assert s[..|s| - 1] == left;
    } else {
      var front, last := right[..|right| - 1], right[|right| - 1];
      assert s[|s| - 1] == last;
      assert s[..|s| - 1] == left + [c] + front;
      RsplitOnceAt(left, c, front);
      assert front + [last] == right;
    }
  }
}
