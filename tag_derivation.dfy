/**
 * Deriving a path's tag: the first capture of the regular expression
 * /\/v\d+\/([^/]+)/ when it matches, and otherwise `path.split("/")[1]`,
 * which is `undefined` (None) for a path without a slash.
 */
module TagDerivation {
  import opened Basics

  /** `\d` without the `u` flag: the ASCII digits only. */
  predicate IsDigit(c: char) {
    '0' <= c <= '9'
  }

  /**
   * The pattern matches with its `/v` at `p` and the slash after the digits
   * at `q`: `/v`, one or more digits, `/`, and at least one non-slash
   * character for the capture group.
   */
  ghost predicate PatternAt(s: string, p: int, q: int) {
    && 0 <= p && p + 2 < q && q + 1 < |s|
    && s[p] == '/' && s[p + 1] == 'v'
    && (forall k :: p + 2 <= k < q ==> IsDigit(s[k]))
    && s[q] == '/' && s[q + 1] != '/'
  }

  /** The end of the run of digits that starts at `i`. */
  function DigitsEnd(s: string, i: nat): (e: nat)
    requires i <= |s|
    ensures i <= e <= |s|
    ensures forall k :: i <= k < e ==> IsDigit(s[k])
    ensures e == |s| || !IsDigit(s[e])
    decreases |s| - i
  {
    if i < |s| && IsDigit(s[i]) then DigitsEnd(s, i + 1) else i
  }

  /**
   * The position of the next slash at or after `i`, or the end of `s`: where
   * the greedy `[^/]+` stops, and where `split("/")` cuts.
   */
  function SegmentEnd(s: string, i: nat): (e: nat)
    requires i <= |s|
    ensures i <= e <= |s|
    ensures forall k :: i <= k < e ==> s[k] != '/'
    ensures e == |s| || s[e] == '/'
    decreases |s| - i
  {
    if i < |s| && s[i] != '/' then SegmentEnd(s, i + 1) else i
  }

  /** SegmentEnd is the first slash at or after `i`. */
  lemma {:induction false} SegmentEndAt(s: string, i: nat, e: nat)
    requires i <= e <= |s|
    requires forall k :: i <= k < e ==> s[k] != '/'
    requires e == |s| || s[e] == '/'
    ensures SegmentEnd(s, i) == e
    decreases e - i
  {
    if i < e {
      SegmentEndAt(s, i + 1, e);
    }
  }

  /**
   * Trying the pattern at one start position.  The greedy `\d+` can only be
   * followed by the slash if it takes the whole run of digits, so giving
   * digits back never helps and the whole run is tried alone.
   */
  function MatchAt(s: string, p: nat): (r: Option<nat>)
    ensures forall q :: PatternAt(s, p, q) <==> r == Some(q)
  {
    if p + 2 <= |s| && s[p] == '/' && s[p + 1] == 'v' then
      var q := DigitsEnd(s, p + 2);
      if p + 2 < q && q + 1 < |s| && s[q] == '/' && s[q + 1] != '/' then
        Some(q)
      else
        None
    else
      None
  }

  /** Scanning forward from `p` for the leftmost position where the pattern matches. */
  function FindMatch(s: string, p: nat): (r: Option<(nat, nat)>)
    requires p <= |s|
    ensures r.Some? ==> p <= r.value.0 && PatternAt(s, r.value.0, r.value.1)
    ensures r.Some? ==> forall a, b :: p <= a < r.value.0 ==> !PatternAt(s, a, b)
    ensures r.None? ==> forall a, b :: p <= a ==> !PatternAt(s, a, b)
    decreases |s| - p
  {
    if p == |s| then None
    else
      match MatchAt(s, p)
      case Some(q) => Some((p, q))
      case None => FindMatch(s, p + 1)
  }

  /** `path.match(versionRegex)[1]`, or None when the regular expression does not match. */
  function VersionTag(s: string): (r: Option<string>)
    ensures r.Some? ==> r.value != [] && '/' !in r.value
  {
    match FindMatch(s, 0)
    case None => None
    case Some(m) =>
      var e := SegmentEnd(s, m.1 + 1);
      var t := s[m.1 + 1..e];
      assert forall k :: 0 <= k < |t| ==> t[k] == s[m.1 + 1 + k];
      Some(t)
  }

  /** `String.prototype.split` with the separator "/". */
  function Split(s: string): (parts: seq<string>)
    ensures |parts| >= 1
    ensures forall k :: 0 <= k < |parts| ==> '/' !in parts[k]
    decreases |s|
  {
    var i := SegmentEnd(s, 0);
    assert forall c :: c in s[..i] ==> c != '/';
    if i == |s| then [s] else [s[..i]] + Split(s[i + 1..])
  }

  /** `Array.prototype.join` with the separator "/": the reference inverse of Split. */
  function Join(parts: seq<string>): string
    requires |parts| >= 1
  {
    if |parts| == 1 then parts[0] else parts[0] + "/" + Join(parts[1..])
  }

  /** `path.split("/")[1]`: None when the split has a single part. */
  function SplitSecond(path: string): Option<string> {
    var parts := Split(path);
    if |parts| > 1 then Some(parts[1]) else None
  }

  /**
   * The tag of one path.  `match && match[1]`: the capture is never empty,
   * so the fallback is taken exactly when the regular expression fails.
   */
  function DeriveTag(path: string): Option<string> {
    var m := VersionTag(path);
    if m.Some? && m.value != "" then m else SplitSecond(path)
  }

  // ---------------------------------------------------------------------
  // What the scanner computes

  /** The pattern matches nowhere exactly when VersionTag yields None. */
  lemma VersionTagNone(s: string)
    ensures VersionTag(s).None? <==> forall p, q :: !PatternAt(s, p, q)
  {
    if VersionTag(s).Some? {
      var m := FindMatch(s, 0).value;
      assert PatternAt(s, m.0, m.1);
    }
  }

  /**
   * At the leftmost match the tag is the run of non-slash characters after
   * the digits' slash, up to the next slash or the end of the path.
   */
  lemma VersionTagLeftmost(s: string, p: int, q: int, e: int)
    requires PatternAt(s, p, q)
    requires forall a, b :: a < p ==> !PatternAt(s, a, b)
    requires q + 1 <= e <= |s|
    requires forall k :: q + 1 <= k < e ==> s[k] != '/'
    requires e == |s| || s[e] == '/'
    ensures VersionTag(s) == Some(s[q + 1..e])
  {
    var m := FindMatch(s, 0);
    assert m.Some?;
    var (p', q') := m.value;
    assert MatchAt(s, p) == Some(q) && MatchAt(s, p) == Some(q');
    SegmentEndAt(s, q + 1, e);
  }

  /** Join undoes Split. */
  lemma {:induction false} JoinSplit(s: string)
    ensures Join(Split(s)) == s
    decreases |s|
  {
    var i := SegmentEnd(s, 0);
    if i < |s| {
      JoinSplit(s[i + 1..]);
      assert s == s[..i] + "/" + s[i + 1..];
    }
  }

  /** A slash-free string splits into itself alone. */
  lemma SplitNoSlash(p: string)
    requires '/' !in p
    ensures Split(p) == [p]
  {
    assert forall k :: 0 <= k < |p| ==> p[k] in p;
    SegmentEndAt(p, 0, |p|);
  }

  /** Split cuts at the first slash. */
  lemma SplitAtFirstSlash(p: string, rest: string)
    requires '/' !in p
    ensures Split(p + "/" + rest) == [p] + Split(rest)
  {
    var s := p + "/" + rest;
    forall k | 0 <= k < |p| ensures s[k] != '/' {
      assert s[k] == p[k] && p[k] in p;
    }
    assert s[|p|] == '/';
    SegmentEndAt(s, 0, |p|);
    assert s[..|p|] == p;
    assert s[|p| + 1..] == rest;
  }

  /** Split undoes Join of slash-free parts. */
  lemma {:induction false} SplitJoin(parts: seq<string>)
    requires |parts| >= 1
    requires forall k :: 0 <= k < |parts| ==> '/' !in parts[k]
    ensures Split(Join(parts)) == parts
    decreases |parts|
  {
    if |parts| == 1 {
      SplitNoSlash(parts[0]);
    } else {
      SplitAtFirstSlash(parts[0], Join(parts[1..]));
      SplitJoin(parts[1..]);
      assert parts == [parts[0]] + parts[1..];
    }
  }

  /** `split("/")[1]` is undefined exactly for paths without a slash. */
  lemma SplitSecondNone(s: string)
    ensures SplitSecond(s).None? <==> '/' !in s
  {
    var i := SegmentEnd(s, 0);
    if i < |s| {
      var parts := Split(s);
      assert parts == [s[..i]] + Split(s[i + 1..]);
    }
  }

  /**
   * When a path has a slash, `split("/")[1]` is the text between its first
   * slash and the next one (or the end): "" for "/", "api" for "/api/x".
   */
  lemma SplitSecondBetween(s: string, i: int, j: int)
    requires 0 <= i < j <= |s|
    requires s[i] == '/' && forall k :: 0 <= k < i ==> s[k] != '/'
    requires forall k :: i + 1 <= k < j ==> s[k] != '/'
    requires j == |s| || s[j] == '/'
    ensures SplitSecond(s) == Some(s[i + 1..j])
  {
    SlashFreeSlice(s, 0, i);
    CutAt(s, i);
    var t := s[i + 1..];
    SplitAtFirstSlash(s[..i], t);
    SlashFreeSlice(s, i + 1, j);
    if j == |s| {
      assert t == s[i + 1..j];
      SplitNoSlash(t);
    } else {
      var n := j - i - 1;
      CutAt(t, n);
      assert t[..n] == s[i + 1..j];
      SplitAtFirstSlash(t[..n], t[n + 1..]);
    }
  }

  /** A slice of characters that are not slashes holds no slash. */
  lemma SlashFreeSlice(s: string, a: int, b: int)
    requires 0 <= a <= b <= |s|
    requires forall k :: a <= k < b ==> s[k] != '/'
    ensures '/' !in s[a..b]
  {
    assert forall k :: 0 <= k < b - a ==> s[a..b][k] == s[a + k];
  }

  /** A string is what comes before position `i`, the character there, and what follows. */
  lemma CutAt(s: string, i: int)
    requires 0 <= i < |s|
    ensures s == s[..i] + [s[i]] + s[i + 1..]
  {
  }

  /** With a version match, the tag is the leftmost match's capture. */
  lemma DeriveTagVersioned(s: string, p: int, q: int, e: int)
    requires PatternAt(s, p, q)
    requires forall a, b :: a < p ==> !PatternAt(s, a, b)
    requires q + 1 <= e <= |s|
    requires forall k :: q + 1 <= k < e ==> s[k] != '/'
    requires e == |s| || s[e] == '/'
    ensures DeriveTag(s) == Some(s[q + 1..e])
  {
    VersionTagLeftmost(s, p, q, e);
  }

  /** Without a version match, the tag is `path.split("/")[1]`. */
  lemma DeriveTagFallback(s: string)
    requires forall p, q :: !PatternAt(s, p, q)
    ensures DeriveTag(s) == SplitSecond(s)
  {
    VersionTagNone(s);
  }

  /** A path without the letter `v` has no version marker, so its tag is `split("/")[1]`. */
  lemma DeriveTagNoMarker(s: string)
    requires 'v' !in s
    ensures DeriveTag(s) == SplitSecond(s)
  {
    assert forall k :: 0 <= k < |s| ==> s[k] in s;
    DeriveTagFallback(s);
  }

  /** A path without a slash, such as an array index key, has no tag. */
  lemma DeriveTagNoSlash(s: string)
    requires '/' !in s
    ensures DeriveTag(s) == None
  {
    assert forall k :: 0 <= k < |s| ==> s[k] in s;
    DeriveTagFallback(s);
    SplitSecondNone(s);
  }
}
