/**
  Relative paths on the wire. A Rust `str` is its UTF-8 bytes, so names and
  paths are byte sequences, with UTF-8 validity as a predicate.
*/
module Paths {
  import opened Common

  type Name = Bytes

  type Path = seq<Name>

  const MAX_PATH_BYTES: nat := 32 * 1024

  const SLASH: Byte := 0x2f
  const BACKSLASH: Byte := 0x5c
  const DOT: Byte := 0x2e
  const TILDE: Byte := 0x7e
  const DOLLAR: Byte := 0x24

  // ---- UTF-8 --------------------------------------------------------------

  predicate Continuation(b: Byte) {
    0x80 <= b < 0xc0
  }

  /** The length of the well-formed character that `s` starts with, or 0. */
  function CharLength(s: Bytes): (n: nat)
    requires s != []
    ensures n <= |s|
  {
    if s[0] < 0x80 then 1
    else if 0xc2 <= s[0] < 0xe0 then
      if |s| >= 2 && Continuation(s[1]) then 2 else 0
    else if 0xe0 <= s[0] < 0xf0 then
      if |s| >= 3 && Continuation(s[1]) && Continuation(s[2]) &&
         (s[0] == 0xe0 ==> s[1] >= 0xa0) && (s[0] == 0xed ==> s[1] < 0xa0) then 3 else 0
    else if 0xf0 <= s[0] < 0xf5 then
      if |s| >= 4 && Continuation(s[1]) && Continuation(s[2]) && Continuation(s[3]) &&
         (s[0] == 0xf0 ==> s[1] >= 0x90) && (s[0] == 0xf4 ==> s[1] < 0x90) then 4 else 0
    else 0
  }

  predicate IsUtf8(s: Bytes)
    decreases |s|
  {
    s == [] || (CharLength(s) > 0 && IsUtf8(s[CharLength(s)..]))
  }

  /** No character of general category Cc: U+0000-U+001F, U+007F and U+0080-U+009F. */
  predicate ControlFree(s: Bytes) {
    forall i :: 0 <= i < |s| ==>
      s[i] >= 0x20 && s[i] != 0x7f && !(s[i] == 0xc2 && i + 1 < |s| && 0x80 <= s[i + 1] < 0xa0)
  }

  // ---- segments -----------------------------------------------------------

  /** The parts of `v` between slashes. */
  function Segments(v: Bytes): (p: Path)
    ensures p != []
    decreases |v|
  {
    if SLASH !in v then [v]
    else
      var i := FirstSlash(v);
      [v[..i]] + Segments(v[i + 1..])
  }

  function FirstSlash(v: Bytes): (i: nat)
    requires SLASH in v
    ensures i < |v| && v[i] == SLASH && SLASH !in v[..i]
  {
    if v[0] == SLASH then 0 else
      assert v == [v[0]] + v[1..];
      1 + FirstSlash(v[1..])
  }

  function Joined(p: Path): Bytes
    requires p != []
  {
    if |p| == 1 then p[0] else p[0] + [SLASH] + Joined(p[1..])
  }

  predicate SlashFree(p: Path) {
    forall i :: 0 <= i < |p| ==> SLASH !in p[i]
  }

  lemma {:induction false} SegmentsOfJoined(p: Path)
    requires p != [] && SlashFree(p)
    ensures Segments(Joined(p)) == p
  {
    if |p| > 1 {
      SegmentsOfJoined(p[1..]);
      SplitsAtFirst(p[0], Joined(p[1..]));
    }
  }

  lemma SplitsAtFirst(first: Bytes, rest: Bytes)
    requires SLASH !in first
    ensures Segments(first + [SLASH] + rest) == [first] + Segments(rest)
  {
    var v := first + [SLASH] + rest;
    assert v[|first|] == SLASH;
    assert v[..|first|] == first;
    var i := FirstSlash(v);
    assert v[i] !in first;
    assert i == |first|;
    assert v[i + 1..] == rest;
  }

  lemma {:induction false} JoinedOfSegments(v: Bytes)
    ensures Joined(Segments(v)) == v && SlashFree(Segments(v))
    decreases |v|
  {
    if SLASH in v {
      var i := FirstSlash(v);
      JoinedOfSegments(v[i + 1..]);
      assert v == v[..i] + [SLASH] + v[i + 1..];
    }
  }

  // ---- validation ---------------------------------------------------------

  predicate SafeName(s: Name) {
    s != [] && s != [DOT] && s != [DOT, DOT] && ControlFree(s)
  }

  /** `validate_relative_path`, on a value that is already known to be UTF-8. */
  predicate ValidPath(v: Bytes) {
    0 < |v| <= MAX_PATH_BYTES && 0 !in v && BACKSLASH !in v && v[0] != TILDE && v[0] != DOLLAR &&
    forall s :: s in Segments(v) ==> SafeName(s)
  }

  function SlashForBackslash(v: Bytes): (w: Bytes)
    ensures |w| == |v| && forall i :: 0 <= i < |v| ==> w[i] == (if v[i] == BACKSLASH then SLASH else v[i])
  {
    seq(|v|, i requires 0 <= i < |v| => if v[i] == BACKSLASH then SLASH else v[i])
  }

  /** `path_to_wire`: nothing when the path is not UTF-8 or not acceptable to the receiver. */
  function ToWire(p: Path): Option<Bytes>
    requires p != []
  {
    var v := Joined(p);
    if !IsUtf8(v) then None
    else if !ValidPath(SlashForBackslash(v)) then None
    else Some(SlashForBackslash(v))
  }

  predicate BackslashFree(p: Path) {
    forall i :: 0 <= i < |p| ==> BACKSLASH !in p[i]
  }

  lemma {:induction false} JoinedHasNoBackslash(p: Path)
    requires p != [] && BackslashFree(p)
    ensures BACKSLASH !in Joined(p)
  {
    if |p| > 1 {
      JoinedHasNoBackslash(p[1..]);
    }
  }

  /** A path without a backslash reaches the receiver as itself. */
  lemma WireIsPath(p: Path)
    requires p != [] && SlashFree(p) && BackslashFree(p) && ToWire(p).Some?
    ensures Segments(ToWire(p).value) == p && ToWire(p).value == Joined(p)
  {
    JoinedHasNoBackslash(p);
    var v := Joined(p);
    forall i | 0 <= i < |v| ensures SlashForBackslash(v)[i] == v[i] {
      assert v[i] in v;
    }
    assert SlashForBackslash(v) == v;
    SegmentsOfJoined(p);
  }

  /** What the receiver accepts has no backslash in any component. */
  lemma ValidHasNoBackslash(v: Bytes)
    requires BACKSLASH !in v
    ensures BackslashFree(Segments(v))
  {
    SegmentsWithin(v);
  }

  lemma {:induction false} SegmentsWithin(v: Bytes)
    ensures forall i, j :: 0 <= i < |Segments(v)| && 0 <= j < |Segments(v)[i]| ==> Segments(v)[i][j] in v
    decreases |v|
  {
    if SLASH in v {
      var k := FirstSlash(v);
      SegmentsWithin(v[k + 1..]);
    }
  }

  /** The second validation, of a parent directory, cannot fail. */
  lemma ParentStaysValid(v: Bytes)
    requires ValidPath(v) && |Segments(v)| > 1
    ensures var p := Segments(v); ValidPath(Joined(p[..|p| - 1]))
  {
    hide Segments, Joined, SafeName;
    var p := Segments(v);
    JoinedOfSegments(v);
    var parent := p[..|p| - 1];
    JoinedPrefix(p);
    SegmentsOfJoined(parent);
    assert forall s :: s in parent ==> s in p;
    NotEmptyJoined(parent);
    PrefixStaysValid(v, Joined(parent), parent);
  }

  lemma PrefixStaysValid(v: Bytes, w: Bytes, parts: Path)
    requires ValidPath(v) && w != [] && IsPrefix(w, v) && Segments(w) == parts
    requires forall s :: s in parts ==> SafeName(s)
    ensures ValidPath(w)
  {
    hide Segments, SafeName;
    assert w[0] == v[0];
  }

  lemma NotEmptyJoined(p: Path)
    requires p != [] && forall s :: s in p ==> SafeName(s)
    ensures Joined(p) != []
  {
    assert p[0] in p;
  }

  lemma {:induction false} JoinedPrefix(p: Path)
    requires |p| > 1
    ensures Joined(p) == Joined(p[..|p| - 1]) + [SLASH] + p[|p| - 1]
  {
    if |p| > 2 {
      JoinedPrefix(p[1..]);
      assert p[1..][..|p[1..]| - 1] == p[..|p| - 1][1..];
    }
  }

  lemma ControlFreeAround(a: Bytes, b: Bytes)
    requires ControlFree(a) && ControlFree(b)
    ensures ControlFree(a + [SLASH] + b)
  {
    var v, k := a + [SLASH] + b, |a| + 1;
    forall i | 0 <= i < |v|
      ensures v[i] >= 0x20 && v[i] != 0x7f && !(v[i] == 0xc2 && i + 1 < |v| && 0x80 <= v[i + 1] < 0xa0)
    {
      if i < |a| {
        assert v[i] == a[i];
        assert i + 1 < |a| ==> v[i + 1] == a[i + 1];
      } else if i > |a| {
        assert v[i] == b[i - k];
        assert i + 1 < |v| ==> v[i + 1] == b[i + 1 - k];
      }
    }
  }

  lemma {:induction false} ControlFreeJoined(p: Path)
    requires p != [] && forall i :: 0 <= i < |p| ==> ControlFree(p[i])
    ensures ControlFree(Joined(p))
  {
    hide ControlFree;
    if |p| > 1 {
      ControlFreeJoined(p[1..]);
      ControlFreeAround(p[0], Joined(p[1..]));
    }
  }

  lemma ValidHasNoControls(v: Bytes)
    requires ValidPath(v)
    ensures ControlFree(v)
  {
    JoinedOfSegments(v);
    hide Segments, Joined, ControlFree;
    forall i | 0 <= i < |Segments(v)| ensures ControlFree(Segments(v)[i]) {
      assert Segments(v)[i] in Segments(v);
    }
    ControlFreeJoined(Segments(v));
  }

  lemma {:induction false} PartsAreControlFree(v: Bytes)
    requires ControlFree(v)
    ensures forall s :: s in Segments(v) ==> ControlFree(s)
    decreases |v|
  {
    if SLASH in v {
      PartsAreControlFree(v[FirstSlash(v) + 1..]);
    }
  }

  lemma LeadingSlash(v: Bytes)
    requires v != [] && v[0] == SLASH
    ensures [] in Segments(v)
  {
    assert FirstSlash(v) == 0;
    assert Segments(v)[0] == [];
  }

  /**
    1 to 32768 bytes without NUL and backslash, which do not start with a slash,
    a tilde or a dollar sign, and no component of which is empty, `.` or `..` or
    holds a control character.
  */
  predicate Harmless(v: Bytes) {
    0 < |v| <= 32768 && 0x00 !in v && 0x5c !in v && v[0] != 0x2f && v[0] != 0x7e && v[0] != 0x24 &&
    (forall c :: c in Segments(v) ==> c != [] && c != [0x2e] && c != [0x2e, 0x2e]) &&
    (forall i :: 0 <= i < |v| ==> v[i] >= 0x20 && v[i] != 0x7f) &&
    (forall i :: 0 <= i < |v| - 1 ==> v[i] != 0xc2 || v[i + 1] < 0x80 || v[i + 1] >= 0xa0)
  }

  /** What the validation accepts, of texts in UTF-8. */
  lemma ValidExactly(v: Bytes)
    ensures ValidPath(v) <==> Harmless(v)
  {
    if ValidPath(v) {
      if v[0] == 0x2f { LeadingSlash(v); }
      ValidHasNoControls(v);
    }
    if Harmless(v) {
      PartsAreControlFree(v);
      hide Segments;
    }
  }

  /** A path is sent exactly if it is UTF-8 and harmless once each backslash is a slash. */
  lemma ToWireExactly(p: Path)
    requires p != []
    ensures var v := Joined(p);
      ToWire(p) == if IsUtf8(v) && Harmless(SlashForBackslash(v)) then Some(SlashForBackslash(v)) else None
  {
    ValidExactly(SlashForBackslash(Joined(p)));
  }

  // ---- what a path names --------------------------------------------------

  /** A name that stands for itself: not empty, not `.` and not `..`. */
  predicate Ordinary(s: Name) {
    s != [] && s != [0x2e] && s != [0x2e, 0x2e]
  }

  predicate AllOrdinary(p: Path) {
    forall i :: 0 <= i < |p| ==> Ordinary(p[i])
  }

  /** Where an absolute path leads: an empty name and `.` stay, `..` goes up, and stays at the top. */
  function Resolve(p: Path): Path {
    if p == [] then []
    else
      var front, last := Resolve(p[..|p| - 1]), p[|p| - 1];
      if last == [] || last == [0x2e] then front
      else if last == [0x2e, 0x2e] then (if front == [] then [] else front[..|front| - 1])
      else front + [last]
  }

  /** Ordinary names lead below where the path before them leads. */
  lemma {:induction false} ResolveBelow(p: Path, q: Path)
    requires AllOrdinary(q)
    ensures Resolve(p + q) == Resolve(p) + q
    decreases |q|
  {
    if q == [] {
      assert p + q == p;
    } else {
      var n := |q| - 1;
      assert (p + q)[..|p + q| - 1] == p + q[..n];
      ResolveBelow(p, q[..n]);
      assert q == q[..n] + [q[n]];
    }
  }

  lemma ValidIsOrdinary(v: Bytes)
    requires ValidPath(v)
    ensures AllOrdinary(Segments(v))
  {
    hide Segments;
    forall i | 0 <= i < |Segments(v)| ensures Ordinary(Segments(v)[i]) {
      assert Segments(v)[i] in Segments(v);
    }
  }

  // ---- staging names ------------------------------------------------------

  const PART_SUFFIX: Bytes := [0x2e, 0x71, 0x75, 0x69, 0x63, 0x2d, 0x70, 0x61, 0x72, 0x74]

  predicate CharBoundary(s: Bytes, i: nat)
    requires i <= |s|
  {
    i == |s| || !Continuation(s[i])
  }

  /** The largest character boundary not after `limit`, as the loop finds it. */
  function Boundary(s: Bytes, limit: nat): (i: nat)
    requires limit <= |s|
    ensures i <= limit
  {
    if limit == 0 || CharBoundary(s, limit) then limit else Boundary(s, limit - 1)
  }

  function Stem(name: Name): Bytes {
    if |name| <= 240 then name else name[..Boundary(name, 240)]
  }

  /** `.{stem}.quic-part` */
  function StagingName(name: Name): Name {
    [DOT] + Stem(name) + PART_SUFFIX
  }

  /** A name that the receiver may use for a file it has not finished. */
  predicate IsStagingName(name: Name) {
    |name| >= 11 && name[0] == DOT && name[|name| - 10..] == PART_SUFFIX
  }

  lemma StagingNameIsStaging(name: Name)
    ensures IsStagingName(StagingName(name))
    ensures IsPrefix(Stem(name), name) && |Stem(name)| <= 240 && (|name| <= 240 ==> Stem(name) == name)
    ensures BACKSLASH !in name ==> BACKSLASH !in StagingName(name)
  {
    var s := StagingName(name);
    assert s[|s| - 10..] == PART_SUFFIX;
  }
}
