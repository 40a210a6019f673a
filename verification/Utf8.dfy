/**
  UTF-8 as the Unicode standard defines it, from scalar values to bytes, and
  what the checks on bytes in `Paths` mean for the characters.
*/
module Utf8 {
  import opened Common
  import opened Paths

  type Scalar = nat

  predicate IsScalar(c: Scalar) {
    c < 0xd800 || 0xe000 <= c < 0x11_0000
  }

  /** The encoding forms of table 3-6 of the Unicode standard. */
  function EncodeScalar(c: Scalar): (b: Bytes)
    requires IsScalar(c)
    ensures 1 <= |b| <= 4
  {
    if c < 0x80 then [c]
    else if c < 0x800 then [0xc0 + c / 64, 0x80 + c % 64]
    else if c < 0x1_0000 then [0xe0 + c / 4096, 0x80 + c / 64 % 64, 0x80 + c % 64]
    else [0xf0 + c / 26_2144, 0x80 + c / 4096 % 64, 0x80 + c / 64 % 64, 0x80 + c % 64]
  }

  predicate AllScalars(text: seq<Scalar>) {
    forall i :: 0 <= i < |text| ==> IsScalar(text[i])
  }

  function EncodeText(text: seq<Scalar>): Bytes
    requires AllScalars(text)
  {
    if text == [] then [] else EncodeScalar(text[0]) + EncodeText(text[1..])
  }

  // ---- one character ------------------------------------------------------

  lemma ScalarIsChar(c: Scalar, x: Bytes)
    requires IsScalar(c)
    ensures CharLength(EncodeScalar(c) + x) == |EncodeScalar(c)|
  {
  }

  /** The scalar value that a well-formed character at the front of `s` encodes. */
  function FirstScalar(s: Bytes): Scalar
    requires s != [] && CharLength(s) > 0
  {
    if s[0] < 0x80 then s[0] as nat
    else if s[0] < 0xe0 then Two(s[0], s[1])
    else if s[0] < 0xf0 then Three(s[0], s[1], s[2])
    else Four(s[0], s[1], s[2], s[3])
  }

  function Two(a: nat, b: nat): nat
    requires a >= 0xc0 && b >= 0x80
  {
    (a - 0xc0) * 64 + (b - 0x80)
  }

  function Three(a: nat, b: nat, c: nat): nat
    requires a >= 0xe0 && b >= 0x80 && c >= 0x80
  {
    ((a - 0xe0) * 64 + (b - 0x80)) * 64 + (c - 0x80)
  }

  function Four(a: nat, b: nat, c: nat, d: nat): nat
    requires a >= 0xf0 && b >= 0x80 && c >= 0x80 && d >= 0x80
  {
    (((a - 0xf0) * 64 + (b - 0x80)) * 64 + (c - 0x80)) * 64 + (d - 0x80)
  }

  lemma CharIsScalar(s: Bytes)
    requires s != [] && CharLength(s) > 0
    ensures IsScalar(FirstScalar(s)) && EncodeScalar(FirstScalar(s)) == s[..CharLength(s)]
  {
    match CharLength(s)
    case 1 =>
    case 2 => TwoBytes(s[0], s[1]);
    case 3 => ThreeBytes(s[0], s[1], s[2]);
    case _ => FourBytes(s[0], s[1], s[2], s[3]);
  }

  lemma TwoBytes(a: Byte, b: Byte)
    requires 0xc2 <= a < 0xe0 && 0x80 <= b < 0xc0
    ensures 0x80 <= Two(a, b) < 0x800 && EncodeScalar(Two(a, b)) == [a, b]
  {
  }

  lemma Digits(high: nat, low: nat)
    requires low < 64
    ensures (high * 64 + low) / 64 == high && (high * 64 + low) % 64 == low
  {
  }

  lemma Shifts(v: nat)
    ensures v / 4096 == v / 64 / 64 && v / 26_2144 == v / 64 / 64 / 64
  {
  }

  lemma ThreeBytes(a: Byte, b: Byte, c: Byte)
    requires 0xe0 <= a < 0xf0 && 0x80 <= b < 0xc0 && 0x80 <= c < 0xc0
    requires (a == 0xe0 ==> b >= 0xa0) && (a == 0xed ==> b < 0xa0)
    ensures 0x800 <= Three(a, b, c) < 0x1_0000 && IsScalar(Three(a, b, c)) && EncodeScalar(Three(a, b, c)) == [a, b, c]
  {
    var v, high := Three(a, b, c), (a - 0xe0) * 64 + (b - 0x80);
    Digits(high, c - 0x80);
    Digits(a - 0xe0, b - 0x80);
    Shifts(v);
    assert v / 64 == high;
  }

  lemma FourBytes(a: Byte, b: Byte, c: Byte, d: Byte)
    requires 0xf0 <= a < 0xf5 && 0x80 <= b < 0xc0 && 0x80 <= c < 0xc0 && 0x80 <= d < 0xc0
    requires (a == 0xf0 ==> b >= 0x90) && (a == 0xf4 ==> b < 0x90)
    ensures 0x1_0000 <= Four(a, b, c, d) < 0x11_0000 && EncodeScalar(Four(a, b, c, d)) == [a, b, c, d]
  {
    var v, high := Four(a, b, c, d), (a - 0xf0) * 64 + (b - 0x80);
    var middle := high * 64 + (c - 0x80);
    Digits(middle, d - 0x80);
    Digits(high, c - 0x80);
    Digits(a - 0xf0, b - 0x80);
    Shifts(v);
    assert v == middle * 64 + (d - 0x80);
    assert v / 64 == middle && middle / 64 == high && high / 64 == a - 0xf0;
  }

  // ---- whole texts --------------------------------------------------------

  /** Every text of scalar values passes the check. */
  lemma {:induction false} EncodedIsUtf8(text: seq<Scalar>)
    requires AllScalars(text)
    ensures IsUtf8(EncodeText(text))
  {
    if text != [] {
      var rest := EncodeText(text[1..]);
      ScalarIsChar(text[0], rest);
      EncodedIsUtf8(text[1..]);
      assert (EncodeScalar(text[0]) + rest)[|EncodeScalar(text[0])|..] == rest;
    }
  }

  /** And nothing else does. */
  lemma {:induction false} Utf8IsEncoded(s: Bytes) returns (text: seq<Scalar>)
    requires IsUtf8(s)
    ensures AllScalars(text) && EncodeText(text) == s
    decreases |s|
  {
    hide *;
    if s == [] {
      text := [];
      EmptyText();
    } else {
      FirstCharacter(s);
      CharIsScalar(s);
      var n := CharLength(s);
      var rest := Utf8IsEncoded(s[n..]);
      text := [FirstScalar(s)] + rest;
      EncodeOneMore(FirstScalar(s), rest);
      assert s == s[..n] + s[n..];
    }
  }

  lemma EmptyText()
    ensures AllScalars([]) && EncodeText([]) == []
  {
  }

  lemma FirstCharacter(s: Bytes)
    requires s != [] && IsUtf8(s)
    ensures CharLength(s) > 0 && IsUtf8(s[CharLength(s)..])
  {
    hide CharLength;
  }

  lemma EncodeOneMore(c: Scalar, rest: seq<Scalar>)
    requires IsScalar(c) && AllScalars(rest)
    ensures AllScalars([c] + rest) && EncodeText([c] + rest) == EncodeScalar(c) + EncodeText(rest)
  {
    hide IsScalar, EncodeScalar;
    assert ([c] + rest)[1..] == rest;
  }

  // ---- control characters ---------------------------------------------------

  /** General category Cc: U+0000 to U+001F and U+007F to U+009F. */
  predicate IsControl(c: Scalar) {
    c <= 0x1f || 0x7f <= c <= 0x9f
  }

  lemma ScalarControl(c: Scalar)
    requires IsScalar(c)
    ensures ControlFree(EncodeScalar(c)) <==> !IsControl(c)
    ensures var b := EncodeScalar(c); b[|b| - 1] != 0xc2
  {
    var b := EncodeScalar(c);
    if 0x80 <= c < 0xc0 {
      assert c / 64 == 2 && c % 64 == c - 128;
      assert b[0] == 0xc2 && b[1] == c;
    } else if c >= 0xc0 {
      assert forall i :: 1 <= i < |b| ==> 0x80 <= b[i] < 0xc0;
      assert b[0] > 0xc2;
    }
  }

  lemma ControlSplits(a: Bytes, b: Bytes)
    requires a != [] && a[|a| - 1] != 0xc2
    ensures ControlFree(a + b) <==> ControlFree(a) && ControlFree(b)
  {
    var s := a + b;
    if ControlFree(a) && ControlFree(b) {
      forall i | 0 <= i < |s|
        ensures s[i] >= 0x20 && s[i] != 0x7f && !(s[i] == 0xc2 && i + 1 < |s| && 0x80 <= s[i + 1] < 0xa0)
      {
        if i < |a| {
          assert s[i] == a[i];
          if i + 1 < |a| { assert s[i + 1] == a[i + 1]; }
        } else {
          assert s[i] == b[i - |a|];
          if i + 1 < |s| { assert s[i + 1] == b[i + 1 - |a|]; }
        }
      }
    }
    if ControlFree(s) {
      forall i | 0 <= i < |a|
        ensures a[i] >= 0x20 && a[i] != 0x7f && !(a[i] == 0xc2 && i + 1 < |a| && 0x80 <= a[i + 1] < 0xa0)
      {
        assert s[i] == a[i];
        if i + 1 < |a| { assert s[i + 1] == a[i + 1]; }
      }
      forall i | 0 <= i < |b|
        ensures b[i] >= 0x20 && b[i] != 0x7f && !(b[i] == 0xc2 && i + 1 < |b| && 0x80 <= b[i + 1] < 0xa0)
      {
        assert s[|a| + i] == b[i];
        if i + 1 < |b| { assert s[|a| + i + 1] == b[i + 1]; }
      }
    }
  }

  /** The check on bytes refuses exactly the texts with a control character. */
  lemma {:induction false} ControlFreeText(text: seq<Scalar>)
    requires AllScalars(text)
    ensures ControlFree(EncodeText(text)) <==> forall i :: 0 <= i < |text| ==> !IsControl(text[i])
  {
    if text != [] {
      ControlFreeText(text[1..]);
      ScalarControl(text[0]);
      hide EncodeScalar, ControlFree, IsControl;
      ControlSplits(EncodeScalar(text[0]), EncodeText(text[1..]));
      assert text == [text[0]] + text[1..];
    }
  }

  // ---- the stem of a staging name ---------------------------------------------

  lemma {:induction false} EncodeAppend(a: seq<Scalar>, b: seq<Scalar>)
    requires AllScalars(a) && AllScalars(b)
    ensures EncodeText(a + b) == EncodeText(a) + EncodeText(b)
  {
    hide EncodeScalar;
    if a == [] {
      assert a + b == b;
    } else {
      assert (a + b)[0] == a[0] && (a + b)[1..] == a[1..] + b;
      EncodeAppend(a[1..], b);
    }
  }

  lemma StartsCharacter(c: Scalar)
    requires IsScalar(c)
    ensures var b := EncodeScalar(c);
      !Continuation(b[0]) && forall i :: 1 <= i < |b| ==> Continuation(b[i])
  {
  }

  /** Going back from inside a character ends at its first byte. */
  lemma {:induction false} BackToStart(name: Bytes, start: nat, limit: nat)
    requires start <= limit < |name| && !Continuation(name[start])
    requires forall i :: start < i <= limit ==> Continuation(name[i])
    ensures Boundary(name, limit) == start
    decreases limit
  {
    if limit > start {
      BackToStart(name, start, limit - 1);
    }
  }

  /** The stem is the name up to its last whole character within 240 bytes. */
  lemma StemIsWhole(text: seq<Scalar>) returns (k: nat)
    requires AllScalars(text)
    ensures k <= |text| && Stem(EncodeText(text)) == EncodeText(text[..k]) && |EncodeText(text[..k])| <= 240
    ensures k < |text| ==> |EncodeText(text[..k + 1])| > 240
  {
    hide EncodeScalar, IsScalar;
    var name := EncodeText(text);
    assert text[..|text|] == text && text[..0] == [];
    k := 0;
    while k < |text| && |EncodeText(text[..k + 1])| <= 240
      invariant k <= |text| && |EncodeText(text[..k])| <= 240
    {
      k := k + 1;
    }
    if k < |text| {
      CutAt(text, k);
      var start := |EncodeText(text[..k])|;
      StartsCharacter(text[k]);
      var c := EncodeScalar(text[k]);
      assert forall i :: 0 <= i < |c| ==> name[start + i] == c[i];
      forall i | start < i <= 240 ensures Continuation(name[i]) {
        assert name[start + (i - start)] == c[i - start];
      }
      BackToStart(name, start, 240);
      assert name[..start] == EncodeText(text[..k]);
    }
  }

  lemma OneScalar(c: Scalar)
    requires IsScalar(c)
    ensures EncodeText([c]) == EncodeScalar(c)
  {
    hide EncodeScalar;
    assert [c][1..] == [];
  }

  lemma {:induction false} CutAt(text: seq<Scalar>, k: nat)
    requires AllScalars(text) && k < |text|
    ensures EncodeText(text) == EncodeText(text[..k]) + EncodeScalar(text[k]) + EncodeText(text[k + 1..])
    ensures EncodeText(text[..k + 1]) == EncodeText(text[..k]) + EncodeScalar(text[k])
  {
    var a, one, b := text[..k], [text[k]], text[k + 1..];
    assert AllScalars(a) && AllScalars(one) && AllScalars(b) && AllScalars(a + one);
    OneScalar(text[k]);
    EncodeAppend(a, one);
    EncodeAppend(a + one, b);
    hide EncodeScalar, EncodeText, AllScalars;
    assert text[..k + 1] == a + one;
    assert text == a + one + b;
  }
}
