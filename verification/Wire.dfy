/** Big-endian integers and the primitive reads of the directory stream. */
module Wire {
  import opened Common

  /** 256 to the power `k`: one more than the largest value of `k` bytes. */
  function Limit(k: nat): (r: nat)
    ensures r >= 1
  {
    if k == 0 then 1 else 256 * Limit(k - 1)
  }

  const U64_LIMIT: nat := 0x1_0000_0000_0000_0000

  /** The low `k` bytes of `v`, most significant first. */
  function BigEndian(v: nat, k: nat): (r: Bytes)
    ensures |r| == k
  {
    if k == 0 then [] else BigEndian(v / 256, k - 1) + [v % 256]
  }

  function FromBigEndian(b: Bytes): (r: nat)
    ensures r < Limit(|b|)
  {
    if b == [] then 0 else 256 * FromBigEndian(b[..|b| - 1]) + b[|b| - 1]
  }

  /** Decoding gives the value back, reduced to what `k` bytes can hold. */
  lemma {:induction false} BigEndianRoundTrip(v: nat, k: nat)
    ensures FromBigEndian(BigEndian(v, k)) == v % Limit(k)
    decreases k
  {
    if k > 0 {
      var b := BigEndian(v, k);
      BigEndianRoundTrip(v / 256, k - 1);
      assert b[..k - 1] == BigEndian(v / 256, k - 1);
      var l := Limit(k - 1);
      Digits(v, l);
    }
  }

  lemma Digits(v: nat, l: nat)
    requires l >= 1
    ensures v % (256 * l) == 256 * ((v / 256) % l) + v % 256
  {
    var q, r := v / 256, v % 256;
    var a, c := q / l, q % l;
    assert v == 256 * (a * l + c) + r;
    assert v == (256 * l) * a + (256 * c + r);
    assert 0 <= 256 * c + r < 256 * l;
    ModUnique(v, 256 * l, a, 256 * c + r);
  }

  lemma ModUnique(v: nat, m: nat, q: nat, r: nat)
    requires m > 0 && v == m * q + r && r < m
    ensures v % m == r
  {
    var d := v / m - q;
    assert v == m * (v / m) + v % m;
    assert m * d == r - v % m;
    assert -1 * m < m * d < m;
    assert d == 0;
  }

  lemma {:induction false} BigEndianOfDecoded(b: Bytes)
    ensures BigEndian(FromBigEndian(b), |b|) == b
  {
    if b != [] {
      var front, last := b[..|b| - 1], b[|b| - 1];
      BigEndianOfDecoded(front);
      DecodedParts(b);
      BigEndianParts(FromBigEndian(front), last, |front|);
      hide BigEndian, FromBigEndian;
      assert b == front + [last];
    }
  }

  lemma DecodedParts(b: Bytes)
    requires b != []
    ensures FromBigEndian(b) == 256 * FromBigEndian(b[..|b| - 1]) + b[|b| - 1]
  {
  }

  lemma BigEndianParts(high: nat, low: Byte, k: nat)
    ensures BigEndian(256 * high + low, k + 1) == BigEndian(high, k) + [low]
  {
  }

  lemma LimitOfEight()
    ensures Limit(8) == U64_LIMIT && Limit(4) == 0x1_0000_0000
  {
    assert Limit(1) == 256;
    assert Limit(2) == 0x1_0000;
    assert Limit(3) == 0x100_0000;
    assert Limit(4) == 0x1_0000_0000;
    assert Limit(5) == 0x100_0000_0000;
    assert Limit(6) == 0x1_0000_0000_0000;
    assert Limit(7) == 0x100_0000_0000_0000;
  }

  function U32(v: nat): Bytes {
    BigEndian(v, 4)
  }

  function U64(v: nat): Bytes {
    BigEndian(v, 8)
  }

  lemma U64RoundTrip(v: nat)
    ensures FromBigEndian(U64(v)) == v % U64_LIMIT
  {
    BigEndianRoundTrip(v, 8);
    LimitOfEight();
  }

  lemma U32RoundTrip(v: nat)
    requires v < 0x1_0000_0000
    ensures FromBigEndian(U32(v)) == v
  {
    BigEndianRoundTrip(v, 4);
    LimitOfEight();
  }

  /** Encoding what was decoded gives the bytes back. */
  lemma U64OfDecoded(b: Bytes)
    requires |b| == 8
    ensures U64(FromBigEndian(b)) == b
  {
    BigEndianOfDecoded(b);
  }

  lemma U32OfDecoded(b: Bytes)
    requires |b| == 4
    ensures U32(FromBigEndian(b)) == b
  {
    BigEndianOfDecoded(b);
  }

  /** The most significant byte comes first. */
  lemma {:induction false} BigEndianDigits(v: nat, k: nat, i: nat)
    requires i < k
    ensures BigEndian(v, k)[i] == v / Limit(k - 1 - i) % 256
    decreases k
  {
    if i < k - 1 {
      BigEndianDigits(v / 256, k - 1, i);
      DivideTwice(v, Limit(k - 2 - i));
    }
  }

  lemma DivideTwice(v: nat, m: nat)
    requires m >= 1
    ensures v / 256 / m == v / (256 * m)
  {
    var q, r := v / 256 / m, v / 256 % m;
    assert v / 256 == m * q + r;
    assert v == 256 * (m * q + r) + v % 256;
    QuotientUnique(v, 256 * m, q, 256 * r + v % 256);
  }

  lemma QuotientUnique(v: nat, m: nat, q: nat, r: nat)
    requires v == m * q + r && r < m
    ensures v / m == q
  {
    var d := q - v / m;
    assert m * d == m * q - m * (v / m);
    FarMultiples(m, d);
  }

  lemma FarMultiples(m: int, d: int)
    requires m >= 0
    ensures d >= 1 ==> m * d >= m
    ensures d <= -1 ==> m * d <= -m
  {
    if d >= 1 { assert m * d == m + m * (d - 1); }
    if d <= -1 { assert m * d == -m + m * (d + 1); }
  }
}
