/** `__BindgenBitfieldUnit` on a little-endian machine: fields of up to 64 bits in an array of bytes. */
module BitField {
  import opened Common
  import opened Wire

  // ---- single bits --------------------------------------------------------------

  function Mask(index: nat): bv8 {
    (1 as bv8) << (index % 8)
  }

  predicate ExtractBit(byte: bv8, index: nat) {
    byte & Mask(index) == Mask(index)
  }

  function ChangeBit(byte: bv8, index: nat, val: bool): bv8 {
    if val then byte | Mask(index) else byte & !Mask(index)
  }

  /** The eight one-bit masks. */
  lemma MaskIsOneBit(index: nat)
    ensures index % 8 == 0 ==> Mask(index) == 0x01
    ensures index % 8 == 1 ==> Mask(index) == 0x02
    ensures index % 8 == 2 ==> Mask(index) == 0x04
    ensures index % 8 == 3 ==> Mask(index) == 0x08
    ensures index % 8 == 4 ==> Mask(index) == 0x10
    ensures index % 8 == 5 ==> Mask(index) == 0x20
    ensures index % 8 == 6 ==> Mask(index) == 0x40
    ensures index % 8 == 7 ==> Mask(index) == 0x80
  {
  }

  lemma ChangedBit(byte: bv8, i: nat, val: bool, j: nat)
    ensures ExtractBit(ChangeBit(byte, i, val), j) == if i % 8 == j % 8 then val else ExtractBit(byte, j)
  {
    MaskIsOneBit(i);
    MaskIsOneBit(j);
    var m, n := Mask(i), Mask(j);
    hide Mask;
    OneBitMasks(byte, m, n);
  }

  predicate OneBit(m: bv8) {
    m == 0x01 || m == 0x02 || m == 0x04 || m == 0x08 || m == 0x10 || m == 0x20 || m == 0x40 || m == 0x80
  }

  lemma OneBitMasks(byte: bv8, m: bv8, n: bv8)
    requires OneBit(m) && OneBit(n)
    ensures (byte | m) & m == m && (byte & !m) & m != m
    ensures m != n ==> ((byte | m) & n == n <==> byte & n == n) && ((byte & !m) & n == n <==> byte & n == n)
  {
  }

  // ---- 64-bit values as their bits --------------------------------------------

  /** `v & (1 << i) == 1 << i` */
  predicate Bit(v: nat, i: nat) {
    if i == 0 then v % 2 == 1 else Bit(v / 2, i - 1)
  }

  /** `v | 1 << i` */
  function WithBit(v: nat, i: nat): nat {
    if Bit(v, i) then v else v + Power(i)
  }

  lemma {:induction false} BitsOfSum(v: nat, i: nat, j: nat)
    requires v < Power(i)
    ensures !Bit(v, i) && v + Power(i) < Power(i + 1)
    ensures j <= i ==> (Bit(v + Power(i), j) <==> j == i || Bit(v, j))
    decreases i
  {
    if i > 0 {
      assert Power(i) == 2 * Power(i - 1);
      assert (v + Power(i)) / 2 == v / 2 + Power(i - 1);
      BitsOfSum(v / 2, i - 1, if j > 0 then j - 1 else 0);
    }
  }

  /** Reducing modulo a power of two keeps the low bits. */
  lemma {:induction false} BitsOfMod(v: nat, w: nat, i: nat)
    requires i < w
    ensures Bit(v % Power(w), i) == Bit(v, i)
    decreases w
  {
    HalfOfMod(v, w);
    if i > 0 {
      BitsOfMod(v / 2, w - 1, i - 1);
    }
  }

  lemma HalfOfMod(v: nat, w: nat)
    requires w > 0
    ensures (v % Power(w)) / 2 == (v / 2) % Power(w - 1) && (v % Power(w)) % 2 == v % 2
  {
    var p := Power(w - 1);
    var q, r := (v / 2) / p, (v / 2) % p;
    assert v == 2 * (q * p + r) + v % 2;
    assert v == (2 * p) * q + (2 * r + v % 2);
    ModUnique(v, 2 * p, q, 2 * r + v % 2);
  }

  /** Numbers below a power of two are equal when their bits are. */
  lemma {:induction false} SameBits(a: nat, b: nat, w: nat)
    requires a < Power(w) && b < Power(w)
    requires forall i :: 0 <= i < w ==> Bit(a, i) == Bit(b, i)
    ensures a == b
  {
    if w > 0 {
      forall i | 0 <= i < w - 1 ensures Bit(a / 2, i) == Bit(b / 2, i) {
        assert Bit(a, i + 1) == Bit(b, i + 1);
      }
      SameBits(a / 2, b / 2, w - 1);
      assert Bit(a, 0) == Bit(b, 0);
    }
  }

  /** Setting a bit sets that bit and no other, whatever was there. */
  lemma {:induction false} BitsOfWithBit(v: nat, i: nat, j: nat)
    ensures Bit(WithBit(v, i), j) <==> j == i || Bit(v, j)
    decreases i
  {
    if !Bit(v, i) {
      if i > 0 {
        assert (v + Power(i)) / 2 == v / 2 + Power(i - 1) && (v + Power(i)) % 2 == v % 2;
        if j > 0 { BitsOfWithBit(v / 2, i - 1, j - 1); }
      } else {
        assert v % 2 == 0 && (v + 1) / 2 == v / 2;
      }
    }
  }

  // ---- the storage --------------------------------------------------------------

  predicate BitAt(s: seq<bv8>, k: nat)
    requires k < 8 * |s|
  {
    ExtractBit(s[k / 8], k)
  }

  function WithBitAt(s: seq<bv8>, k: nat, val: bool): (r: seq<bv8>)
    requires k < 8 * |s|
    ensures |r| == |s|
  {
    s[k / 8 := ChangeBit(s[k / 8], k, val)]
  }

  const BITS: seq<bv8> := [0x01, 0x02, 0x04, 0x08, 0x10, 0x20, 0x40, 0x80]

  /** The bit with number 8 i + j is the bit of weight 2^j in byte i. */
  lemma BitPositions(s: seq<bv8>, i: nat, j: nat)
    requires i < |s| && j < 8
    ensures BitAt(s, 8 * i + j) <==> s[i] & BITS[j] != 0
  {
    assert (8 * i + j) / 8 == i && (8 * i + j) % 8 == j;
    MaskIsOneBit(8 * i + j);
    hide Mask;
    OneBitRead(s[i], BITS[j]);
  }

  lemma OneBitRead(byte: bv8, m: bv8)
    requires OneBit(m)
    ensures (byte & m == m) == (byte & m != 0)
  {
  }

  lemma BitAfterChange(s: seq<bv8>, k: nat, val: bool, j: nat)
    requires k < 8 * |s| && j < 8 * |s|
    ensures BitAt(WithBitAt(s, k, val), j) == if j == k then val else BitAt(s, j)
  {
    if j / 8 == k / 8 {
      ChangedBit(s[k / 8], k, val, j);
    }
  }

  /** The value of the field of `width` bits at `offset`. */
  function Get(s: seq<bv8>, offset: nat, width: nat): (v: nat)
    requires offset + width <= 8 * |s|
    ensures v < Power(width)
  {
    if width == 0 then 0
    else
      var low := Get(s, offset, width - 1);
      BitsOfSum(low, width - 1, 0);
      if BitAt(s, offset + width - 1) then WithBit(low, width - 1) else low
  }

  function Set(s: seq<bv8>, offset: nat, width: nat, val: nat): (r: seq<bv8>)
    requires offset + width <= 8 * |s|
    ensures |r| == |s|
  {
    if width == 0 then s
    else WithBitAt(Set(s, offset, width - 1, val), offset + width - 1, Bit(val, width - 1))
  }

  class BitfieldUnit {
    const storage: array<bv8>

    constructor (length: nat)
      ensures fresh(storage) && storage.Length == length && storage[..] == seq(length, _ => 0)
    {
      storage := new bv8[length](_ => 0);
    }

    predicate Within(offset: nat, width: nat) {
      width <= 64 && offset + width <= 8 * storage.Length
    }

    method GetBit(index: nat) returns (b: bool)
      requires index < 8 * storage.Length
      ensures b == BitAt(storage[..], index)
    {
      b := ExtractBit(storage[index / 8], index);
    }

    method SetBit(index: nat, val: bool)
      requires index < 8 * storage.Length
      modifies storage
      ensures storage[..] == WithBitAt(old(storage[..]), index, val)
    {
      storage[index / 8] := ChangeBit(storage[index / 8], index, val);
    }

    /** The field as an integer, assembled bit by bit. */
    method GetField(offset: nat, width: nat) returns (val: nat)
      requires Within(offset, width)
      ensures val == Get(storage[..], offset, width)
      ensures val < Power(width) && forall i :: 0 <= i < width ==> Bit(val, i) == BitAt(storage[..], offset + i)
    {
      hide BitAt, Bit, ExtractBit, WithBit, Power;
      val := 0;
      for i := 0 to width
        invariant val == Get(storage[..], offset, i)
      {
        var bit := GetBit(i + offset);
        if bit {
          val := WithBit(val, i);
        }
      }
      BitsOfGet(storage[..], offset, width);
    }

    /** Writes the low bits of `val` into the field; every other bit stays. */
    method SetField(offset: nat, width: nat, val: nat)
      requires Within(offset, width)
      modifies storage
      ensures storage[..] == Set(old(storage[..]), offset, width, val)
      ensures forall k :: 0 <= k < 8 * storage.Length ==>
        BitAt(storage[..], k) == if offset <= k < offset + width then Bit(val, k - offset)
        else BitAt(old(storage[..]), k)
    {
      hide BitAt, Bit, ExtractBit, WithBitAt;
      for i := 0 to width
        invariant storage[..] == Set(old(storage[..]), offset, i, val)
      {
        SetBit(i + offset, Bit(val, i));
      }
      BitsOfSet(old(storage[..]), offset, width, val);
    }

    /** The `new_bitfield_1` constructors: one `set` after another, on storage that is zero. */
    method SetFields(fields: seq<Field>)
      requires forall i :: 0 <= i < |fields| ==>
        fields[i].width <= 64 && fields[i].offset + fields[i].width <= 8 * storage.Length
      modifies storage
      ensures storage[..] == SetAll(old(storage[..]), fields)
    {
      assert fields[..0] == [];
      for i := 0 to |fields|
        invariant storage[..] == SetAll(old(storage[..]), fields[..i])
      {
        assert fields[..i + 1][..i] == fields[..i];
        SetField(fields[i].offset, fields[i].width, fields[i].val);
      }
      assert fields[..|fields|] == fields;
    }
  }

  // ---- what reading and writing promise ---------------------------------------

  lemma {:induction false} BitsOfGet(s: seq<bv8>, offset: nat, width: nat)
    requires offset + width <= 8 * |s|
    ensures forall i :: 0 <= i < width ==> Bit(Get(s, offset, width), i) == BitAt(s, offset + i)
  {
    if width > 0 {
      var low := Get(s, offset, width - 1);
      BitsOfGet(s, offset, width - 1);
      forall i | 0 <= i < width ensures Bit(Get(s, offset, width), i) == BitAt(s, offset + i) {
        BitsOfSum(low, width - 1, i);
      }
    }
  }

  lemma {:induction false} BitsOfSet(s: seq<bv8>, offset: nat, width: nat, val: nat)
    requires offset + width <= 8 * |s|
    ensures forall k :: 0 <= k < 8 * |s| ==>
      BitAt(Set(s, offset, width, val), k) == if offset <= k < offset + width then Bit(val, k - offset) else BitAt(s, k)
  {
    if width > 0 {
      BitsOfSet(s, offset, width - 1, val);
      var before := Set(s, offset, width - 1, val);
      forall k | 0 <= k < 8 * |s|
        ensures BitAt(Set(s, offset, width, val), k) == if offset <= k < offset + width then Bit(val, k - offset)
          else BitAt(s, k)
      {
        BitAfterChange(before, offset + width - 1, Bit(val, width - 1), k);
      }
    }
  }

  /** Reading a field back gives the value written, modulo 2^width. */
  lemma GetAfterSet(s: seq<bv8>, offset: nat, width: nat, val: nat)
    requires offset + width <= 8 * |s|
    ensures Get(Set(s, offset, width, val), offset, width) == val % Power(width)
  {
    var r := Set(s, offset, width, val);
    BitsOfSet(s, offset, width, val);
    BitsOfGet(r, offset, width);
    forall i | 0 <= i < width ensures Bit(Get(r, offset, width), i) == Bit(val % Power(width), i) {
      BitsOfMod(val, width, i);
      assert BitAt(r, offset + i) == Bit(val, offset + i - offset);
    }
    SameBits(Get(r, offset, width), val % Power(width), width);
  }

  predicate Apart(offset: nat, width: nat, offset': nat, width': nat) {
    offset + width <= offset' || offset' + width' <= offset
  }

  /** Writing one field leaves every field that does not overlap it. */
  lemma OtherFieldStays(s: seq<bv8>, offset: nat, width: nat, val: nat, offset': nat, width': nat)
    requires offset + width <= 8 * |s| && offset' + width' <= 8 * |s| && Apart(offset, width, offset', width')
    ensures Get(Set(s, offset, width, val), offset', width') == Get(s, offset', width')
  {
    hide BitAt, Bit, Get, Set, Power;
    var r := Set(s, offset, width, val);
    BitsOfSet(s, offset, width, val);
    BitsOfGet(r, offset', width');
    BitsOfGet(s, offset', width');
    forall i | 0 <= i < width' ensures Bit(Get(r, offset', width'), i) == Bit(Get(s, offset', width'), i) {
      assert BitAt(r, offset' + i) == BitAt(s, offset' + i);
    }
    SameBits(Get(r, offset', width'), Get(s, offset', width'), width');
  }

  datatype Field = Field(offset: nat, width: nat, val: nat)

  function SetAll(s: seq<bv8>, fields: seq<Field>): (r: seq<bv8>)
    requires forall i :: 0 <= i < |fields| ==> fields[i].offset + fields[i].width <= 8 * |s|
    ensures |r| == |s|
  {
    if fields == [] then s
    else
      var n := |fields| - 1;
      Set(SetAll(s, fields[..n]), fields[n].offset, fields[n].width, fields[n].val)
  }

  predicate Disjoint(fields: seq<Field>) {
    forall i, j :: 0 <= i < j < |fields| ==> Apart(fields[i].offset, fields[i].width, fields[j].offset, fields[j].width)
  }

  /** A chain of writes to disjoint fields gives every argument back. */
  lemma {:induction false} ChainGivesBack(s: seq<bv8>, fields: seq<Field>, i: nat)
    requires forall k :: 0 <= k < |fields| ==> fields[k].offset + fields[k].width <= 8 * |s|
    requires Disjoint(fields) && i < |fields|
    ensures Get(SetAll(s, fields), fields[i].offset, fields[i].width) == fields[i].val % Power(fields[i].width)
    decreases |fields|
  {
    var n := |fields| - 1;
    var before := SetAll(s, fields[..n]);
    if i == n {
      GetAfterSet(before, fields[n].offset, fields[n].width, fields[n].val);
    } else {
      ChainGivesBack(s, fields[..n], i);
      assert Apart(fields[i].offset, fields[i].width, fields[n].offset, fields[n].width);
      OtherFieldStays(before, fields[n].offset, fields[n].width, fields[n].val, fields[i].offset, fields[i].width);
    }
  }

  /** Fields that follow one another, as in the generated constructors. */
  predicate Consecutive(fields: seq<Field>) {
    forall i :: 0 <= i < |fields| - 1 ==> fields[i + 1].offset == fields[i].offset + fields[i].width
  }

  lemma {:induction false} LaterFields(fields: seq<Field>, i: nat, j: nat)
    requires Consecutive(fields) && i < j < |fields|
    ensures fields[i].offset + fields[i].width <= fields[j].offset
    decreases j
  {
    if i < j - 1 {
      LaterFields(fields, i, j - 1);
      assert fields[j - 1 + 1].offset == fields[j - 1].offset + fields[j - 1].width;
    }
  }

  /** Such a constructor gives every argument back, of any number of fields. */
  lemma ConstructorGivesBack(s: seq<bv8>, fields: seq<Field>, i: nat)
    requires forall k :: 0 <= k < |fields| ==> fields[k].offset + fields[k].width <= 8 * |s|
    requires Consecutive(fields) && i < |fields|
    ensures Get(SetAll(s, fields), fields[i].offset, fields[i].width) == fields[i].val % Power(fields[i].width)
  {
    hide Get, SetAll, Power;
    forall k, l | 0 <= k < l < |fields|
      ensures Apart(fields[k].offset, fields[k].width, fields[l].offset, fields[l].width)
    {
      LaterFields(fields, k, l);
    }
    ChainGivesBack(s, fields, i);
  }
}
