/**
  The STUN Binding exchange: the client's walk over the attributes of a
  response, the reply that the server builds, and the attribute encoding of
  sections 14 and 14.2 of RFC 8489.
*/
module Stun {
  import opened Common
  import opened Wire

  const BINDING_REQUEST: nat := 0x0001
  const BINDING_SUCCESS: nat := 0x0101
  const XOR_MAPPED_ADDRESS: nat := 0x0020

  const COOKIE: Bytes := [0x21, 0x12, 0xa4, 0x42]
  const COOKIE_HIGH: nat := 0x2112

  const V4: Byte := 0x01
  const V6: Byte := 0x02

  type TransactionId = t: Bytes | |t| == 12 witness seq(12, _ => 0)

  /** An address is 4 or 16 bytes. */
  datatype SocketAddress = SocketAddress(address: Bytes, port: nat)

  datatype Failure = InvalidResponse | OtherTransaction | TruncatedResponse | TruncatedAttribute | NoAddress

  // ---- exclusive or -----------------------------------------------------------

  /** Bitwise exclusive or. */
  function Xor(a: nat, b: nat): nat {
    if a == 0 && b == 0 then 0 else 2 * Xor(a / 2, b / 2) + (a + b) % 2
  }

  lemma {:induction false} XorTwice(a: nat, b: nat)
    ensures Xor(Xor(a, b), b) == a
  {
    XorHalf(a, b);
    XorHalf(Xor(a, b), b);
    if a != 0 || b != 0 {
      hide Xor;
      XorTwice(a / 2, b / 2);
      Parity(a, b, Xor(a, b), Xor(Xor(a, b), b));
    }
  }

  lemma Parity(a: nat, b: nat, x: nat, y: nat)
    requires x % 2 == (a + b) % 2 && y % 2 == (x + b) % 2 && y / 2 == a / 2
    ensures y == a
  {
  }

  lemma XorHalf(a: nat, b: nat)
    ensures Xor(a, b) / 2 == Xor(a / 2, b / 2) && Xor(a, b) % 2 == (a + b) % 2
  {
  }

  lemma {:induction false} XorBelow(a: nat, b: nat, k: nat)
    requires a < Power(k) && b < Power(k)
    ensures Xor(a, b) < Power(k)
  {
    if k > 0 {
      XorBelow(a / 2, b / 2, k - 1);
    }
  }

  lemma Powers()
    ensures Power(8) == 256 && Power(16) == 0x1_0000
  {
    assert Power(4) == 16;
    assert Power(12) == 4096;
  }

  function XorByte(a: Byte, b: Byte): Byte {
    Powers();
    XorBelow(a, b, 8);
    Xor(a, b)
  }

  function XorBytes(a: Bytes, mask: Bytes): (r: Bytes)
    requires |a| <= |mask|
    ensures |r| == |a| && forall i :: 0 <= i < |a| ==> r[i] == XorByte(a[i], mask[i])
  {
    seq(|a|, i requires 0 <= i < |a| => XorByte(a[i], mask[i]))
  }

  lemma XorBytesTwice(a: Bytes, mask: Bytes)
    requires |a| <= |mask|
    ensures XorBytes(XorBytes(a, mask), mask) == a
  {
    var r := XorBytes(XorBytes(a, mask), mask);
    forall i | 0 <= i < |a| ensures r[i] == a[i] {
      XorTwice(a[i], mask[i]);
    }
  }

  // ---- attributes ---------------------------------------------------------------

  /** `padding` fills the value up to a multiple of four bytes, with any bytes. */
  datatype Attribute = Attribute(kind: nat, value: Bytes, padding: Bytes)

  function PaddingLength(length: nat): nat {
    (4 - length % 4) % 4
  }

  predicate WellFormed(a: Attribute) {
    a.kind < 0x1_0000 && |a.value| < 0x1_0000 && |a.padding| == PaddingLength(|a.value|)
  }

  function U16(v: nat): Bytes {
    BigEndian(v, 2)
  }

  function AttributeBytes(a: Attribute): Bytes {
    U16(a.kind) + U16(|a.value|) + a.value + a.padding
  }

  function AllBytes(attributes: seq<Attribute>): Bytes {
    if attributes == [] then [] else AttributeBytes(attributes[0]) + AllBytes(attributes[1..])
  }

  /** The address that an attribute carries, if it is an XOR-MAPPED-ADDRESS of a known family and long enough. */
  function Address(a: Attribute, tx: TransactionId): Option<SocketAddress> {
    if a.kind != XOR_MAPPED_ADDRESS || |a.value| < 8 then None
    else
      var port := Xor(FromBigEndian(a.value[2..4]), COOKIE_HIGH);
      if a.value[1] == V4 then Some(SocketAddress(XorBytes(a.value[4..8], COOKIE), port))
      else if a.value[1] == V6 && |a.value| >= 20 then Some(SocketAddress(XorBytes(a.value[4..20], COOKIE + tx), port))
      else None
  }

  /** The first usable address of a list. */
  function FirstAddress(attributes: seq<Attribute>, tx: TransactionId): Result<SocketAddress, Failure> {
    if attributes == [] then Err(NoAddress)
    else
      var here := Address(attributes[0], tx);
      if here.Some? then Ok(here.value) else FirstAddress(attributes[1..], tx)
  }

  function Message(kind: nat, length: nat, tx: TransactionId, body: Bytes): Bytes {
    U16(kind) + U16(length) + COOKIE + tx + body
  }

  function Response(attributes: seq<Attribute>, tx: TransactionId): Bytes {
    Message(BINDING_SUCCESS, |AllBytes(attributes)|, tx, AllBytes(attributes))
  }

  // ---- the walk -------------------------------------------------------------------

  /** The attribute at `offset`, with the padding that is really there, if its value lies inside the message. */
  function AttributeAt(message: Bytes, offset: nat): (a: Option<Attribute>)
    requires offset + 4 <= |message|
    ensures a.Some? ==> offset + 4 + |a.value.value| <= |message|
  {
    var length := FromBigEndian(message[offset + 2..offset + 4]);
    var end := offset + 4 + length;
    if end > |message| then None
    else
      Some(Attribute(FromBigEndian(message[offset..offset + 2]), message[offset + 4..end],
                     message[end..Min(end + PaddingLength(length), |message|)]))
  }

  function NextOffset(offset: nat, length: nat): nat {
    offset + 4 + length + PaddingLength(length)
  }

  /** `limit` is where the declared length ends. */
  function Walk(message: Bytes, tx: TransactionId, limit: nat, offset: nat): Result<SocketAddress, Failure>
    requires limit <= |message|
    decreases |message| - offset
  {
    if offset + 4 > limit then Err(NoAddress)
    else
      match AttributeAt(message, offset)
      case None => Err(TruncatedAttribute)
      case Some(a) =>
        var here := Address(a, tx);
        if here.Some? then Ok(here.value) else Walk(message, tx, limit, NextOffset(offset, |a.value|))
  }

  function Parse(message: Bytes, tx: TransactionId): Result<SocketAddress, Failure> {
    if |message| < 20 || FromBigEndian(message[..2]) != BINDING_SUCCESS then Err(InvalidResponse)
    else if message[4..8] != COOKIE || message[8..20] != tx then Err(OtherTransaction)
    else
      var declared := FromBigEndian(message[2..4]);
      if |message| < 20 + declared then Err(TruncatedResponse) else Walk(message, tx, 20 + declared, 20)
  }

  /** The 16 bytes of an IPv6 address, unmasked one by one. */
  method UnmaskV6(message: Bytes, start: nat, tx: TransactionId) returns (r: Bytes)
    requires start + 16 <= |message|
    ensures r == XorBytes(message[start..start + 16], COOKIE + tx)
  {
    var bytes := new Byte[16];
    for index := 0 to 16
      invariant forall i :: 0 <= i < index ==> bytes[i] == XorByte(message[start + i], (COOKIE + tx)[i])
    {
      var mask := if index < 4 then COOKIE[index] else tx[index - 4];
      bytes[index] := XorByte(message[start + index], mask);
    }
    r := bytes[..];
  }

  lemma Slice(message: Bytes, start: nat, length: nat, i: nat, j: nat)
    requires start + length <= |message| && i <= j <= length
    ensures message[start..start + length][i..j] == message[start + i..start + j]
  {
    var a, b := message[start..start + length][i..j], message[start + i..start + j];
    assert |a| == |b|;
    forall k | 0 <= k < |a| ensures a[k] == b[k] {
      assert a[k] == message[start..start + length][i + k];
    }
  }

  /** What the loop makes of one attribute whose value lies inside the message. */
  method AddressAt(message: Bytes, kind: nat, start: nat, length: nat, tx: TransactionId)
    returns (r: Option<SocketAddress>)
    requires start + length <= |message|
    ensures r == Address(Attribute(kind, message[start..start + length], []), tx)
  {
    hide Xor, XorBytes, FromBigEndian;
    if kind != XOR_MAPPED_ADDRESS || length < 8 {
      return None;
    }
    var family := message[start + 1];
    Slice(message, start, length, 2, 4);
    Slice(message, start, length, 4, 8);
    var port := Xor(FromBigEndian(message[start + 2..start + 4]), COOKIE_HIGH);
    if family == V4 {
      return Some(SocketAddress(XorBytes(message[start + 4..start + 8], COOKIE), port));
    } else if family == V6 && length >= 20 {
      Slice(message, start, length, 4, 20);
      var address := UnmaskV6(message, start + 4, tx);
      return Some(SocketAddress(address, port));
    }
    return None;
  }

  lemma PaddingIsIgnored(a: Attribute, tx: TransactionId)
    ensures Address(a, tx) == Address(a.(padding := []), tx)
  {
  }

  lemma WalkTurn(message: Bytes, tx: TransactionId, limit: nat, offset: nat)
    requires limit <= |message| && offset + 4 <= limit
    ensures var length := FromBigEndian(message[offset + 2..offset + 4]);
      var start := offset + 4;
      Walk(message, tx, limit, offset) ==
        if start + length > |message| then Err(TruncatedAttribute)
        else
          var here := Address(Attribute(FromBigEndian(message[offset..offset + 2]), message[start..start + length], []),
                              tx);
          if here.Some? then Ok(here.value) else Walk(message, tx, limit, start + length + (4 - length % 4) % 4)
  {
    hide Address, FromBigEndian;
    var a := AttributeAt(message, offset);
    if a.Some? { PaddingIsIgnored(a.value, tx); }
  }

  /** `parse_binding_response` */
  method ParseBindingResponse(message: Bytes, tx: TransactionId) returns (r: Result<SocketAddress, Failure>)
    ensures r == Parse(message, tx)
  {
    hide Walk, Address, FromBigEndian;
    if |message| < 20 || FromBigEndian(message[..2]) != BINDING_SUCCESS {
      return Err(InvalidResponse);
    }
    if message[4..8] != COOKIE || message[8..20] != tx {
      return Err(OtherTransaction);
    }
    var declared := FromBigEndian(message[2..4]);
    if |message| < 20 + declared {
      return Err(TruncatedResponse);
    }
    var offset := 20;
    while offset + 4 <= 20 + declared
      invariant Walk(message, tx, 20 + declared, offset) == Parse(message, tx)
      decreases |message| - offset
    {
      WalkTurn(message, tx, 20 + declared, offset);
      var kind := FromBigEndian(message[offset..offset + 2]);
      var length := FromBigEndian(message[offset + 2..offset + 4]);
      var start := offset + 4;
      var end := start + length;
      if end > |message| {
        return Err(TruncatedAttribute);
      }
      var address := AddressAt(message, kind, start, length, tx);
      if address.Some? {
        return Ok(address.value);
      }
      offset := end + (4 - length % 4) % 4;
    }
    WalkEnd(message, tx, 20 + declared, offset);
    return Err(NoAddress);
  }

  lemma WalkEnd(message: Bytes, tx: TransactionId, limit: nat, offset: nat)
    requires limit <= |message| && offset + 4 > limit
    ensures Walk(message, tx, limit, offset) == Err(NoAddress)
  {
  }

  /** Every turn of the walk moves on by at least four bytes. */
  lemma WalkMoves(offset: nat, length: nat)
    ensures NextOffset(offset, length) >= offset + 4 && (NextOffset(offset, length) - offset) % 4 == 0
  {
  }

  // ---- the walk finds the first usable address --------------------------------------

  lemma U16RoundTrip(v: nat)
    requires v < 0x1_0000
    ensures FromBigEndian(U16(v)) == v && |U16(v)| == 2
  {
    BigEndianRoundTrip(v, 2);
    assert Limit(1) == 256;
    assert Limit(2) == 0x1_0000;
  }

  /** Reading back the attribute that stands at an offset. */
  lemma AttributeReads(before: Bytes, a: Attribute, after: Bytes)
    requires WellFormed(a)
    ensures var message := before + AttributeBytes(a) + after;
      |before| + 4 <= |message| && AttributeAt(message, |before|) == Some(a) &&
      NextOffset(|before|, |a.value|) == |before + AttributeBytes(a)|
  {
    var message := before + AttributeBytes(a) + after;
    var o, end := |before|, |before| + 4 + |a.value|;
    U16RoundTrip(a.kind);
    U16RoundTrip(|a.value|);
    assert message[o..o + 2] == U16(a.kind);
    assert message[o + 2..o + 4] == U16(|a.value|);
    assert message[o + 4..end] == a.value;
    assert message[end..end + |a.padding|] == a.padding;
  }

  lemma SplitFirst(before: Bytes, attributes: seq<Attribute>, after: Bytes)
    requires attributes != []
    ensures var first, rest := AttributeBytes(attributes[0]), AllBytes(attributes[1..]);
      before + AllBytes(attributes) == (before + first) + rest &&
      before + AllBytes(attributes) + after == (before + first) + rest + after == before + first + (rest + after)
  {
    Regroup(before, AttributeBytes(attributes[0]), AllBytes(attributes[1..]), after);
  }

  lemma Regroup(a: Bytes, b: Bytes, c: Bytes, d: Bytes)
    ensures a + (b + c) == (a + b) + c && a + (b + c) + d == (a + b) + c + d == a + b + (c + d)
  {
  }

  /** Attributes in front of the walk are seen one after another, whatever follows the declared length. */
  lemma {:induction false} WalkReadsList(before: Bytes, attributes: seq<Attribute>, after: Bytes, tx: TransactionId)
    requires forall i :: 0 <= i < |attributes| ==> WellFormed(attributes[i])
    ensures var limit := |before + AllBytes(attributes)|;
      Walk(before + AllBytes(attributes) + after, tx, limit, |before|) == FirstAddress(attributes, tx)
    decreases |attributes|
  {
    if attributes == [] {
      WalkEnd(before + [] + after, tx, |before|, |before|);
    } else {
      var a, rest := attributes[0], attributes[1..];
      AttributeReads(before, a, AllBytes(rest) + after);
      WalkReadsList(before + AttributeBytes(a), rest, after, tx);
      SplitFirst(before, attributes, after);
      hide AttributeAt, Address, AttributeBytes, WellFormed, NextOffset;
      assert |AttributeBytes(a)| >= 4 by { FourBytes(a); }
    }
  }

  lemma FourBytes(a: Attribute)
    ensures |AttributeBytes(a)| >= 4
  {
    assert |U16(a.kind)| == |U16(|a.value|)| == 2;
  }

  lemma HeaderReads(kind: nat, length: nat, tx: TransactionId, body: Bytes)
    requires kind < 0x1_0000 && length < 0x1_0000
    ensures var m := Message(kind, length, tx, body);
      |m| == 20 + |body| && FromBigEndian(m[..2]) == kind && FromBigEndian(m[2..4]) == length &&
      m[4..8] == COOKIE && m[8..20] == tx && m[20..] == body
  {
    U16RoundTrip(kind);
    U16RoundTrip(length);
    var m := Message(kind, length, tx, body);
    assert m[..2] == U16(kind) && m[2..4] == U16(length);
  }

  /** Any list of attributes, with any bytes behind it, parses to the first usable address of the list. */
  lemma ParseFindsFirst(attributes: seq<Attribute>, tx: TransactionId, after: Bytes)
    requires forall i :: 0 <= i < |attributes| ==> WellFormed(attributes[i])
    requires |AllBytes(attributes)| < 0x1_0000
    ensures Parse(Response(attributes, tx) + after, tx) == FirstAddress(attributes, tx)
  {
    var body := AllBytes(attributes);
    var m := Response(attributes, tx) + after;
    hide Walk, FirstAddress, AllBytes, FromBigEndian, U16;
    assert m == Message(BINDING_SUCCESS, |body|, tx, body + after);
    HeaderReads(BINDING_SUCCESS, |body|, tx, body + after);
    assert m == m[..20] + body + after;
    WalkReadsList(m[..20], attributes, after, tx);
  }

  /** The same for a response that the walk accepts although nobody built it from a list. */
  lemma {:induction false} WalkFindsFirst(message: Bytes, tx: TransactionId, limit: nat, offset: nat)
    returns (others: seq<Attribute>, a: Attribute)
    requires limit <= |message| && offset <= |message| && Walk(message, tx, limit, offset).Ok?
    ensures forall i :: 0 <= i < |others| ==> WellFormed(others[i]) && Address(others[i], tx) == None
    ensures Address(a, tx) == Some(Walk(message, tx, limit, offset).value)
    ensures var at := offset + |AllBytes(others)|;
      at + 4 <= limit && message[offset..at] == AllBytes(others) && AttributeAt(message, at) == Some(a)
    decreases |message| - offset
  {
    hide Address, AttributeAt, AttributeBytes, WellFormed, PaddingLength;
    assert AttributeAt(message, offset).Some?;
    var first := AttributeAt(message, offset).value;
    if Address(first, tx).Some? {
      others, a := [], first;
    } else {
      var next := NextOffset(offset, |first.value|);
      others, a := WalkFindsFirst(message, tx, limit, next);
      AttributeIsThere(message, offset, next);
      assert ([first] + others)[1..] == others;
      var at := next + |AllBytes(others)|;
      assert message[offset..at] == message[offset..next] + message[next..at];
      others := [first] + others;
    }
  }

  lemma TwoBytes(b: Bytes)
    requires |b| == 2
    ensures FromBigEndian(b) < 0x1_0000 && U16(FromBigEndian(b)) == b
  {
    assert Limit(1) == 256;
    assert Limit(2) == 0x1_0000;
    BigEndianOfDecoded(b);
  }

  lemma AttributeIsThere(message: Bytes, offset: nat, next: nat)
    requires offset + 4 <= |message| && AttributeAt(message, offset).Some?
    requires next == NextOffset(offset, |AttributeAt(message, offset).value.value|) <= |message|
    ensures WellFormed(AttributeAt(message, offset).value)
    ensures message[offset..next] == AttributeBytes(AttributeAt(message, offset).value)
  {
    hide FromBigEndian, BigEndian;
    var a := AttributeAt(message, offset).value;
    TwoBytes(message[offset..offset + 2]);
    TwoBytes(message[offset + 2..offset + 4]);
    var end := offset + 4 + |a.value|;
    assert message[offset..next] ==
      message[offset..offset + 2] + message[offset + 2..offset + 4] + message[offset + 4..end] + message[end..next];
  }

  /**
    For every message: an accepted one is a binding success response with the
    magic cookie and the client's own transaction, as long as it declares, and
    holds, after attributes that carry no usable address, one that carries the
    address returned.
  */
  lemma ParsedIsFirst(message: Bytes, tx: TransactionId) returns (others: seq<Attribute>, a: Attribute)
    requires Parse(message, tx).Ok?
    ensures |message| >= 20 && message[..2] == [0x01, 0x01] && message[4..8] == [0x21, 0x12, 0xa4, 0x42]
    ensures message[8..20] == tx && |message| >= 20 + 256 * (message[2] as nat) + message[3] as nat
    ensures forall i :: 0 <= i < |others| ==> WellFormed(others[i]) && !Usable(others[i])
    ensures Usable(a) && Address(a, tx) == Some(Parse(message, tx).value)
    ensures var at := 20 + |AllBytes(others)|;
      at + 4 <= 20 + FromBigEndian(message[2..4]) && message[20..at] == AllBytes(others) &&
      AttributeAt(message, at) == Some(a)
  {
    HeaderOfParsed(message, tx);
    others, a := WalkFindsFirst(message, tx, 20 + FromBigEndian(message[2..4]), 20);
    UsableExactly(a, tx);
    forall i | 0 <= i < |others| ensures !Usable(others[i]) { UsableExactly(others[i], tx); }
  }

  /** Type 0x0020, family 1 with 8 bytes or more, or family 2 with 20 bytes or more. */
  predicate Usable(a: Attribute) {
    a.kind == 0x0020 && ((|a.value| >= 8 && a.value[1] == 1) || (|a.value| >= 20 && a.value[1] == 2))
  }

  lemma UsableExactly(a: Attribute, tx: TransactionId)
    ensures Address(a, tx).Some? <==> Usable(a)
  {
    hide Xor, XorBytes, FromBigEndian;
  }

  lemma HeaderOfParsed(message: Bytes, tx: TransactionId)
    requires Parse(message, tx).Ok?
    ensures |message| >= 20 && message[..2] == [0x01, 0x01] && message[4..8] == [0x21, 0x12, 0xa4, 0x42]
    ensures message[8..20] == tx && |message| >= 20 + 256 * (message[2] as nat) + message[3] as nat
  {
    hide Walk;
    TwoDigits(message[..2]);
    TwoDigits(message[2..4]);
  }

  lemma TwoDigits(b: Bytes)
    requires |b| == 2
    ensures FromBigEndian(b) == 256 * (b[0] as nat) + b[1] as nat
  {
    assert b[..1][..0] == [];
  }

  /** A reply to another transaction is refused, whatever it says. */
  lemma OtherTransactionIsRefused(attributes: seq<Attribute>, other: TransactionId, tx: TransactionId, after: Bytes)
    requires other != tx && |AllBytes(attributes)| < 0x1_0000
    ensures Parse(Response(attributes, other) + after, tx) == Err(OtherTransaction)
  {
    var body := AllBytes(attributes);
    hide Walk, AllBytes, FromBigEndian, U16;
    assert Response(attributes, other) + after == Message(BINDING_SUCCESS, |body|, other, body + after);
    HeaderReads(BINDING_SUCCESS, |body|, other, body + after);
  }

  // ---- encoding and decoding an address --------------------------------------------

  predicate ValidAddress(s: SocketAddress) {
    (|s.address| == 4 || |s.address| == 16) && s.port < 0x1_0000
  }

  /** The attribute of section 14.2 of RFC 8489. */
  function MappedAddress(s: SocketAddress, tx: TransactionId): Attribute
    requires ValidAddress(s)
  {
    var family := if |s.address| == 4 then V4 else V6;
    var mask := if |s.address| == 4 then COOKIE else COOKIE + tx;
    Attribute(XOR_MAPPED_ADDRESS, [0, family] + U16(Xor(s.port, COOKIE_HIGH)) + XorBytes(s.address, mask), [])
  }

  lemma MappedParts(family: Byte, port: nat, address: Bytes)
    requires |address| == 4 || |address| == 16
    ensures var value := [0, family] + U16(port) + address;
      |value| == 4 + |address| && value[1] == family && value[2..4] == U16(port) &&
      (|address| == 4 ==> value[4..8] == address) && (|address| == 16 ==> value[4..20] == address)
  {
    assert |U16(port)| == 2;
    hide U16;
    var value := [0, family] + U16(port) + address;
    assert value[2..4] == U16(port) && value[4..] == address;
    assert value[4..4 + |address|] == value[4..];
  }

  lemma AddressOfMapped(s: SocketAddress, tx: TransactionId)
    requires ValidAddress(s)
    ensures WellFormed(MappedAddress(s, tx)) && Address(MappedAddress(s, tx), tx) == Some(s)
  {
    hide Xor, XorBytes, U16, FromBigEndian;
    var v4 := |s.address| == 4;
    var mask := if v4 then COOKIE else COOKIE + tx;
    var port, address := Xor(s.port, COOKIE_HIGH), XorBytes(s.address, mask);
    var a := MappedAddress(s, tx);
    MappedParts(if v4 then V4 else V6, port, address);
    assert a.value == [0, if v4 then V4 else V6] + U16(port) + address;
    Unmasks(s, mask);
    if v4 {
      assert Address(a, tx) ==
        Some(SocketAddress(XorBytes(a.value[4..8], COOKIE), Xor(FromBigEndian(a.value[2..4]), COOKIE_HIGH)));
    } else {
      assert Address(a, tx) ==
        Some(SocketAddress(XorBytes(a.value[4..20], COOKIE + tx), Xor(FromBigEndian(a.value[2..4]), COOKIE_HIGH)));
    }
  }

  /**
    The attribute byte by byte: type 0x0020, the length, a zero byte, the family
    (1 or 2), the port masked with the upper half of the cookie, and the address
    masked with the cookie and, for IPv6, the transaction.
  */
  lemma MappedLayout(s: SocketAddress, tx: TransactionId)
    requires ValidAddress(s)
    ensures var b := AttributeBytes(MappedAddress(s, tx));
      var cookie: Bytes := [0x21, 0x12, 0xa4, 0x42];
      |b| == 8 + |s.address| &&
      b[..6] == (if |s.address| == 4 then [0x00, 0x20, 0x00, 0x08, 0x00, 0x01]
                 else [0x00, 0x20, 0x00, 0x14, 0x00, 0x02]) &&
      FromBigEndian(b[6..8]) == Xor(s.port, 0x2112) &&
      b[8..] == XorBytes(s.address, if |s.address| == 4 then cookie else cookie + tx)
  {
    Powers();
    XorBelow(s.port, COOKIE_HIGH, 16);
    var mask: Bytes := if |s.address| == 4 then COOKIE else COOKIE + tx;
    var port, address := Xor(s.port, COOKIE_HIGH), XorBytes(s.address, mask);
    U16RoundTrip(port);
    TwoOf(0x20);
    TwoOf(4 + |address|);
    hide Xor, XorBytes, U16, FromBigEndian;
    LayoutParts(if |s.address| == 4 then V4 else V6, U16(port), address);
  }

  lemma LayoutParts(family: Byte, port: Bytes, address: Bytes)
    requires |port| == 2 && |address| < 250
    requires U16(0x20) == [0, 0x20] && U16(4 + |address|) == [0, (4 + |address|) as Byte]
    ensures var b := AttributeBytes(Attribute(XOR_MAPPED_ADDRESS, [0, family] + port + address, []));
      |b| == 8 + |address| && b[..6] == [0, 0x20, 0, (4 + |address|) as Byte, 0, family] && b[6..8] == port &&
      b[8..] == address
  {
    hide U16;
    var value := [0, family] + port + address;
    assert |value| == 4 + |address|;
    var b := AttributeBytes(Attribute(XOR_MAPPED_ADDRESS, value, []));
    assert b == [0, 0x20, 0, (4 + |address|) as Byte, 0, family] + port + address;
  }

  lemma TwoOf(v: nat)
    requires v < 256
    ensures U16(v) == [0, v as Byte]
  {
    assert BigEndian(v, 2) == BigEndian(v / 256, 1) + [(v % 256) as Byte];
    assert BigEndian(0, 1) == BigEndian(0, 0) + [0];
  }

  /** A response of transaction 7, 7, ... that names port 12 of 0.0.0.1. */
  lemma SampleIsParsed()
    ensures var tx: TransactionId := seq(12, _ => 7);
      Parse([0x01, 0x01, 0x00, 0x0c, 0x21, 0x12, 0xa4, 0x42] + tx +
            [0x00, 0x20, 0x00, 0x08, 0x00, 0x01, 0x21, 0x1e, 0x21, 0x12, 0xa4, 0x43], tx) ==
      Ok(SocketAddress([0, 0, 0, 1], 12))
  {
    var tx: TransactionId := seq(12, _ => 7);
    var body: Bytes := [0x00, 0x20, 0x00, 0x08, 0x00, 0x01, 0x21, 0x1e, 0x21, 0x12, 0xa4, 0x43];
    var a := Attribute(0x20, body[4..], []);
    TwoOf(0x20);
    TwoOf(8);
    TwoOf(12);
    SampleAddress(tx);
    assert U16(BINDING_SUCCESS) == [0x01, 0x01] by {
      TwoDigits([0x01, 0x01]);
      TwoBytes([0x01, 0x01]);
    }
    hide Address, FromBigEndian, Parse, U16;
    assert AttributeBytes(a) == body;
    assert AllBytes([a]) == body by { assert AllBytes([a]) == AttributeBytes(a) + AllBytes([]); }
    assert Response([a], tx) + [] == [0x01, 0x01, 0x00, 0x0c, 0x21, 0x12, 0xa4, 0x42] + tx + body;
    ParseFindsFirst([a], tx, []);
  }

  lemma SampleAddress(tx: TransactionId)
    ensures Address(Attribute(0x20, [0x00, 0x01, 0x21, 0x1e, 0x21, 0x12, 0xa4, 0x43], []), tx) ==
      Some(SocketAddress([0, 0, 0, 1], 12))
  {
    var value: Bytes := [0x00, 0x01, 0x21, 0x1e, 0x21, 0x12, 0xa4, 0x43];
    AddressOfV4(value, tx);
    SampleMasks();
    SampleBytes();
    hide FromBigEndian, Xor, XorBytes, Address;
    SampleSlices();
    TwoDigits([0x21, 0x1e]);
  }

  lemma AddressOfV4(value: Bytes, tx: TransactionId)
    requires |value| >= 8 && value[1] == 1
    ensures Address(Attribute(0x20, value, []), tx) ==
      Some(SocketAddress(XorBytes(value[4..8], COOKIE), Xor(FromBigEndian(value[2..4]), 0x2112)))
  {
    hide FromBigEndian, Xor, XorBytes;
  }

  lemma SampleSlices()
    ensures var value: Bytes := [0x00, 0x01, 0x21, 0x1e, 0x21, 0x12, 0xa4, 0x43];
      value[2..4] == [0x21, 0x1e] && value[4..8] == [0x21, 0x12, 0xa4, 0x43]
  {
  }

  lemma SampleBytes()
    ensures XorBytes([0x21, 0x12, 0xa4, 0x43], COOKIE) == [0, 0, 0, 1]
  {
    SampleMasks();
    hide Xor;
    var r := XorBytes([0x21, 0x12, 0xa4, 0x43], COOKIE);
    assert r[0] == 0 && r[1] == 0 && r[2] == 0 && r[3] == 1;
  }

  lemma SampleMasks()
    ensures Xor(0x211e, 0x2112) == 12
    ensures Xor(0x21, 0x21) == 0 && Xor(0x12, 0x12) == 0 && Xor(0xa4, 0xa4) == 0 && Xor(0x43, 0x42) == 1
  {
    XorSelf(0x21);
    XorSelf(0x12);
    XorSelf(0xa4);
    XorSelf(0x211);
    assert Xor(0x211e, 0x2112) == 2 * (2 * (2 * (2 * Xor(0x211, 0x211) + 1) + 1) + 0) + 0;
    assert Xor(0x43, 0x42) == 2 * Xor(0x21, 0x21) + 1;
  }

  lemma {:induction false} XorSelf(a: nat)
    ensures Xor(a, a) == 0
  {
    if a != 0 {
      XorSelf(a / 2);
    }
  }

  lemma Unmasks(s: SocketAddress, mask: Bytes)
    requires ValidAddress(s) && |mask| >= |s.address|
    ensures Xor(FromBigEndian(U16(Xor(s.port, COOKIE_HIGH))), COOKIE_HIGH) == s.port
    ensures XorBytes(XorBytes(s.address, mask), mask) == s.address
  {
    Powers();
    XorBelow(s.port, COOKIE_HIGH, 16);
    U16RoundTrip(Xor(s.port, COOKIE_HIGH));
    XorTwice(s.port, COOKIE_HIGH);
    XorBytesTwice(s.address, mask);
  }

  lemma {:induction false} FirstAfterOthers(others: seq<Attribute>, a: Attribute, rest: seq<Attribute>,
                                            tx: TransactionId)
    requires forall i :: 0 <= i < |others| ==> Address(others[i], tx) == None
    requires Address(a, tx).Some?
    ensures FirstAddress(others + [a] + rest, tx) == Ok(Address(a, tx).value)
    decreases |others|
  {
    if others == [] {
      assert (others + [a] + rest)[0] == a;
    } else {
      assert (others + [a] + rest)[0] == others[0];
      assert (others + [a] + rest)[1..] == others[1..] + [a] + rest;
      FirstAfterOthers(others[1..], a, rest, tx);
    }
  }

  /** Every address and port, IPv4 and IPv6, comes back from a response with any unusable attributes before it. */
  lemma AddressRoundTrip(s: SocketAddress, tx: TransactionId, others: seq<Attribute>, rest: seq<Attribute>,
                         after: Bytes)
    requires ValidAddress(s)
    requires forall i :: 0 <= i < |others| ==> WellFormed(others[i]) && Address(others[i], tx) == None
    requires forall i :: 0 <= i < |rest| ==> WellFormed(rest[i])
    requires |AllBytes(others + [MappedAddress(s, tx)] + rest)| < 0x1_0000
    ensures Parse(Response(others + [MappedAddress(s, tx)] + rest, tx) + after, tx) == Ok(s)
  {
    AddressOfMapped(s, tx);
    FirstAfterOthers(others, MappedAddress(s, tx), rest, tx);
    ParseFindsFirst(others + [MappedAddress(s, tx)] + rest, tx, after);
  }

  // ---- the server ---------------------------------------------------------------------

  function Request(tx: TransactionId): Bytes {
    Message(BINDING_REQUEST, 0, tx, [])
  }

  /** What the server sends back to where a datagram came from, if anything. It answers over IPv4 only. */
  function ServerReply(data: Bytes, from: SocketAddress): Option<Bytes>
    requires ValidAddress(from)
  {
    if |data| < 20 then None
    else if FromBigEndian(data[..2]) != BINDING_REQUEST || data[4..8] != COOKIE then None
    else if |from.address| != 4 then None
    else
      var value := [0, V4] + U16(Xor(from.port, COOKIE_HIGH)) + XorBytes(from.address, COOKIE);
      var attribute := U16(XOR_MAPPED_ADDRESS) + U16(|value|) + value;
      Some(Message(BINDING_SUCCESS, |attribute|, data[8..20], attribute))
  }

  /** The client learns exactly the IPv4 address and port that the server saw. */
  lemma ClientInvertsServer(tx: TransactionId, from: SocketAddress)
    requires ValidAddress(from) && |from.address| == 4
    ensures var reply := ServerReply(Request(tx), from); reply.Some? && Parse(reply.value, tx) == Ok(from)
  {
    HeaderReads(BINDING_REQUEST, 0, tx, []);
    var a := MappedAddress(from, tx);
    var reply := ServerReply(Request(tx), from);
    hide Xor, XorBytes, Parse, FromBigEndian;
    assert |a.value| == 8 by { assert |U16(Xor(from.port, COOKIE_HIGH))| == 2; }
    assert AllBytes([a]) == AttributeBytes(a) + AllBytes([]);
    assert AllBytes([a]) == U16(XOR_MAPPED_ADDRESS) + U16(|a.value|) + a.value;
    assert [] + [a] + [] == [a];
    assert reply.value == Response([a], tx) + [];
    AddressRoundTrip(from, tx, [], [], []);
  }

  /**
    The server answers exactly binding requests of at least 20 bytes with the
    magic cookie that come over IPv4, with the transaction it was asked with and
    a response that holds nothing but the address.
  */
  lemma ServerAnswers(data: Bytes, from: SocketAddress)
    requires ValidAddress(from)
    ensures ServerReply(data, from).Some? <==>
      |data| >= 20 && data[..2] == [0x00, 0x01] && data[4..8] == [0x21, 0x12, 0xa4, 0x42] && |from.address| == 4
    ensures ServerReply(data, from).Some? ==>
      ServerReply(data, from).value == Response([MappedAddress(from, data[8..20])], data[8..20])
  {
    if |data| >= 20 {
      TwoDigits(data[..2]);
    }
    hide Xor, XorBytes, FromBigEndian;
    if ServerReply(data, from).Some? {
      var a := MappedAddress(from, data[8..20]);
      assert |a.value| == 8 by { assert |U16(Xor(from.port, COOKIE_HIGH))| == 2; }
      assert AllBytes([a]) == AttributeBytes(a) + AllBytes([]);
      assert AllBytes([a]) == U16(XOR_MAPPED_ADDRESS) + U16(|a.value|) + a.value;
    }
  }
}
