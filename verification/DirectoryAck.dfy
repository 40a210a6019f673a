/** The acknowledgement that the receiver of a directory writes back. */
module DirectoryAck {
  import opened Common
  import opened Wire
  import R = DirectoryReceiver

  const ACK_OK: Byte := 0x21
  const ACK_ERROR: Byte := 0x22

  const MAX_ACK_ERROR_BYTES: nat := 4 * 1024

  datatype Answer = Received(files: nat, bytes: nat) | Refused(message: Bytes) | Oversized | Invalid | Cut

  /** `message` is the text of the error as bytes. */
  function WriteAck(r: Result<R.Stats, Bytes>): Bytes {
    match r
    case Ok(stats) => [ACK_OK] + U64(stats.files) + U64(stats.bytes)
    case Err(message) =>
      var kept := message[..Min(|message|, MAX_ACK_ERROR_BYTES)];
      [ACK_ERROR] + U32(|kept|) + kept
  }

  function ReadAck(b: Bytes): Answer {
    if b == [] then Cut
    else if b[0] == ACK_OK then
      if |b| < 17 then Cut else Received(FromBigEndian(b[1..9]), FromBigEndian(b[9..17]))
    else if b[0] == ACK_ERROR then
      if |b| < 5 then Cut
      else
        var length := FromBigEndian(b[1..5]);
        if length > MAX_ACK_ERROR_BYTES then Oversized
        else if |b| < 5 + length then Cut
        else Refused(b[5..5 + length])
    else Invalid
  }

  /**
    Every acknowledgement is understood: success with the two counts, failure
    with the message up to its bound, never as oversized or cut short.
  */
  lemma AckRoundTrip(r: Result<R.Stats, Bytes>, x: Bytes)
    ensures ReadAck(WriteAck(r) + x) ==
      match r
      case Ok(stats) => Received(stats.files % U64_LIMIT, stats.bytes % U64_LIMIT)
      case Err(message) => Refused(if |message| <= MAX_ACK_ERROR_BYTES then message else message[..MAX_ACK_ERROR_BYTES])
  {
    var b := WriteAck(r) + x;
    match r
    case Ok(stats) =>
      assert b[1..9] == U64(stats.files) && b[9..17] == U64(stats.bytes);
      U64RoundTrip(stats.files);
      U64RoundTrip(stats.bytes);
    case Err(message) =>
      var kept := message[..Min(|message|, MAX_ACK_ERROR_BYTES)];
      assert b[1..5] == U32(|kept|) && b[5..5 + |kept|] == kept;
      U32RoundTrip(|kept|);
  }

  /**
    What an answer says of the bytes read: success and failure are exactly what
    the receiver writes, an oversized message is one that announces more than
    4096 bytes, and anything that starts otherwise is invalid.
  */
  lemma AckMeans(b: Bytes)
    ensures match ReadAck(b)
      case Received(files, bytes) => |b| >= 17 && b[..17] == [0x21] + U64(files) + U64(bytes)
      case Refused(message) =>
        |message| <= 4096 && |b| >= 5 + |message| && b[..5 + |message|] == [0x22] + U32(|message|) + message
      case Oversized => |b| >= 5 && b[0] == 0x22 && FromBigEndian(b[1..5]) > 4096
      case Invalid => b != [] && b[0] != 0x21 && b[0] != 0x22
      case Cut =>
        b == [] || (b[0] == 0x21 && |b| < 17) ||
        (b[0] == 0x22 && (|b| < 5 || |b| - 5 < FromBigEndian(b[1..5]) <= 4096))
  {
    hide U64, U32, FromBigEndian;
    match ReadAck(b)
    case Received(_, _) =>
      U64OfDecoded(b[1..9]);
      U64OfDecoded(b[9..17]);
      assert b[..17] == [b[0]] + b[1..9] + b[9..17];
    case Refused(message) =>
      U32OfDecoded(b[1..5]);
      assert b[..5 + |message|] == [b[0]] + b[1..5] + message;
    case _ =>
  }
}
