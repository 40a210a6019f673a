/**
  The text of control messages and their frames. JSON text is an assumed codec
  that reads back what it writes.
*/
module ControlCodec {
  import opened Common
  import opened ControlMessages
  import opened Paths
  import opened Wire

  // ---- decimal numbers ------------------------------------------------------------

  predicate IsDigit(c: char) {
    '0' <= c <= '9'
  }

  function Digit(d: nat): (c: char)
    requires d < 10
    ensures IsDigit(c)
  {
    '0' + d as char
  }

  function DigitValue(c: char): nat
    requires IsDigit(c)
  {
    (c - '0') as nat
  }

  /** `to_string` of an unsigned integer. */
  function Decimal(v: nat): (s: string)
    ensures s != [] && forall i :: 0 <= i < |s| ==> IsDigit(s[i])
  {
    if v < 10 then [Digit(v)] else Decimal(v / 10) + [Digit(v % 10)]
  }

  predicate AllDigits(s: string) {
    forall i :: 0 <= i < |s| ==> IsDigit(s[i])
  }

  function DecimalValue(s: string): nat
    requires AllDigits(s)
  {
    if s == [] then 0 else 10 * DecimalValue(s[..|s| - 1]) + DigitValue(s[|s| - 1])
  }

  /** `parse::<u64>`: digits, possibly after one plus sign, of a value that fits. */
  function ParseU64(s: string): Option<nat> {
    var digits := if s != [] && s[0] == '+' then s[1..] else s;
    if digits == [] || !AllDigits(digits) then None
    else if DecimalValue(digits) >= U64_LIMIT then None
    else Some(DecimalValue(digits))
  }

  lemma {:induction false} ValueOfDecimal(v: nat)
    ensures DecimalValue(Decimal(v)) == v
  {
    if v >= 10 {
      ValueOfDecimal(v / 10);
      var s := Decimal(v);
      assert s[..|s| - 1] == Decimal(v / 10);
    }
  }

  /** A number comes back exactly when it fits 64 bits. */
  lemma DecimalRoundTrip(v: nat)
    ensures ParseU64(Decimal(v)) == Some(v) <==> v < U64_LIMIT
  {
    ValueOfDecimal(v);
    assert IsDigit(Decimal(v)[0]);
  }

  /** What is accepted as a number: at least one decimal digit, possibly after a single plus, of a value below 2^64. */
  lemma ParsedNumber(s: string)
    ensures var digits := if s != [] && s[0] == '+' then s[1..] else s;
      ParseU64(s).Some? <==>
      digits != [] && AllDigits(digits) && DecimalValue(digits) < 0x1_0000_0000_0000_0000
    ensures ParseU64(s).Some? ==> ParseU64(s).value == DecimalValue(if s[0] == '+' then s[1..] else s)
  {
  }

  /** A plus in front changes nothing, and neither nothing nor a lone plus is a number. */
  lemma PlusIsAllowed(v: nat)
    ensures ParseU64("+" + Decimal(v)) == ParseU64(Decimal(v))
    ensures ParseU64("") == None && ParseU64("+") == None && ParseU64("++" + Decimal(v)) == None
  {
    assert ("+" + Decimal(v))[1..] == Decimal(v);
    assert ("++" + Decimal(v))[1..] == "+" + Decimal(v);
    assert ("+" + Decimal(v))[0] == '+';
    assert IsDigit(Decimal(v)[0]);
  }

  // ---- message text ---------------------------------------------------------------

  datatype MetadataPayload = MetadataPayload(fileName: string, fileSize: string, resume: bool, checksum: bool)

  datatype ResumeReadyPayload = ResumeReadyPayload(offset: string, prefixHash: Option<string>)

  /** The JSON library, for the two payload types. */
  datatype Json = Json(
    metadataText: MetadataPayload -> string,
    metadataOf: string -> Option<MetadataPayload>,
    resumeText: ResumeReadyPayload -> string,
    resumeOf: string -> Option<ResumeReadyPayload>)

  ghost predicate ReadsBack(json: Json) {
    (forall p :: json.metadataOf(json.metadataText(p)) == Some(p)) &&
    (forall p :: json.resumeOf(json.resumeText(p)) == Some(p))
  }

  const METADATA_PREFIX: string := "METADATA:"
  const RESUME_READY_PREFIX: string := "RESUME_READY:"
  const FILE_SENT_PREFIX: string := "FILE_SENT:"

  function Serialize(json: Json, m: ControlMessage): string {
    match m
    case Metadata(fileName, fileSize, resume, checksum) =>
      METADATA_PREFIX + json.metadataText(MetadataPayload(fileName, Decimal(fileSize), resume, checksum))
    case Ready => "READY"
    case ResumeReady(offset, prefixHash) =>
      RESUME_READY_PREFIX + json.resumeText(ResumeReadyPayload(Decimal(offset), prefixHash))
    case ResumeOk => "RESUME_OK"
    case RestartFromZero => "RESTART_FROM_ZERO"
    case Pause => "PAUSE"
    case Resume => "RESUME"
    case RejectedUnwanted => "REJECTED:UNWANTED"
    case RejectedAlreadyReceiving => "REJECTED:ALREADY_RECEIVING"
    case RejectedAlreadySending => "REJECTED:ALREADY_SENDING"
    case FileSent(hash) => FILE_SENT_PREFIX + hash
    case ReceivedFileOk => "RECEIVED_FILE:OK"
    case ReceivedFileFailed => "RECEIVED_FILE:FAILED"
  }

  /** The messages without a payload. */
  function ParseWord(s: string): Option<ControlMessage> {
    if s == "READY" then Some(Ready)
    else if s == "RESUME_OK" then Some(ResumeOk)
    else if s == "RESTART_FROM_ZERO" then Some(RestartFromZero)
    else if s == "PAUSE" then Some(Pause)
    else if s == "RESUME" then Some(Resume)
    else if s == "REJECTED:UNWANTED" then Some(RejectedUnwanted)
    else if s == "REJECTED:ALREADY_RECEIVING" then Some(RejectedAlreadyReceiving)
    else if s == "REJECTED:ALREADY_SENDING" then Some(RejectedAlreadySending)
    else if s == "RECEIVED_FILE:OK" then Some(ReceivedFileOk)
    else if s == "RECEIVED_FILE:FAILED" then Some(ReceivedFileFailed)
    else None
  }

  function ParseMetadata(json: Json, text: string): Option<ControlMessage> {
    match json.metadataOf(text)
    case None => None
    case Some(p) =>
      match ParseU64(p.fileSize)
      case None => None
      case Some(size) => Some(Metadata(p.fileName, size, p.resume, p.checksum))
  }

  function ParseResumeReady(json: Json, text: string): Option<ControlMessage> {
    match json.resumeOf(text)
    case None => None
    case Some(p) =>
      match ParseU64(p.offset)
      case None => None
      case Some(offset) => Some(ResumeReady(offset, p.prefixHash))
  }

  function Parse(json: Json, s: string): Option<ControlMessage> {
    if ParseWord(s).Some? then ParseWord(s)
    else if IsPrefix(METADATA_PREFIX, s) then ParseMetadata(json, s[|METADATA_PREFIX|..])
    else if IsPrefix(RESUME_READY_PREFIX, s) then ParseResumeReady(json, s[|RESUME_READY_PREFIX|..])
    else if IsPrefix(FILE_SENT_PREFIX, s) then Some(FileSent(s[|FILE_SENT_PREFIX|..]))
    else None
  }

  /** The numbers of a message are 64-bit. */
  predicate Fits(m: ControlMessage) {
    (m.Metadata? ==> m.fileSize < U64_LIMIT) && (m.ResumeReady? ==> m.offset < U64_LIMIT)
  }

  lemma MetadataText(text: string)
    ensures var s := METADATA_PREFIX + text;
      ParseWord(s) == None && IsPrefix(METADATA_PREFIX, s) && s[|METADATA_PREFIX|..] == text
  {
    assert (METADATA_PREFIX + text)[0] == 'M';
  }

  lemma ResumeReadyText(text: string)
    ensures var s := RESUME_READY_PREFIX + text;
      ParseWord(s) == None && !IsPrefix(METADATA_PREFIX, s) && IsPrefix(RESUME_READY_PREFIX, s) &&
      s[|RESUME_READY_PREFIX|..] == text
  {
    var s := RESUME_READY_PREFIX + text;
    assert s[0] == 'R' && s[2] == 'S' && s[6] == '_' && s[7] == 'R';
    assert METADATA_PREFIX[0] == 'M';
  }

  lemma FileSentText(text: string)
    ensures var s := FILE_SENT_PREFIX + text;
      ParseWord(s) == None && !IsPrefix(METADATA_PREFIX, s) && !IsPrefix(RESUME_READY_PREFIX, s) &&
      IsPrefix(FILE_SENT_PREFIX, s) && s[|FILE_SENT_PREFIX|..] == text
  {
    assert (FILE_SENT_PREFIX + text)[0] == 'F' && METADATA_PREFIX[0] == 'M' && RESUME_READY_PREFIX[0] == 'R';
  }

  /** Every message whose numbers are 64-bit is read back as it was written. */
  lemma MessageRoundTrip(json: Json, m: ControlMessage)
    requires ReadsBack(json)
    ensures Parse(json, Serialize(json, m)) == Some(m) <==> Fits(m)
  {
    match m
    case Metadata(fileName, fileSize, resume, checksum) => MetadataRoundTrip(json, m);
    case ResumeReady(offset, prefixHash) => ResumeReadyRoundTrip(json, m);
    case FileSent(hash) =>
      hide ParseWord, IsPrefix;
      FileSentText(hash);
    case _ => WordRoundTrip(json, m);
  }

  lemma WordRoundTrip(json: Json, m: ControlMessage)
    requires !m.Metadata? && !m.ResumeReady? && !m.FileSent?
    ensures ParseWord(Serialize(json, m)) == Some(m)
  {
  }

  lemma MetadataRoundTrip(json: Json, m: ControlMessage)
    requires ReadsBack(json) && m.Metadata?
    ensures Parse(json, Serialize(json, m)) == Some(m) <==> Fits(m)
  {
    hide ParseWord, IsPrefix, ParseU64, Decimal, ParseResumeReady;
    var p := MetadataPayload(m.fileName, Decimal(m.fileSize), m.resume, m.checksum);
    MetadataText(json.metadataText(p));
    DecimalRoundTrip(m.fileSize);
    assert json.metadataOf(json.metadataText(p)) == Some(p);
  }

  lemma ResumeReadyRoundTrip(json: Json, m: ControlMessage)
    requires ReadsBack(json) && m.ResumeReady?
    ensures Parse(json, Serialize(json, m)) == Some(m) <==> Fits(m)
  {
    hide ParseWord, IsPrefix, ParseU64, Decimal, ParseMetadata;
    var p := ResumeReadyPayload(Decimal(m.offset), m.prefixHash);
    ResumeReadyText(json.resumeText(p));
    DecimalRoundTrip(m.offset);
    assert json.resumeOf(json.resumeText(p)) == Some(p);
  }

  /** The messages without a payload are read from their own text and from no other. */
  lemma WordsExactly(json: Json, m: ControlMessage, s: string)
    requires !m.Metadata? && !m.ResumeReady? && !m.FileSent?
    ensures Parse(json, s) == Some(m) <==> s == Serialize(json, m)
  {
    WordRoundTrip(json, m);
    WordText(json, s);
    hide IsPrefix, ParseU64, ParseWord, Serialize;
  }

  lemma WordText(json: Json, s: string)
    ensures ParseWord(s).Some? ==> s == Serialize(json, ParseWord(s).value)
  {
    match ParseWord(s)
    case Some(Ready) => assert s == "READY";
    case Some(Pause) => assert s == "PAUSE";
    case Some(Resume) => assert s == "RESUME";
    case Some(ResumeOk) => assert s == "RESUME_OK";
    case Some(RestartFromZero) => assert s == "RESTART_FROM_ZERO";
    case Some(RejectedUnwanted) => assert s == "REJECTED:UNWANTED";
    case Some(ReceivedFileOk) => assert s == "RECEIVED_FILE:OK";
    case _ =>
  }

  lemma WordHasNoPayload(s: string)
    ensures var m := ParseWord(s); m.Some? ==> !m.value.Metadata? && !m.value.ResumeReady? && !m.value.FileSent?
  {
  }

  /** A message with a payload is read only behind its own prefix, and its numbers are 64-bit. */
  lemma PayloadsExactly(json: Json, s: string)
    ensures var m := Parse(json, s);
      m.Some? ==>
      (m.value.Metadata? ==> |s| >= 9 && s[..9] == "METADATA:" && json.metadataOf(s[9..]).Some? && Fits(m.value)) &&
      (m.value.ResumeReady? ==>
         |s| >= 13 && s[..13] == "RESUME_READY:" && json.resumeOf(s[13..]).Some? && Fits(m.value)) &&
      (m.value.FileSent? ==> s == "FILE_SENT:" + m.value.hash)
  {
    ParsedFits(json, s);
    WordHasNoPayload(s);
    hide ParseU64, ParseWord, Fits;
    if IsPrefix(FILE_SENT_PREFIX, s) { assert s == FILE_SENT_PREFIX + s[10..]; }
  }

  lemma ParsedFits(json: Json, s: string)
    ensures Parse(json, s).Some? ==> Fits(Parse(json, s).value)
  {
    hide IsPrefix, DecimalValue, AllDigits;
  }

  /** What is written in front of a payload. */
  lemma PayloadTexts(json: Json, m: ControlMessage)
    ensures m.Metadata? ==> IsPrefix("METADATA:", Serialize(json, m))
    ensures m.ResumeReady? ==> IsPrefix("RESUME_READY:", Serialize(json, m))
    ensures m.FileSent? ==> Serialize(json, m) == "FILE_SENT:" + m.hash
  {
    hide Decimal;
  }

  // ---- frames -----------------------------------------------------------------------

  const MAX_CONTROL_MESSAGE_BYTES: nat := 64 * 1024

  /** `Ended` is the end of the stream inside the length, where reading a frame stops without an error. */
  datatype FrameRead = Frame(text: Bytes, rest: Bytes) | Ended | TooLong | CutShort | NotUtf8

  /** The length field holds the low 32 bits. */
  function WriteFrame(text: Bytes): Bytes {
    U32(|text|) + text
  }

  function ReadFrame(b: Bytes): FrameRead {
    if |b| < 4 then Ended
    else
      var length := FromBigEndian(b[..4]);
      if length > MAX_CONTROL_MESSAGE_BYTES then TooLong
      else if |b| < 4 + length then CutShort
      else if !IsUtf8(b[4..4 + length]) then NotUtf8
      else Frame(b[4..4 + length], b[4 + length..])
  }

  /** A text comes back, and what follows it is left alone, exactly when it is at most 64 KiB long. */
  lemma FrameRoundTrip(text: Bytes, x: Bytes)
    requires IsUtf8(text)
    ensures ReadFrame(WriteFrame(text) + x) == Frame(text, x) <==> |text| <= MAX_CONTROL_MESSAGE_BYTES
  {
    hide IsUtf8, FromBigEndian, ReadFrame, WriteFrame;
    if |text| <= MAX_CONTROL_MESSAGE_BYTES {
      ShortFrame(text, x);
    } else {
      FramesAreShort(WriteFrame(text) + x);
    }
  }

  lemma ShortFrame(text: Bytes, x: Bytes)
    requires IsUtf8(text) && |text| <= MAX_CONTROL_MESSAGE_BYTES
    ensures ReadFrame(WriteFrame(text) + x) == Frame(text, x)
  {
    hide IsUtf8, U32, FromBigEndian;
    FourBytes(|text|);
    U32RoundTrip(|text|);
    var b := U32(|text|) + text + x;
    assert b[..4] == U32(|text|) && b[4..4 + |text|] == text && b[4 + |text|..] == x;
  }

  lemma FourBytes(v: nat)
    ensures |U32(v)| == 4
  {
  }

  lemma FramesAreShort(b: Bytes)
    ensures ReadFrame(b).Frame? ==> |ReadFrame(b).text| <= MAX_CONTROL_MESSAGE_BYTES
  {
    hide IsUtf8, FromBigEndian;
  }

  /** What a frame read says of the bytes: exactly one written frame of UTF-8 text of at most 65536 bytes. */
  lemma FrameMeans(b: Bytes)
    ensures match ReadFrame(b)
      case Frame(text, rest) => |text| <= 65536 && IsUtf8(text) && b == WriteFrame(text) + rest
      case Ended => |b| < 4
      case TooLong => |b| >= 4 && FromBigEndian(b[..4]) > 65536
      case CutShort => |b| >= 4 && |b| - 4 < FromBigEndian(b[..4]) <= 65536
      case NotUtf8 =>
        |b| >= 4 && FromBigEndian(b[..4]) <= 65536 && |b| >= 4 + FromBigEndian(b[..4]) &&
        !IsUtf8(b[4..4 + FromBigEndian(b[..4])])
  {
    hide IsUtf8, U32, FromBigEndian;
    match ReadFrame(b)
    case Frame(text, rest) =>
      U32OfDecoded(b[..4]);
      assert b == b[..4] + text + rest;
    case _ =>
  }
}
