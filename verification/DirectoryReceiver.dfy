/**
  What `receive_directory` does with a byte stream, as a function of the
  bytes and of the file system it starts from.
*/
module DirectoryReceiver {
  import opened Common
  import opened Wire
  import opened Paths
  import opened FileSystem

  const FRAME_START: Byte := 0x11
  const FRAME_DIRECTORY: Byte := 0x12
  const FRAME_PACK_START: Byte := 0x13
  const FRAME_FILE: Byte := 0x14
  const FRAME_PACK_END: Byte := 0x15
  const FRAME_END: Byte := 0x16

  /** A digest is 32 bytes. */
  type Digest = d: Bytes | |d| == 32 witness seq(32, _ => 0)

  type Hasher = Bytes -> Digest

  datatype Stats = Stats(files: nat, directories: nat, bytes: nat, packs: nat)

  datatype Error =
    | UnexpectedEnd
    | NotADirectoryTransfer
    | BadPathLength
    | NotUtf8
    | BadPath
    | RootNotOneComponent
    | NotADirectory
    | CannotCreateFile
    | ChecksumMismatch
    | CannotRename
    | TotalsMismatch
    | UnknownFrame

  /** A value read from the front of a stream, and what is left of the stream. */
  datatype Parsed<+T> = Got(value: T, rest: Bytes) | Bad(error: Error)

  /** `read_path` */
  function ReadPath(b: Bytes): (r: Parsed<Bytes>)
    ensures r.Got? ==> ValidPath(r.value) && |r.rest| < |b|
  {
    if |b| < 4 then Bad(UnexpectedEnd)
    else
      var length := FromBigEndian(b[..4]);
      if length == 0 || length > MAX_PATH_BYTES then Bad(BadPathLength)
      else if |b| < 4 + length then Bad(UnexpectedEnd)
      else if !IsUtf8(b[4..4 + length]) then Bad(NotUtf8)
      else if !ValidPath(b[4..4 + length]) then Bad(BadPath)
      else Got(b[4..4 + length], b[4 + length..])
  }

  /**
    What reading a path says of the bytes: one length-prefixed UTF-8 text that
    passes the validation, or the first thing that is wrong with it.
  */
  lemma ReadPathMeans(b: Bytes)
    ensures var length := if |b| >= 4 then FromBigEndian(b[..4]) else 0;
      var whole := 1 <= length <= 32768 && |b| >= 4 + length;
      match ReadPath(b)
      case Got(v, rest) => b == U32(|v|) + v + rest && IsUtf8(v) && ValidPath(v)
      case Bad(UnexpectedEnd) => |b| < 4 || (1 <= length <= 32768 && |b| < 4 + length)
      case Bad(BadPathLength) => |b| >= 4 && (length == 0 || length > 32768)
      case Bad(NotUtf8) => whole && !IsUtf8(b[4..4 + length])
      case Bad(BadPath) => whole && IsUtf8(b[4..4 + length]) && !ValidPath(b[4..4 + length])
      case Bad(_) => false
  {
    hide IsUtf8, ValidPath, U32, FromBigEndian;
    if ReadPath(b).Got? {
      var v, rest := ReadPath(b).value, ReadPath(b).rest;
      U32OfDecoded(b[..4]);
      assert b == b[..4] + v + rest;
    }
  }

  /** Every path that is read from a stream is harmless. */
  lemma ReadPathIsHarmless(b: Bytes)
    requires ReadPath(b).Got?
    ensures Harmless(ReadPath(b).value)
  {
    ValidExactly(ReadPath(b).value);
  }

  /** A text is read as a path exactly if it is harmless UTF-8. */
  lemma HarmlessExactly(v: Bytes, x: Bytes)
    requires |v| < 0x1_0000_0000
    ensures ReadPath(U32(|v|) + v + x) == Got(v, x) <==> IsUtf8(v) && Harmless(v)
  {
    var b := U32(|v|) + v + x;
    U32RoundTrip(|v|);
    assert |U32(|v|)| == 4;
    ValidExactly(v);
    hide Harmless, ValidPath, IsUtf8;
    if IsUtf8(v) && Harmless(v) {
      hide U32, FromBigEndian;
      assert b[..4] == U32(|v|) && b[4..4 + |v|] == v && b[4 + |v|..] == x;
    } else if ReadPath(b).Got? {
      ReadPathIsHarmless(b);
      ReadPathMeans(b);
      hide *;
    }
  }

  datatype FileHeader = FileHeader(path: Bytes, size: nat, checksum: bool)

  function ReadFileHeader(b: Bytes): (r: Parsed<FileHeader>)
    ensures r.Got? ==> ValidPath(r.value.path) && |r.rest| < |b|
  {
    match ReadPath(b)
    case Bad(e) => Bad(e)
    case Got(path, rest) =>
      if |rest| < 9 then Bad(UnexpectedEnd)
      else Got(FileHeader(path, FromBigEndian(rest[..8]), rest[8] != 0), rest[9..])
  }

  /** The file system afterwards, and the rest of the stream unless something failed. */
  datatype Stored = Stored(tree: Tree, outcome: Parsed<()>)

  function StagingPath(p: Path): Path
    requires p != []
  {
    Parent(p) + [StagingName(p[|p| - 1])]
  }

  /** Receives one file whose header has been read, through its staging name. */
  function StoreFile(hash: Hasher, t: Tree, root: Path, header: FileHeader, b: Bytes): (s: Stored)
    ensures s.outcome.Got? ==> |s.outcome.rest| <= |b|
  {
    var path := Segments(header.path);
    var (t1, ok) := MakeDirs(t, root, Parent(path));
    if !ok then Stored(t1, Bad(NotADirectory)) else StoreIn(hash, t1, root, path, header, b)
  }

  /** The same once the parent directory is there. */
  function StoreIn(hash: Hasher, t1: Tree, root: Path, path: Path, header: FileHeader, b: Bytes): (s: Stored)
    requires path != []
    ensures s.outcome.Got? ==> |s.outcome.rest| <= |b|
  {
    var staging, dest := root + StagingPath(path), root + path;
    if IsDir(t1, staging) then Stored(t1, Bad(CannotCreateFile))
    else if |b| < header.size then Stored(t1[staging := File(b)], Bad(UnexpectedEnd))
    else
      var content := b[..header.size];
      var t2 := t1[staging := File(content)];
      var footer := if header.checksum then 32 else 0;
      if |b| < header.size + footer then Stored(t2, Bad(UnexpectedEnd))
      else if header.checksum && hash(content) != b[header.size..header.size + 32] then
        Stored(t2 - {staging}, Bad(ChecksumMismatch))
      else if IsDir(t2, dest) then Stored(t2, Bad(CannotRename))
      else Stored(Renamed(t2, staging, dest), Got((), b[header.size + footer..]))
  }

  datatype Outcome =
    | Accepted(tree: Tree, stats: Stats, rest: Bytes)
    | Rejected(tree: Tree, error: Error)

  predicate TotalsMatch(totals: Bytes, stats: Stats)
    requires |totals| == 24
  {
    FromBigEndian(totals[..8]) == stats.files % U64_LIMIT &&
    FromBigEndian(totals[8..16]) == stats.directories % U64_LIMIT &&
    FromBigEndian(totals[16..]) == stats.bytes % U64_LIMIT
  }

  /** What one frame leads to. */
  datatype Step =
    | Continue(tree: Tree, stats: Stats, rest: Bytes)
    | Finish(stats: Stats, rest: Bytes)
    | Abort(tree: Tree, error: Error)

  function DirectoryFrame(t: Tree, root: Path, stats: Stats, b: Bytes): (s: Step)
    ensures !s.Abort? ==> |s.rest| < |b|
  {
    match ReadPath(b)
    case Bad(e) => Abort(t, e)
    case Got(path, rest) =>
      var (t1, ok) := MakeDirs(t, root, Segments(path));
      if ok then Continue(t1, stats.(directories := stats.directories + 1), rest) else Abort(t1, NotADirectory)
  }

  function FileFrame(hash: Hasher, t: Tree, root: Path, stats: Stats, b: Bytes): (s: Step)
    ensures !s.Abort? ==> |s.rest| < |b|
  {
    match ReadFileHeader(b)
    case Bad(e) => Abort(t, e)
    case Got(header, content) =>
      var s := StoreFile(hash, t, root, header, content);
      match s.outcome
      case Bad(e) => Abort(s.tree, e)
      case Got(_, rest) => Continue(s.tree, stats.(files := stats.files + 1, bytes := stats.bytes + header.size), rest)
  }

  /** The 64-bit counters wrap; they are compared reduced. */
  function EndFrame(t: Tree, stats: Stats, b: Bytes): Step {
    if |b| < 24 then Abort(t, UnexpectedEnd)
    else if TotalsMatch(b[..24], stats) then Finish(stats, b[24..])
    else Abort(t, TotalsMismatch)
  }

  function Frame(hash: Hasher, t: Tree, root: Path, stats: Stats, b: Bytes): Step {
    if b == [] then Abort(t, UnexpectedEnd)
    else if b[0] == FRAME_DIRECTORY then DirectoryFrame(t, root, stats, b[1..])
    else if b[0] == FRAME_PACK_START then
      if |b| < 9 then Abort(t, UnexpectedEnd)
      else Continue(t, stats.(packs := stats.packs + 1), b[9..])
    else if b[0] == FRAME_PACK_END then Continue(t, stats, b[1..])
    else if b[0] == FRAME_FILE then FileFrame(hash, t, root, stats, b[1..])
    else if b[0] == FRAME_END then EndFrame(t, stats, b[1..])
    else Abort(t, UnknownFrame)
  }

  lemma FrameShrinks(hash: Hasher, t: Tree, root: Path, stats: Stats, b: Bytes)
    ensures var s := Frame(hash, t, root, stats, b);
      (s.Continue? || s.Finish? ==> |s.rest| < |b|)
  {
    hide DirectoryFrame, FileFrame;
  }

  /** The frame loop. */
  function Run(hash: Hasher, t: Tree, root: Path, stats: Stats, b: Bytes): Outcome
    decreases |b|
  {
    FrameShrinks(hash, t, root, stats, b);
    match Frame(hash, t, root, stats, b)
    case Continue(t1, stats1, rest) => Run(hash, t1, root, stats1, rest)
    case Finish(stats1, rest) => Accepted(t, stats1, rest)
    case Abort(t1, e) => Rejected(t1, e)
  }

  const InitialStats := Stats(0, 1, 0, 0)

  /** `receive_directory` below `base`. */
  function Decode(hash: Hasher, t: Tree, base: Path, b: Bytes): Outcome {
    if b == [] then Rejected(t, UnexpectedEnd)
    else if b[0] != FRAME_START then Rejected(t, NotADirectoryTransfer)
    else
      match ReadPath(b[1..])
      case Bad(e) => Rejected(t, e)
      case Got(name, rest) =>
        if |Segments(name)| != 1 then Rejected(t, RootNotOneComponent)
        else
          var root := base + Segments(name);
          var (t1, ok) := MakeDirs(t, [], root);
          if !ok then Rejected(t1, NotADirectory)
          else Run(hash, t1, root, InitialStats, rest)
  }

  // ---- no strict prefix of an accepted stream is accepted ------------------

  lemma ReadPathExtends(b: Bytes, x: Bytes)
    requires ReadPath(b).Got?
    ensures ReadPath(b + x) == Got(ReadPath(b).value, ReadPath(b).rest + x)
  {
    var length := FromBigEndian(b[..4]);
    assert (b + x)[..4] == b[..4];
    assert (b + x)[4..4 + length] == b[4..4 + length];
    assert (b + x)[4 + length..] == b[4 + length..] + x;
  }

  lemma ReadFileHeaderExtends(b: Bytes, x: Bytes)
    requires ReadFileHeader(b).Got?
    ensures ReadFileHeader(b + x) == Got(ReadFileHeader(b).value, ReadFileHeader(b).rest + x)
  {
    ReadPathExtends(b, x);
    var rest := ReadPath(b).rest;
    assert (rest + x)[..8] == rest[..8];
    assert (rest + x)[9..] == rest[9..] + x;
  }

  lemma StoreInExtends(hash: Hasher, t: Tree, root: Path, path: Path, header: FileHeader, b: Bytes, x: Bytes)
    requires path != [] && StoreIn(hash, t, root, path, header, b).outcome.Got?
    ensures var s := StoreIn(hash, t, root, path, header, b);
      StoreIn(hash, t, root, path, header, b + x) == Stored(s.tree, Got((), s.outcome.rest + x))
  {
    hide StagingPath, Renamed;
    var footer := if header.checksum then 32 else 0;
    assert (b + x)[..header.size] == b[..header.size];
    if header.checksum {
      assert (b + x)[header.size..header.size + 32] == b[header.size..header.size + 32];
    }
    assert (b + x)[header.size + footer..] == b[header.size + footer..] + x;
  }

  lemma StoreFileExtends(hash: Hasher, t: Tree, root: Path, header: FileHeader, b: Bytes, x: Bytes)
    requires StoreFile(hash, t, root, header, b).outcome.Got?
    ensures var s := StoreFile(hash, t, root, header, b);
      StoreFile(hash, t, root, header, b + x) == Stored(s.tree, Got((), s.outcome.rest + x))
  {
    hide StoreIn, MakeDirs, Segments;
    StoreInExtends(hash, MakeDirs(t, root, Parent(Segments(header.path))).0, root, Segments(header.path), header, b, x);
  }

  function With(s: Step, x: Bytes): Step {
    if s.Abort? then s else s.(rest := s.rest + x)
  }

  lemma FileFrameExtends(hash: Hasher, t: Tree, root: Path, stats: Stats, b: Bytes, x: Bytes)
    requires !FileFrame(hash, t, root, stats, b).Abort?
    ensures FileFrame(hash, t, root, stats, b + x) == With(FileFrame(hash, t, root, stats, b), x)
  {
    hide ReadFileHeader, StoreFile;
    ReadFileHeaderExtends(b, x);
    var Got(header, content) := ReadFileHeader(b);
    StoreFileExtends(hash, t, root, header, content, x);
  }

  lemma DirectoryFrameExtends(t: Tree, root: Path, stats: Stats, b: Bytes, x: Bytes)
    requires !DirectoryFrame(t, root, stats, b).Abort?
    ensures DirectoryFrame(t, root, stats, b + x) == With(DirectoryFrame(t, root, stats, b), x)
  {
    hide ReadPath, MakeDirs, Segments;
    ReadPathExtends(b, x);
  }

  lemma EndFrameExtends(t: Tree, stats: Stats, b: Bytes, x: Bytes)
    requires !EndFrame(t, stats, b).Abort?
    ensures EndFrame(t, stats, b + x) == With(EndFrame(t, stats, b), x)
  {
    hide TotalsMatch;
    assert (b + x)[..24] == b[..24];
    assert (b + x)[24..] == b[24..] + x;
  }

  lemma FrameExtends(hash: Hasher, t: Tree, root: Path, stats: Stats, b: Bytes, x: Bytes)
    requires !Frame(hash, t, root, stats, b).Abort?
    ensures Frame(hash, t, root, stats, b + x) == With(Frame(hash, t, root, stats, b), x)
  {
    hide DirectoryFrame, FileFrame, EndFrame;
    assert (b + x)[0] == b[0] && (b + x)[1..] == b[1..] + x;
    if b[0] == FRAME_DIRECTORY {
      DirectoryFrameExtends(t, root, stats, b[1..], x);
    } else if b[0] == FRAME_PACK_START {
      assert (b + x)[9..] == b[9..] + x;
    } else if b[0] == FRAME_FILE {
      FileFrameExtends(hash, t, root, stats, b[1..], x);
    } else if b[0] == FRAME_END {
      EndFrameExtends(t, stats, b[1..], x);
    }
  }

  /** More bytes after an accepted stream are left unread. */
  lemma {:induction false} RunExtends(hash: Hasher, t: Tree, root: Path, stats: Stats, b: Bytes, x: Bytes)
    requires Run(hash, t, root, stats, b).Accepted?
    ensures var r := Run(hash, t, root, stats, b);
      |r.rest| < |b| && Run(hash, t, root, stats, b + x) == Accepted(r.tree, r.stats, r.rest + x)
    decreases |b|
  {
    FrameExtends(hash, t, root, stats, b, x);
    FrameShrinks(hash, t, root, stats, b);
    FrameShrinks(hash, t, root, stats, b + x);
    var s := Frame(hash, t, root, stats, b);
    hide Frame;
    if s.Continue? {
      RunExtends(hash, s.tree, root, s.stats, s.rest, x);
    }
  }

  lemma DecodeExtends(hash: Hasher, t: Tree, base: Path, b: Bytes, x: Bytes)
    requires Decode(hash, t, base, b).Accepted?
    ensures var r := Decode(hash, t, base, b);
      |r.rest| < |b| && Decode(hash, t, base, b + x) == Accepted(r.tree, r.stats, r.rest + x)
  {
    assert (b + x)[0] == b[0] && (b + x)[1..] == b[1..] + x;
    ReadPathExtends(b[1..], x);
    var Got(name, rest) := ReadPath(b[1..]);
    var root := base + Segments(name);
    RunExtends(hash, MakeDirs(t, [], root).0, root, InitialStats, rest, x);
  }

  lemma ReadPathCuts(b: Bytes, x: Bytes)
    requires ReadPath(b + x).Got? && |ReadPath(b + x).rest| >= |x|
    ensures ReadPath(b).Got?
  {
    var length := FromBigEndian((b + x)[..4]);
    assert (b + x)[..4] == b[..4];
    assert (b + x)[4..4 + length] == b[4..4 + length];
  }

  lemma StoreFileCuts(hash: Hasher, t: Tree, root: Path, header: FileHeader, b: Bytes, x: Bytes)
    requires var s := StoreFile(hash, t, root, header, b + x); s.outcome.Got? && |s.outcome.rest| >= |x|
    ensures StoreFile(hash, t, root, header, b).outcome.Got?
  {
    hide MakeDirs, Segments, StagingPath, Renamed;
    assert (b + x)[..header.size] == b[..header.size];
    if header.checksum {
      assert (b + x)[header.size..header.size + 32] == b[header.size..header.size + 32];
    }
  }

  lemma FileFrameCuts(hash: Hasher, t: Tree, root: Path, stats: Stats, b: Bytes, x: Bytes)
    requires var s := FileFrame(hash, t, root, stats, b + x); !s.Abort? && |s.rest| >= |x|
    ensures !FileFrame(hash, t, root, stats, b).Abort?
  {
    var Got(header, content) := ReadFileHeader(b + x);
    var s := StoreFile(hash, t, root, header, content);
    assert |content| >= |s.outcome.rest|;
    ReadPathCuts(b, x);
    ReadPathExtends(b, x);
    ReadFileHeaderExtends(b, x);
    StoreFileCuts(hash, t, root, header, ReadFileHeader(b).rest, x);
    hide StoreFile, ReadPath;
  }

  lemma DirectoryFrameCuts(t: Tree, root: Path, stats: Stats, b: Bytes, x: Bytes)
    requires var s := DirectoryFrame(t, root, stats, b + x); !s.Abort? && |s.rest| >= |x|
    ensures !DirectoryFrame(t, root, stats, b).Abort?
  {
    ReadPathCuts(b, x);
    ReadPathExtends(b, x);
    hide ReadPath;
  }

  lemma FrameCuts(hash: Hasher, t: Tree, root: Path, stats: Stats, b: Bytes, x: Bytes)
    requires var s := Frame(hash, t, root, stats, b + x); !s.Abort? && |s.rest| >= |x|
    ensures !Frame(hash, t, root, stats, b).Abort?
  {
    hide DirectoryFrame, FileFrame;
    FrameShrinks(hash, t, root, stats, b + x);
    assert (b + x)[0] == b[0] && (b + x)[1..] == b[1..] + x;
    if b[0] == FRAME_DIRECTORY {
      DirectoryFrameCuts(t, root, stats, b[1..], x);
    } else if b[0] == FRAME_FILE {
      FileFrameCuts(hash, t, root, stats, b[1..], x);
    } else if b[0] == FRAME_END {
      assert (b[1..] + x)[..24] == b[1..][..24];
    }
  }

  /** Bytes that an accepting run leaves unread are not needed. */
  lemma {:induction false} RunCuts(hash: Hasher, t: Tree, root: Path, stats: Stats, b: Bytes, x: Bytes)
    requires var r := Run(hash, t, root, stats, b + x); r.Accepted? && |r.rest| >= |x|
    ensures Run(hash, t, root, stats, b).Accepted?
    decreases |b|
  {
    var s := Frame(hash, t, root, stats, b + x);
    if s.Continue? {
      RunExtends(hash, s.tree, root, s.stats, s.rest, []);
    }
    FrameCuts(hash, t, root, stats, b, x);
    FrameExtends(hash, t, root, stats, b, x);
    FrameShrinks(hash, t, root, stats, b);
    hide Frame;
    if s.Continue? {
      RunCuts(hash, s.tree, root, s.stats, Frame(hash, t, root, stats, b).rest, x);
    }
  }

  lemma DecodeCuts(hash: Hasher, t: Tree, base: Path, b: Bytes, x: Bytes)
    requires var r := Decode(hash, t, base, b + x); r.Accepted? && |r.rest| >= |x|
    ensures Decode(hash, t, base, b).Accepted?
  {
    DecodeExtends(hash, t, base, b + x, []);
    assert (b + x)[0] == b[0] && (b + x)[1..] == b[1..] + x;
    var Got(name, rest) := ReadPath(b[1..] + x);
    var root := base + Segments(name);
    RunExtends(hash, MakeDirs(t, [], root).0, root, InitialStats, rest, []);
    ReadPathCuts(b[1..], x);
    ReadPathExtends(b[1..], x);
    RunCuts(hash, MakeDirs(t, [], root).0, root, InitialStats, ReadPath(b[1..]).rest, x);
  }

  /** Of an accepted stream, exactly the prefixes that reach its end frame are accepted. */
  lemma AcceptedPrefixes(hash: Hasher, t: Tree, base: Path, b: Bytes, m: nat)
    requires Decode(hash, t, base, b).Accepted? && m <= |b|
    ensures Decode(hash, t, base, b[..m]).Accepted? <==> m >= |b| - |Decode(hash, t, base, b).rest|
  {
    assert b[..m] + b[m..] == b;
    if Decode(hash, t, base, b[..m]).Accepted? {
      DecodeExtends(hash, t, base, b[..m], b[m..]);
    } else if |Decode(hash, t, base, b).rest| >= |b[m..]| {
      DecodeCuts(hash, t, base, b[..m], b[m..]);
    }
  }
}
