/** What the END frame of an accepted stream says, and what the receiver reports, of the frames before it. */
module DirectoryTotals {
  import opened Common
  import opened Wire
  import opened Paths
  import opened FileSystem
  import opened DirectoryReceiver
  import opened DirectoryReceiverLoop

  /** The DIRECTORY frames in front of the END frame. */
  function DirectoriesIn(hash: Hasher, b: Bytes): nat
    decreases |b|
  {
    if b == [] then 0
    else if b[0] == FRAME_DIRECTORY then
      if ReadPath(b[1..]).Got? then 1 + DirectoriesIn(hash, ReadPath(b[1..]).rest) else 0
    else if b[0] == FRAME_PACK_START then
      if |b| >= 9 then DirectoriesIn(hash, b[9..]) else 0
    else if b[0] == FRAME_PACK_END then DirectoriesIn(hash, b[1..])
    else if b[0] == FRAME_FILE then
      var f := CompleteFile(hash, b[1..]);
      if f.Got? then DirectoriesIn(hash, f.rest) else 0
    else 0
  }

  function BytesOf(files: seq<(Path, Bytes)>): nat {
    if files == [] then 0 else |files[0].1| + BytesOf(files[1..])
  }

  /** What one frame adds to the statistics. */
  lemma FrameCounts(hash: Hasher, t: Tree, root: Path, stats: Stats, b: Bytes)
    requires Frame(hash, t, root, stats, b).Continue?
    ensures var s := Frame(hash, t, root, stats, b);
      s.stats.files + |CompletedFiles(hash, s.rest)| == stats.files + |CompletedFiles(hash, b)| &&
      s.stats.bytes + BytesOf(CompletedFiles(hash, s.rest)) == stats.bytes + BytesOf(CompletedFiles(hash, b)) &&
      s.stats.directories + DirectoriesIn(hash, s.rest) == stats.directories + DirectoriesIn(hash, b)
  {
    hide ReadPath, DirectoryFrame, FileFrame, TotalsMatch, CompleteFile;
    if b[0] == FRAME_DIRECTORY {
      DirectoryRest(t, root, stats, b[1..]);
      DirectoryCounts(t, root, stats, b[1..]);
    } else if b[0] == FRAME_FILE {
      FileRest(hash, t, root, stats, b[1..]);
      FileCounts(hash, t, root, stats, b[1..]);
      var f := CompleteFile(hash, b[1..]);
      assert ([f.value] + CompletedFiles(hash, f.rest))[1..] == CompletedFiles(hash, f.rest);
    }
  }

  lemma DirectoryCounts(t: Tree, root: Path, stats: Stats, b: Bytes)
    requires DirectoryFrame(t, root, stats, b).Continue?
    ensures DirectoryFrame(t, root, stats, b).stats == stats.(directories := stats.directories + 1)
  {
    hide ReadPath, MakeDirs, Segments;
  }

  lemma FileCounts(hash: Hasher, t: Tree, root: Path, stats: Stats, b: Bytes)
    requires FileFrame(hash, t, root, stats, b).Continue? && CompleteFile(hash, b).Got?
    ensures FileFrame(hash, t, root, stats, b).stats ==
      stats.(files := stats.files + 1, bytes := stats.bytes + |CompleteFile(hash, b).value.1|)
  {
    hide ReadFileHeader, StoreFile, Segments;
  }

  /** The last 25 bytes of an accepted stream: the tag 0x16 and three 64-bit numbers. */
  predicate EndsWith(consumed: Bytes, stats: Stats) {
    |consumed| >= 25 &&
    consumed[|consumed| - 25..] ==
      [0x16] + U64(stats.files % U64_LIMIT) + U64(stats.directories % U64_LIMIT) + U64(stats.bytes % U64_LIMIT)
  }

  lemma EightBack(b: Bytes, v: nat)
    requires |b| == 8 && FromBigEndian(b) == v
    ensures b == U64(v)
  {
    U64OfDecoded(b);
  }

  lemma EndFrameReads(t: Tree, stats: Stats, b: Bytes)
    requires b != [] && b[0] == FRAME_END && EndFrame(t, stats, b[1..]).Finish?
    ensures var s := EndFrame(t, stats, b[1..]);
      s.stats == stats && s.rest == b[25..] && |b| >= 25 && EndsWith(b[..25], stats)
  {
    hide U64, FromBigEndian, TotalsMatch;
    var totals := b[1..][..24];
    TotalsBack(totals, stats);
    assert b[1..][24..] == b[25..];
    assert b[..25] == [b[0]] + totals;
    assert b[..25][0..] == b[..25];
  }

  lemma TotalsBack(totals: Bytes, stats: Stats)
    requires |totals| == 24 && TotalsMatch(totals, stats)
    ensures totals == U64(stats.files % U64_LIMIT) + U64(stats.directories % U64_LIMIT) + U64(stats.bytes % U64_LIMIT)
  {
    hide U64, FromBigEndian;
    EightBack(totals[..8], stats.files % U64_LIMIT);
    EightBack(totals[8..16], stats.directories % U64_LIMIT);
    EightBack(totals[16..], stats.bytes % U64_LIMIT);
    assert totals == totals[..8] + totals[8..16] + totals[16..];
  }

  lemma EndsLater(front: Bytes, consumed: Bytes, stats: Stats)
    requires EndsWith(consumed, stats)
    ensures EndsWith(front + consumed, stats)
  {
    assert (front + consumed)[|front + consumed| - 25..] == consumed[|consumed| - 25..];
  }

  lemma {:induction false} RunTotals(hash: Hasher, t: Tree, root: Path, stats: Stats, b: Bytes)
    requires Run(hash, t, root, stats, b).Accepted?
    ensures var o := Run(hash, t, root, stats, b);
      o.stats.files == stats.files + |CompletedFiles(hash, b)| &&
      o.stats.bytes == stats.bytes + BytesOf(CompletedFiles(hash, b)) &&
      o.stats.directories == stats.directories + DirectoriesIn(hash, b) &&
      |o.rest| <= |b| && b == Front(b, o.rest) + o.rest && EndsWith(Front(b, o.rest), o.stats)
    decreases |b|
  {
    hide CompletedFiles, DirectoriesIn, EndsWith, U64, CompleteFile;
    var step := Frame(hash, t, root, stats, b);
    FrameShrinks(hash, t, root, stats, b);
    if step.Continue? {
      FrameCounts(hash, t, root, stats, b);
      FramePassed(hash, t, root, stats, b, []);
      RunTotals(hash, step.tree, root, step.stats, step.rest);
      hide Frame;
      var o := Run(hash, t, root, stats, b);
      var front, more := Front(b, step.rest), Front(step.rest, o.rest);
      EndsLater(front, more, o.stats);
      Together(b, front, more, o.rest);
    } else {
      EndOfRun(hash, t, root, stats, b);
    }
  }

  lemma Together(b: Bytes, front: Bytes, more: Bytes, rest: Bytes)
    requires b == front + (more + rest)
    ensures |rest| <= |b| && Front(b, rest) == front + more && b == Front(b, rest) + rest
  {
    assert b == (front + more) + rest;
  }

  lemma EndOfRun(hash: Hasher, t: Tree, root: Path, stats: Stats, b: Bytes)
    requires Frame(hash, t, root, stats, b).Finish?
    ensures var s := Frame(hash, t, root, stats, b);
      CompletedFiles(hash, b) == [] && DirectoriesIn(hash, b) == 0 && s.stats == stats &&
      |s.rest| <= |b| && b == Front(b, s.rest) + s.rest && EndsWith(Front(b, s.rest), stats)
  {
    hide DirectoryFrame, FileFrame, EndsWith, TotalsMatch;
    assert b != [] && b[0] == FRAME_END by { OnlyEndFinishes(hash, t, root, stats, b); }
    EndFrameReads(t, stats, b);
    assert b == b[..25] + b[25..];
  }

  lemma OnlyEndFinishes(hash: Hasher, t: Tree, root: Path, stats: Stats, b: Bytes)
    requires Frame(hash, t, root, stats, b).Finish?
    ensures b != [] && b[0] == FRAME_END
  {
    hide ReadPath, ReadFileHeader, StoreFile, MakeDirs, Segments;
  }

  /**
    An accepted stream: the statistics reported count the FILE frames received,
    their bytes, and the DIRECTORY frames with the root; and the stream ends, in
    its last 25 bytes before what is left unread, with exactly these numbers.
  */
  lemma AcceptedTotals(hash: Hasher, t: Tree, base: Path, b: Bytes)
    requires Decode(hash, t, base, b).Accepted?
    ensures var o := Decode(hash, t, base, b);
      b != [] && b[0] == 0x11 && ReadPath(b[1..]).Got? &&
      o.stats.files == |CompletedIn(hash, b)| && o.stats.bytes == BytesOf(CompletedIn(hash, b)) &&
      o.stats.directories == 1 + DirectoriesIn(hash, ReadPath(b[1..]).rest) &&
      |o.rest| <= |b| && b == Front(b, o.rest) + o.rest && EndsWith(Front(b, o.rest), o.stats)
  {
    hide CompletedFiles, DirectoriesIn, EndsWith, Run, MakeDirs, Segments;
    var Got(name, rest) := ReadPath(b[1..]);
    var root := base + Segments(name);
    RunTotals(hash, MakeDirs(t, [], root).0, root, InitialStats, rest);
    var o := Decode(hash, t, base, b);
    ReadPathFront(b[1..]);
    TagFirst(b, rest, []);
    EndsLater(Front(b, rest), Front(rest, o.rest), o.stats);
    Together(b, Front(b, rest), Front(rest, o.rest), o.rest);
  }
}
