/** The receiver's reading of the frames that the sender writes. */
module DirectoryCodec {
  import opened Common
  import opened Wire
  import opened Paths
  import opened FileSystem
  import R = DirectoryReceiver
  import opened DirectorySender

  // ---- single frames ------------------------------------------------------

  lemma {:induction false} ReplacingKeepsUtf8(v: Bytes)
    requires IsUtf8(v)
    ensures IsUtf8(SlashForBackslash(v))
    decreases |v|
  {
    if v != [] {
      var n := CharLength(v);
      var w := SlashForBackslash(v);
      ReplacingKeepsUtf8(v[n..]);
      assert w[n..] == SlashForBackslash(v[n..]);
      assert forall i :: 0 <= i < n && n > 1 ==> w[i] == v[i];
      assert CharLength(w) == n;
    }
  }

  lemma WireIsReadable(p: Path)
    requires p != [] && ToWire(p).Some?
    ensures ValidPath(ToWire(p).value) && IsUtf8(ToWire(p).value)
  {
    ReplacingKeepsUtf8(Joined(p));
  }

  lemma ReadsPath(v: Bytes, x: Bytes)
    requires ValidPath(v) && IsUtf8(v)
    ensures R.ReadPath(PathBytes(v) + x) == R.Got(v, x)
  {
    var b := PathBytes(v) + x;
    U32RoundTrip(|v|);
    assert b[..4] == U32(|v|);
    assert b[4..4 + |v|] == v;
    assert b[4 + |v|..] == x;
  }

  lemma EightBytes(v: nat)
    ensures |U64(v)| == 8
  {
  }

  lemma SizeAndFlag(size: nat, flag: Bytes, x: Bytes)
    requires size < U64_LIMIT && |flag| == 1
    ensures var rest := U64(size) + flag + x;
      |rest| >= 9 && FromBigEndian(rest[..8]) == size && rest[8] == flag[0] && rest[9..] == x
  {
    U64RoundTrip(size);
    EightBytes(size);
    hide U64, FromBigEndian;
    var rest := U64(size) + flag + x;
    assert rest[..8] == U64(size);
  }

  lemma HeaderShape(path: Bytes, size: nat, checksum: bool, x: Bytes)
    ensures var b := FileHeaderBytes(path, size, checksum) + x;
      b[0] == R.FRAME_FILE && b[1..] == PathBytes(path) + (U64(size) + [if checksum then 1 else 0] + x)
  {
    hide PathBytes, U64;
  }

  lemma ReadsFileHeader(path: Bytes, size: nat, checksum: bool, x: Bytes)
    requires ValidPath(path) && IsUtf8(path) && size < U64_LIMIT
    ensures FileHeaderBytes(path, size, checksum) + x != []
    ensures (FileHeaderBytes(path, size, checksum) + x)[0] == R.FRAME_FILE
    ensures R.ReadFileHeader((FileHeaderBytes(path, size, checksum) + x)[1..]) ==
      R.Got(R.FileHeader(path, size, checksum), x)
  {
    var flag: Bytes := [if checksum then 1 else 0];
    ReadsPath(path, U64(size) + flag + x);
    HeaderShape(path, size, checksum, x);
    SizeAndFlag(size, flag, x);
    hide R.ReadPath, PathBytes, FileHeaderBytes, U64, FromBigEndian, ValidPath, IsUtf8;
  }

  /** A whole file arriving: through its staging name to its destination. */
  function StoreNode(t: Tree, root: Path, path: Path, content: Bytes): (Tree, bool)
    requires path != []
  {
    var (t1, ok) := MakeDirs(t, root, Parent(path));
    var staging, dest := root + R.StagingPath(path), root + path;
    if !ok || IsDir(t1, staging) then (t1, false)
    else
      var t2 := t1[staging := File(content)];
      if IsDir(t2, dest) then (t2, false) else (Renamed(t2, staging, dest), true)
  }

  /** What is left to decide about a file once all its bytes and its digest are there. */
  lemma StoreFileReading(hash: R.Hasher, t: Tree, root: Path, header: R.FileHeader, b: Bytes, content: Bytes, x: Bytes)
    requires |b| >= header.size + (if header.checksum then 32 else 0)
    requires content == b[..header.size] && x == b[header.size + (if header.checksum then 32 else 0)..]
    requires header.checksum ==> b[header.size..header.size + 32] == hash(content)
    ensures var s := R.StoreFile(hash, t, root, header, b);
      var (t', ok) := StoreNode(t, root, Segments(header.path), content);
      s.tree == t' && (if ok then s.outcome == R.Got((), x) else s.outcome.Bad?)
  {
    hide MakeDirs, Segments, R.StagingPath;
  }

  lemma StoresWholeFile(hash: R.Hasher, t: Tree, root: Path, path: Bytes, content: Bytes, checksum: bool, x: Bytes)
    ensures var s := R.StoreFile(hash, t, root, R.FileHeader(path, |content|, checksum),
                                 content + (if checksum then hash(content) else []) + x);
      var (t', ok) := StoreNode(t, root, Segments(path), content);
      s.tree == t' && (if ok then s.outcome == R.Got((), x) else s.outcome.Bad?)
  {
    hide R.StoreFile, StoreNode;
    var digest := if checksum then hash(content) else [];
    var b := content + digest + x;
    assert b[..|content|] == content;
    assert b[|content|..|content| + |digest|] == digest;
    assert b[|content| + |digest|..] == x;
    StoreFileReading(hash, t, root, R.FileHeader(path, |content|, checksum), b, content, x);
  }

  lemma FileFrameArrives(hash: R.Hasher, t: Tree, root: Path, stats: R.Stats, path: Bytes, content: Bytes,
                         checksum: bool, x: Bytes)
    requires ValidPath(path) && IsUtf8(path) && |content| < U64_LIMIT
    ensures var (t', ok) := StoreNode(t, root, Segments(path), content);
      var s := R.Frame(hash, t, root, stats, Encode(hash, FileFrame(path, content, checksum)) + x);
      if ok then s == R.Continue(t', stats.(files := stats.files + 1, bytes := stats.bytes + |content|), x)
      else s.Abort? && s.tree == t'
  {
    hide StoreNode, R.StoreFile, R.ReadFileHeader, FileHeaderBytes, R.DirectoryFrame, R.EndFrame, Segments, ValidPath,
      IsUtf8;
    var digest := if checksum then hash(content) else [];
    var body := content + digest + x;
    var b := Encode(hash, FileFrame(path, content, checksum)) + x;
    assert b == FileHeaderBytes(path, |content|, checksum) + body;
    ReadsFileHeader(path, |content|, checksum, body);
    StoresWholeFile(hash, t, root, path, content, checksum, x);
    assert R.Frame(hash, t, root, stats, b) == R.FileFrame(hash, t, root, stats, b[1..]);
  }

  lemma DirectoryFrameArrives(hash: R.Hasher, t: Tree, root: Path, stats: R.Stats, path: Bytes, x: Bytes)
    requires ValidPath(path) && IsUtf8(path)
    ensures var (t', ok) := MakeDirs(t, root, Segments(path));
      var s := R.Frame(hash, t, root, stats, Encode(hash, DirectoryFrame(path)) + x);
      if ok then s == R.Continue(t', stats.(directories := stats.directories + 1), x) else s.Abort? && s.tree == t'
  {
    hide R.ReadPath, PathBytes, MakeDirs, Segments, R.FileFrame, R.EndFrame, ValidPath, IsUtf8;
    var b := Encode(hash, DirectoryFrame(path)) + x;
    assert b[0] == R.FRAME_DIRECTORY && b[1..] == PathBytes(path) + x;
    ReadsPath(path, x);
  }

  lemma PackFramesArrive(hash: R.Hasher, t: Tree, root: Path, stats: R.Stats, number: nat, x: Bytes)
    ensures R.Frame(hash, t, root, stats, Encode(hash, PackStart(number)) + x) ==
      R.Continue(t, stats.(packs := stats.packs + 1), x)
    ensures R.Frame(hash, t, root, stats, Encode(hash, PackEnd) + x) == R.Continue(t, stats, x)
  {
    assert (Encode(hash, PackStart(number)) + x)[9..] == x;
    assert (Encode(hash, PackEnd) + x)[1..] == x;
  }

  lemma EndFrameArrives(hash: R.Hasher, t: Tree, root: Path, stats: R.Stats, x: Bytes)
    ensures R.Frame(hash, t, root, stats, Encode(hash, End(stats.files, stats.directories, stats.bytes)) + x) ==
      R.Finish(stats, x)
  {
    var b := Encode(hash, End(stats.files, stats.directories, stats.bytes)) + x;
    U64RoundTrip(stats.files);
    U64RoundTrip(stats.directories);
    U64RoundTrip(stats.bytes);
    assert b[1..][..24] == U64(stats.files) + U64(stats.directories) + U64(stats.bytes);
    assert b[1..][..24][..8] == U64(stats.files);
    assert b[1..][..24][8..16] == U64(stats.directories);
    assert b[1..][..24][16..] == U64(stats.bytes);
    assert b[1..][24..] == x;
    hide BigEndian;
  }

  // ---- whole plans --------------------------------------------------------

  /** The path under which the receiver sees an item. */
  function Received(path: Path): Path
    requires path != [] && ToWire(path).Some?
  {
    Segments(ToWire(path).value)
  }

  predicate Sendable(items: seq<Item>) {
    forall i :: 0 <= i < |items| ==>
      items[i].path != [] && ToWire(items[i].path).Some? && !items[i].SpecialItem? &&
      (items[i].FileItem? ==> items[i].size < U64_LIMIT && items[i].size <= |items[i].data|)
  }

  function NodeOf(item: Item): Node
    requires !item.SpecialItem? && (item.FileItem? ==> item.size <= |item.data|)
  {
    match item
    case DirItem(_) => Dir
    case FileItem(_, size, data) => File(data[..size])
  }

  function ApplyItem(t: Tree, root: Path, item: Item): (Tree, bool)
    requires Sendable([item])
  {
    assert [item][0] == item;
    match NodeOf(item)
    case Dir => MakeDirs(t, root, Received(item.path))
    case File(content) => StoreNode(t, root, Received(item.path), content)
  }

  /** What receiving the items one after another does to the file system. */
  function ApplyAll(t: Tree, root: Path, items: seq<Item>): (Tree, bool)
    requires Sendable(items)
    decreases |items|
  {
    if items == [] then (t, true)
    else
      assert [items[0]][0] == items[0];
      var (t1, ok) := ApplyItem(t, root, items[0]);
      if ok then ApplyAll(t1, root, items[1..]) else (t1, false)
  }

  /** The items that leave frames: all but pipes, sockets and devices. */
  function NoSpecials(items: seq<Item>): seq<Item> {
    if items == [] then []
    else (if items[0].SpecialItem? then [] else [items[0]]) + NoSpecials(items[1..])
  }

  lemma {:induction false} NoSpecialsMembers(items: seq<Item>, item: Item)
    ensures item in NoSpecials(items) <==> item in items && !item.SpecialItem?
  {
    if items != [] {
      NoSpecialsMembers(items[1..], item);
    }
  }

  lemma {:induction false} NoSpecialsAppend(a: seq<Item>, b: seq<Item>)
    ensures NoSpecials(a + b) == NoSpecials(a) + NoSpecials(b)
  {
    if a == [] {
      assert a + b == b;
    } else {
      assert (a + b)[0] == a[0] && (a + b)[1..] == a[1..] + b;
      NoSpecialsAppend(a[1..], b);
    }
  }

  /** The next pack state and statistics after one file. */
  function AfterFile(target: nat, size: nat, packBytes: nat, pack: nat, stats: R.Stats): (nat, nat, R.Stats) {
    var over := Overfills(target, packBytes, size);
    var stats' := if over then stats.(packs := stats.packs + 1) else stats;
    ((if over then 0 else packBytes) + size, if over then pack + 1 else pack,
     stats'.(files := stats'.files + 1, bytes := stats'.bytes + size))
  }

  /** What planning one more item adds. */
  lemma PlanCons(target: nat, checksum: bool, item: Item, rest: seq<Item>, packBytes: nat, pack: nat, stats: R.Stats)
    requires item.path != [] && ToWire(item.path).Some?
    requires item.FileItem? ==> item.size <= |item.data|
    ensures PlanItems(target, checksum, [item] + rest, packBytes, pack, stats) ==
      match item
      case SpecialItem(_) => PlanItems(target, checksum, rest, packBytes, pack, stats)
      case DirItem(path) =>
        Prepend([DirectoryFrame(ToWire(path).value)],
                PlanItems(target, checksum, rest, packBytes, pack, stats.(directories := stats.directories + 1)))
      case FileItem(path, size, data) =>
        var (packBytes', pack', stats') := AfterFile(target, size, packBytes, pack, stats);
        Prepend(Opening(target, packBytes, pack, size) + [FileFrame(ToWire(path).value, data[..size], checksum)],
                PlanItems(target, checksum, rest, packBytes', pack', stats'))
  {
    hide ToWire;
    assert ([item] + rest)[0] == item && ([item] + rest)[1..] == rest;
  }

  lemma SendableCons(item: Item, rest: seq<Item>)
    requires Sendable(rest) && item.path != [] && ToWire(item.path).Some? && !item.SpecialItem?
    requires item.FileItem? ==> item.size < U64_LIMIT && item.size <= |item.data|
    ensures Sendable([item] + rest)
  {
    hide ToWire;
  }

  /** A plan that was sent to its end had only sendable items, and is the plan without the special ones. */
  lemma {:induction false} CompletePlanIsSendable(target: nat, checksum: bool, items: seq<Item>, packBytes: nat,
                                                  pack: nat, stats: R.Stats)
    requires PlanItems(target, checksum, items, packBytes, pack, stats).ok
    requires forall i :: 0 <= i < |items| && items[i].FileItem? ==> items[i].size < U64_LIMIT
    ensures Sendable(NoSpecials(items))
    ensures PlanItems(target, checksum, items, packBytes, pack, stats) ==
            PlanItems(target, checksum, NoSpecials(items), packBytes, pack, stats)
  {
    if items != [] {
      var item, rest := items[0], items[1..];
      assert items == [item] + rest;
      PlanStops(target, checksum, items, packBytes, pack, stats);
      PlanCons(target, checksum, item, rest, packBytes, pack, stats);
      if !item.SpecialItem? {
        PlanCons(target, checksum, item, NoSpecials(rest), packBytes, pack, stats);
      }
      hide ToWire, PlanItems, Opening, Overfills, AfterFile, Sendable;
      match item
      case SpecialItem(_) =>
        assert NoSpecials(items) == NoSpecials(rest);
        CompletePlanIsSendable(target, checksum, rest, packBytes, pack, stats);
      case DirItem(_) =>
        CompletePlanIsSendable(target, checksum, rest, packBytes, pack, stats.(directories := stats.directories + 1));
        SendableCons(item, NoSpecials(rest));
      case FileItem(_, size, _) =>
        var (packBytes', pack', stats') := AfterFile(target, size, packBytes, pack, stats);
        CompletePlanIsSendable(target, checksum, rest, packBytes', pack', stats');
        SendableCons(item, NoSpecials(rest));
    }
  }

  lemma PlanStops(target: nat, checksum: bool, items: seq<Item>, packBytes: nat, pack: nat, stats: R.Stats)
    requires items != [] && PlanItems(target, checksum, items, packBytes, pack, stats).ok
    ensures items[0].path != [] && ToWire(items[0].path).Some?
    ensures items[0].FileItem? ==> items[0].size <= |items[0].data|
  {
    hide ToWire;
  }

  /** The tree without its pipes, sockets and devices, which the receiver never hears of. */
  function Visible(entries: seq<Entry>): (r: seq<Entry>)
    ensures |r| == |entries|
    ensures forall i :: 0 <= i < |entries| ==> r[i].name == entries[i].name
    decreases entries
  {
    if entries == [] then []
    else
      [match entries[0]
       case Special(name) => Symlink(name)
       case DirEntry(name, sub) => DirEntry(name, Visible(sub))
       case e => e] + Visible(entries[1..])
  }

  lemma {:induction false} WalkOfVisible(prefix: Path, entries: seq<Entry>)
    ensures Walk(prefix, Visible(entries)) == NoSpecials(Walk(prefix, entries))
    decreases entries
  {
    if entries != [] {
      WalkOfVisible(prefix, entries[1..]);
      assert Visible(entries)[1..] == Visible(entries[1..]);
      var here, e, rest := prefix + [entries[0].name], entries[0], Walk(prefix, entries[1..]);
      match e
      case DirEntry(_, sub) =>
        WalkOfVisible(here, sub);
        NoSpecialsAppend([DirItem(here)] + Walk(here, sub), rest);
        NoSpecialsAppend([DirItem(here)], Walk(here, sub));
      case Symlink(_) =>
      case _ => NoSpecialsAppend([ItemOf(here, e)], rest);
    }
  }

  lemma {:induction false} VisibleGoodNames(entries: seq<Entry>)
    requires GoodNames(entries)
    ensures GoodNames(Visible(entries))
    decreases entries
  {
    if entries != [] {
      VisibleGoodNames(entries[1..]);
      if entries[0].DirEntry? { VisibleGoodNames(entries[0].entries); }
      assert Visible(entries)[1..] == Visible(entries[1..]);
    }
  }

  /** Reading one frame off the front of a plan. */
  lemma RunFrame(hash: R.Hasher, t: Tree, root: Path, stats: R.Stats, f: Frame, frames: seq<Frame>, x: Bytes)
    ensures R.Run(hash, t, root, stats, EncodeAll(hash, [f] + frames) + x) ==
      match R.Frame(hash, t, root, stats, Encode(hash, f) + (EncodeAll(hash, frames) + x))
      case Continue(t1, stats1, rest) => R.Run(hash, t1, root, stats1, rest)
      case Finish(stats1, rest) => R.Accepted(t, stats1, rest)
      case Abort(t1, e) => R.Rejected(t1, e)
  {
    hide R.Frame, Encode;
    assert ([f] + frames)[0] == f && ([f] + frames)[1..] == frames;
    assert EncodeAll(hash, [f] + frames) + x == Encode(hash, f) + (EncodeAll(hash, frames) + x);
  }

  /** The outcome that `ApplyAll` stands for. */
  predicate Rebuilds(o: R.Outcome, applied: (Tree, bool), stats: R.Stats, x: Bytes) {
    if applied.1 then o == R.Accepted(applied.0, stats, x) else o.Rejected? && o.tree == applied.0
  }

  /** Reading what the sender wrote for `items`, the receiver applies them in order and agrees on the statistics. */
  lemma {:induction false} RunPlan(hash: R.Hasher, target: nat, checksum: bool, items: seq<Item>, packBytes: nat,
                                   pack: nat, stats: R.Stats, t: Tree, root: Path, x: Bytes)
    requires Sendable(items)
    ensures var plan := PlanItems(target, checksum, items, packBytes, pack, stats);
      plan.ok && plan.cut == [] &&
      Rebuilds(R.Run(hash, t, root, stats, EncodeAll(hash, plan.frames) + x), ApplyAll(t, root, items), plan.stats, x)
    decreases |items|
  {
    var plan := PlanItems(target, checksum, items, packBytes, pack, stats);
    if items == [] {
      var end := End(stats.files, stats.directories, stats.bytes);
      RunFrame(hash, t, root, stats, PackEnd, [end], x);
      PackFramesArrive(hash, t, root, stats, 0, EncodeAll(hash, [end]) + x);
      RunFrame(hash, t, root, stats, end, [], x);
      assert [end] + [] == [end] && [PackEnd] + [end] == [PackEnd, end];
      assert EncodeAll(hash, []) + x == x;
      EndFrameArrives(hash, t, root, stats, x);
    } else if items[0].DirItem? {
      RunDirectory(hash, target, checksum, items, packBytes, pack, stats, t, root, x);
    } else {
      RunFile(hash, target, checksum, items, packBytes, pack, stats, t, root, x);
    }
  }

  lemma RunDirectory(hash: R.Hasher, target: nat, checksum: bool, items: seq<Item>, packBytes: nat, pack: nat,
                     stats: R.Stats, t: Tree, root: Path, x: Bytes)
    requires Sendable(items) && items != [] && items[0].DirItem?
    ensures var plan := PlanItems(target, checksum, items, packBytes, pack, stats);
      plan.ok && plan.cut == [] &&
      Rebuilds(R.Run(hash, t, root, stats, EncodeAll(hash, plan.frames) + x), ApplyAll(t, root, items), plan.stats, x)
    decreases |items|, 0
  {
    hide Encode, R.Frame, EncodeAll, R.Run, MakeDirs, ToWire, Segments;
    var path := ToWire(items[0].path).value;
    var stats' := stats.(directories := stats.directories + 1);
    var rest := PlanItems(target, checksum, items[1..], packBytes, pack, stats');
    RunFrame(hash, t, root, stats, DirectoryFrame(path), rest.frames, x);
    WireIsReadable(items[0].path);
    DirectoryFrameArrives(hash, t, root, stats, path, EncodeAll(hash, rest.frames) + x);
    RunPlan(hash, target, checksum, items[1..], packBytes, pack, stats', MakeDirs(t, root, Segments(path)).0, root, x);
  }

  lemma MarksArrive(hash: R.Hasher, t: Tree, root: Path, stats: R.Stats, pack: nat, frames: seq<Frame>, x: Bytes)
    ensures R.Run(hash, t, root, stats, EncodeAll(hash, [PackEnd] + ([PackStart(pack + 1)] + frames)) + x) ==
            R.Run(hash, t, root, stats.(packs := stats.packs + 1), EncodeAll(hash, frames) + x)
  {
    hide Encode, R.Frame, EncodeAll, R.Run;
    RunFrame(hash, t, root, stats, PackEnd, [PackStart(pack + 1)] + frames, x);
    PackFramesArrive(hash, t, root, stats, 0, EncodeAll(hash, [PackStart(pack + 1)] + frames) + x);
    RunFrame(hash, t, root, stats, PackStart(pack + 1), frames, x);
    PackFramesArrive(hash, t, root, stats, pack + 1, EncodeAll(hash, frames) + x);
  }

  /** The marks that open a file's pack are passed, whatever follows. */
  lemma OpeningArrives(hash: R.Hasher, t: Tree, root: Path, stats: R.Stats, target: nat, packBytes: nat, pack: nat,
                       size: nat, frames: seq<Frame>, x: Bytes)
    ensures var stats' := if Overfills(target, packBytes, size) then stats.(packs := stats.packs + 1) else stats;
      R.Run(hash, t, root, stats, EncodeAll(hash, Opening(target, packBytes, pack, size) + frames) + x) ==
      R.Run(hash, t, root, stats', EncodeAll(hash, frames) + x)
  {
    hide EncodeAll, R.Run;
    if Overfills(target, packBytes, size) {
      assert [PackEnd, PackStart(pack + 1)] + frames == [PackEnd] + ([PackStart(pack + 1)] + frames);
      MarksArrive(hash, t, root, stats, pack, frames, x);
    } else {
      assert [] + frames == frames;
    }
  }

  /** A planned file arriving: the marks that open its pack, its frame, and what follows. */
  lemma PlannedFileArrives(hash: R.Hasher, t: Tree, root: Path, stats: R.Stats, target: nat, packBytes: nat, pack: nat,
                           path: Bytes, content: Bytes, checksum: bool, frames: seq<Frame>, x: Bytes)
    requires ValidPath(path) && IsUtf8(path) && |content| < U64_LIMIT
    ensures var file := FileFrame(path, content, checksum);
      var (t', ok) := StoreNode(t, root, Segments(path), content);
      var stats' := AfterFile(target, |content|, packBytes, pack, stats).2;
      var o := R.Run(hash, t, root, stats,
                     EncodeAll(hash, Opening(target, packBytes, pack, |content|) + [file] + frames) + x);
      if ok then o == R.Run(hash, t', root, stats', EncodeAll(hash, frames) + x) else o.Rejected? && o.tree == t'
  {
    hide EncodeAll, R.Run, R.Frame, Encode, StoreNode, Segments, Opening, Overfills, ValidPath, IsUtf8;
    var file, opening := FileFrame(path, content, checksum), Opening(target, packBytes, pack, |content|);
    var stats' := if Overfills(target, packBytes, |content|) then stats.(packs := stats.packs + 1) else stats;
    assert opening + [file] + frames == opening + ([file] + frames);
    OpeningArrives(hash, t, root, stats, target, packBytes, pack, |content|, [file] + frames, x);
    RunFrame(hash, t, root, stats', file, frames, x);
    FileFrameArrives(hash, t, root, stats', path, content, checksum, EncodeAll(hash, frames) + x);
  }

  lemma RunFile(hash: R.Hasher, target: nat, checksum: bool, items: seq<Item>, packBytes: nat, pack: nat,
                stats: R.Stats, t: Tree, root: Path, x: Bytes)
    requires Sendable(items) && items != [] && items[0].FileItem?
    ensures var plan := PlanItems(target, checksum, items, packBytes, pack, stats);
      plan.ok && plan.cut == [] &&
      Rebuilds(R.Run(hash, t, root, stats, EncodeAll(hash, plan.frames) + x), ApplyAll(t, root, items), plan.stats, x)
    decreases |items|, 0
  {
    hide EncodeAll, R.Run, StoreNode, ToWire, Segments, AfterFile, PlanItems, Opening;
    var size, path := items[0].size, ToWire(items[0].path).value;
    var content := items[0].data[..size];
    var (packBytes', pack', stats') := AfterFile(target, size, packBytes, pack, stats);
    var rest := PlanItems(target, checksum, items[1..], packBytes', pack', stats');
    assert items == [items[0]] + items[1..];
    PlanCons(target, checksum, items[0], items[1..], packBytes, pack, stats);
    WireIsReadable(items[0].path);
    PlannedFileArrives(hash, t, root, stats, target, packBytes, pack, path, content, checksum, rest.frames, x);
    RunPlan(hash, target, checksum, items[1..], packBytes', pack', stats',
            StoreNode(t, root, Segments(path), content).0, root, x);
  }

  // ---- plans that break off -------------------------------------------------

  lemma NothingIsRejected(hash: R.Hasher, t: Tree, root: Path, stats: R.Stats)
    ensures R.Run(hash, t, root, stats, []).Rejected?
  {
  }

  /** A file header that announces more bytes than follow. */
  lemma CutFileIsRejected(hash: R.Hasher, t: Tree, root: Path, stats: R.Stats, path: Bytes, size: nat, checksum: bool,
                          data: Bytes)
    requires ValidPath(path) && IsUtf8(path) && size < U64_LIMIT && |data| < size
    ensures R.Run(hash, t, root, stats, FileHeaderBytes(path, size, checksum) + data).Rejected?
  {
    hide R.ReadFileHeader, FileHeaderBytes, R.DirectoryFrame, R.EndFrame, Segments, ValidPath, IsUtf8, MakeDirs,
      R.StagingPath;
    var b := FileHeaderBytes(path, size, checksum) + data;
    ReadsFileHeader(path, size, checksum, data);
    assert R.Frame(hash, t, root, stats, b) == R.FileFrame(hash, t, root, stats, b[1..]);
    assert R.FileFrame(hash, t, root, stats, b[1..]).Abort?;
  }

  /** What was sent before a transfer broke off is never accepted, whatever the receiver has counted. */
  lemma {:induction false} RunBrokenPlan(hash: R.Hasher, target: nat, checksum: bool, items: seq<Item>, packBytes: nat,
                                         pack: nat, stats: R.Stats, t: Tree, root: Path, counted: R.Stats)
    requires !PlanItems(target, checksum, items, packBytes, pack, stats).ok
    requires forall i :: 0 <= i < |items| && items[i].FileItem? ==> items[i].size < U64_LIMIT
    ensures var plan := PlanItems(target, checksum, items, packBytes, pack, stats);
      R.Run(hash, t, root, counted, EncodeAll(hash, plan.frames) + plan.cut).Rejected?
    decreases |items|, 1
  {
    var plan := PlanItems(target, checksum, items, packBytes, pack, stats);
    hide Encode, R.Frame, EncodeAll, R.Run, MakeDirs, StoreNode, ToWire, Segments, FileHeaderBytes, Opening, Overfills;
    if items[0].path == [] || ToWire(items[0].path).None? {
      assert EncodeAll(hash, []) + [] == [] by { EncodeNothing(hash); }
      NothingIsRejected(hash, t, root, counted);
    } else {
      var path := ToWire(items[0].path).value;
      WireIsReadable(items[0].path);
      match items[0]
      case SpecialItem(_) => RunBrokenPlan(hash, target, checksum, items[1..], packBytes, pack, stats, t, root,
                                           counted);
      case DirItem(_) =>
        var stats' := stats.(directories := stats.directories + 1);
        var rest := PlanItems(target, checksum, items[1..], packBytes, pack, stats');
        RunFrame(hash, t, root, counted, DirectoryFrame(path), rest.frames, rest.cut);
        DirectoryFrameArrives(hash, t, root, counted, path, EncodeAll(hash, rest.frames) + rest.cut);
        RunBrokenPlan(hash, target, checksum, items[1..], packBytes, pack, stats', MakeDirs(t, root, Segments(path)).0,
                      root, counted.(directories := counted.directories + 1));
      case FileItem(_, size, data) =>
        var counted' := if Overfills(target, packBytes, size) then counted.(packs := counted.packs + 1) else counted;
        var opening := Opening(target, packBytes, pack, size);
        if |data| < size {
          OpeningArrives(hash, t, root, counted, target, packBytes, pack, size, [], plan.cut);
          assert opening + [] == opening;
          EncodeNothing(hash);
          assert [] + plan.cut == plan.cut;
          CutFileIsRejected(hash, t, root, counted', path, size, checksum, data);
        } else {
          BrokenAfterFile(hash, target, checksum, items, packBytes, pack, stats, t, root, counted, path);
        }
    }
  }

  lemma EncodeNothing(hash: R.Hasher)
    ensures EncodeAll(hash, []) == []
  {
  }

  lemma BrokenAfterFile(hash: R.Hasher, target: nat, checksum: bool, items: seq<Item>, packBytes: nat, pack: nat,
                        stats: R.Stats, t: Tree, root: Path, counted: R.Stats, path: Bytes)
    requires items != [] && items[0].FileItem? && items[0].size <= |items[0].data| && items[0].path != []
    requires ToWire(items[0].path) == Some(path) && ValidPath(path) && IsUtf8(path)
    requires !PlanItems(target, checksum, items, packBytes, pack, stats).ok
    requires forall i :: 0 <= i < |items| && items[i].FileItem? ==> items[i].size < U64_LIMIT
    ensures var plan := PlanItems(target, checksum, items, packBytes, pack, stats);
      R.Run(hash, t, root, counted, EncodeAll(hash, plan.frames) + plan.cut).Rejected?
    decreases |items|, 0
  {
    hide EncodeAll, R.Run, StoreNode, ToWire, Segments, AfterFile, PlanItems, Opening, ValidPath, IsUtf8;
    var size, content := items[0].size, items[0].data[..items[0].size];
    var (packBytes', pack', stats') := AfterFile(target, size, packBytes, pack, stats);
    var rest := PlanItems(target, checksum, items[1..], packBytes', pack', stats');
    assert items == [items[0]] + items[1..];
    PlanCons(target, checksum, items[0], items[1..], packBytes, pack, stats);
    PlannedFileArrives(hash, t, root, counted, target, packBytes, pack, path, content, checksum, rest.frames, rest.cut);
    RunBrokenPlan(hash, target, checksum, items[1..], packBytes', pack', stats',
                  StoreNode(t, root, Segments(path), content).0, root,
                  AfterFile(target, size, packBytes, pack, counted).2);
  }
}
