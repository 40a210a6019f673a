/**
  What `send_directory` emits, as a function of the source tree: the recursive
  walk, the greedy grouping of files into logical packs, and the frames.
*/
module DirectorySender {
  import opened Common
  import opened Wire
  import opened Paths
  import R = DirectoryReceiver

  /**
    A directory entry in the order the operating system lists it. `size` is
    what its metadata says, `data` what reading it gives. `Special` is a pipe, a
    socket or a device.
  */
  datatype Entry =
    | FileEntry(name: Name, size: nat, data: Bytes)
    | DirEntry(name: Name, entries: seq<Entry>)
    | Symlink(name: Name)
    | Special(name: Name)

  /** One thing to be sent, with its path below the source. Of a special item only the path is checked. */
  datatype Item = DirItem(path: Path) | FileItem(path: Path, size: nat, data: Bytes) | SpecialItem(path: Path)

  /** Pre-order: a directory before what it contains, in listing order. */
  function Walk(prefix: Path, entries: seq<Entry>): (items: seq<Item>)
    ensures forall i :: 0 <= i < |items| ==> |items[i].path| > |prefix| && IsPrefix(prefix, items[i].path)
    decreases entries
  {
    if entries == [] then []
    else
      var rest := Walk(prefix, entries[1..]);
      match entries[0]
      case Symlink(_) => rest
      case Special(name) => [SpecialItem(prefix + [name])] + rest
      case FileEntry(name, size, data) => [FileItem(prefix + [name], size, data)] + rest
      case DirEntry(name, sub) => [DirItem(prefix + [name])] + Walk(prefix + [name], sub) + rest
  }

  // ---- frames -------------------------------------------------------------

  datatype Frame =
    | DirectoryFrame(path: Bytes)
    | PackStart(number: nat)
    | FileFrame(path: Bytes, content: Bytes, checksum: bool)
    | PackEnd
    | End(files: nat, directories: nat, bytes: nat)

  function PathBytes(v: Bytes): Bytes {
    U32(|v|) + v
  }

  function FileHeaderBytes(path: Bytes, size: nat, checksum: bool): Bytes {
    [R.FRAME_FILE] + PathBytes(path) + U64(size) + [if checksum then 1 else 0]
  }

  function Encode(hash: R.Hasher, f: Frame): Bytes {
    match f
    case DirectoryFrame(path) => [R.FRAME_DIRECTORY] + PathBytes(path)
    case PackStart(number) => [R.FRAME_PACK_START] + U64(number)
    case FileFrame(path, content, checksum) =>
      FileHeaderBytes(path, |content|, checksum) + content + (if checksum then hash(content) else [])
    case PackEnd => [R.FRAME_PACK_END]
    case End(files, directories, bytes) => [R.FRAME_END] + U64(files) + U64(directories) + U64(bytes)
  }

  function EncodeAll(hash: R.Hasher, frames: seq<Frame>): Bytes {
    if frames == [] then [] else Encode(hash, frames[0]) + EncodeAll(hash, frames[1..])
  }

  // ---- packs --------------------------------------------------------------

  datatype StorageProfile = Hdd | Auto | Nvme

  function PackTarget(profile: StorageProfile): nat {
    match profile
    case Hdd => 16 * 1024 * 1024
    case Auto => 32 * 1024 * 1024
    case Nvme => 64 * 1024 * 1024
  }

  /** A file that would overfill a pack that already holds bytes goes to the next one. */
  predicate Overfills(target: nat, packBytes: nat, size: nat) {
    packBytes > 0 && packBytes + size > target
  }

  /**
    Frames sent, and unless `ok` the bytes of a file frame that was cut short
    because the source shrank.
  */
  datatype Plan = Plan(frames: seq<Frame>, cut: Bytes, ok: bool, stats: R.Stats)

  function Prepend(frames: seq<Frame>, p: Plan): Plan {
    p.(frames := frames + p.frames)
  }

  function Opening(target: nat, packBytes: nat, pack: nat, size: nat): seq<Frame> {
    if Overfills(target, packBytes, size) then [PackEnd, PackStart(pack + 1)] else []
  }

  function PlanItems(target: nat, checksum: bool, items: seq<Item>, packBytes: nat, pack: nat, stats: R.Stats): Plan {
    if items == [] then
      Plan([PackEnd, End(stats.files, stats.directories, stats.bytes)], [], true, stats)
    else if items[0].path == [] || ToWire(items[0].path).None? then
      Plan([], [], false, stats)
    else
      var path := ToWire(items[0].path).value;
      match items[0]
      case SpecialItem(_) => PlanItems(target, checksum, items[1..], packBytes, pack, stats)
      case DirItem(_) =>
        Prepend([DirectoryFrame(path)],
                PlanItems(target, checksum, items[1..], packBytes, pack, stats.(directories := stats.directories + 1)))
      case FileItem(_, size, data) =>
        var over := Overfills(target, packBytes, size);
        var opening := Opening(target, packBytes, pack, size);
        var stats' := if over then stats.(packs := stats.packs + 1) else stats;
        if |data| < size then
          Plan(opening, FileHeaderBytes(path, size, checksum) + data, false, stats')
        else
          Prepend(opening + [FileFrame(path, data[..size], checksum)],
                  PlanItems(target, checksum, items[1..], (if over then 0 else packBytes) + size,
                            if over then pack + 1 else pack,
                            stats'.(files := stats'.files + 1, bytes := stats'.bytes + size)))
  }

  const InitialStats := R.Stats(0, 1, 0, 1)

  /** All of `send_directory`: nothing at all when the root's own name cannot be sent. */
  datatype Emission = Emission(bytes: Bytes, ok: bool, stats: R.Stats)

  function PlanTree(profile: StorageProfile, checksum: bool, entries: seq<Entry>): Plan {
    Prepend([PackStart(0)], PlanItems(PackTarget(profile), checksum, Walk([], entries), 0, 0, InitialStats))
  }

  function Emit(hash: R.Hasher, profile: StorageProfile, checksum: bool, rootName: Name,
                entries: seq<Entry>): Emission {
    if ToWire([rootName]).None? then Emission([], false, InitialStats)
    else
      var plan := PlanTree(profile, checksum, entries);
      Emission([R.FRAME_START] + PathBytes(ToWire([rootName]).value) + EncodeAll(hash, plan.frames) + plan.cut,
               plan.ok, plan.stats)
  }

  lemma {:induction false} EncodeAllAppend(hash: R.Hasher, f: seq<Frame>, g: seq<Frame>)
    ensures EncodeAll(hash, f + g) == EncodeAll(hash, f) + EncodeAll(hash, g)
  {
    if f == [] {
      assert f + g == g;
    } else {
      assert (f + g)[0] == f[0] && (f + g)[1..] == f[1..] + g;
      EncodeAllAppend(hash, f[1..], g);
    }
  }

  // ---- the walk visits everything once ------------------------------------

  /** Names as a file system has them: not empty, no slash or NUL, and no two alike in one directory. */
  predicate GoodNames(entries: seq<Entry>)
    decreases entries
  {
    entries == [] ||
    (entries[0].name != [] && SLASH !in entries[0].name && 0 !in entries[0].name &&
     (forall i :: 1 <= i < |entries| ==> entries[i].name != entries[0].name) &&
     (entries[0].DirEntry? ==> GoodNames(entries[0].entries)) &&
     GoodNames(entries[1..]))
  }

  /** The file or directory at `path` below the directory with these entries. */
  function EntryAt(entries: seq<Entry>, path: Path): (e: Option<Entry>)
    requires path != []
    ensures e.Some? ==> e.value.FileEntry? || e.value.DirEntry?
    decreases entries
  {
    if entries == [] then None
    else if entries[0].name == path[0] && (entries[0].FileEntry? || entries[0].DirEntry?) then
      if |path| == 1 then Some(entries[0])
      else if entries[0].DirEntry? then EntryAt(entries[0].entries, path[1..])
      else None
    else EntryAt(entries[1..], path)
  }

  function ItemOf(path: Path, e: Entry): Item
    requires !e.Symlink?
  {
    match e
    case FileEntry(_, size, data) => FileItem(path, size, data)
    case DirEntry(_, _) => DirItem(path)
    case Special(_) => SpecialItem(path)
  }

  lemma {:induction false} NotListed(entries: seq<Entry>, path: Path)
    requires path != [] && forall i :: 0 <= i < |entries| ==> entries[i].name != path[0]
    ensures EntryAt(entries, path) == None
  {
    if entries != [] {
      NotListed(entries[1..], path);
    }
  }

  /** The walk emits exactly the files and directories that the tree holds. */
  lemma {:induction false} WalkIsComplete(prefix: Path, entries: seq<Entry>, path: Path, item: Item)
    requires GoodNames(entries) && path != [] && item.path == prefix + path && !item.SpecialItem?
    ensures item in Walk(prefix, entries) <==>
      EntryAt(entries, path).Some? && item == ItemOf(prefix + path, EntryAt(entries, path).value)
    decreases entries
  {
    if entries != [] {
      WalkIsComplete(prefix, entries[1..], path, item);
      var e, here := entries[0], prefix + [entries[0].name];
      if e.name == path[0] {
        NotListed(entries[1..], path);
        assert here + path[1..] == prefix + path;
        if |path| == 1 {
          assert prefix + path == here;
        } else if e.DirEntry? {
          WalkIsComplete(here, e.entries, path[1..], item);
        }
      } else {
        assert item.path[|prefix|] != e.name;
        assert forall p: Path :: IsPrefix(here, p) ==> p[|prefix|] == e.name;
      }
    }
  }

  lemma {:induction false} WalkNames(prefix: Path, entries: seq<Entry>, name: Name)
    requires forall i :: 0 <= i < |entries| ==> entries[i].name != name
    ensures forall i :: 0 <= i < |Walk(prefix, entries)| ==> Walk(prefix, entries)[i].path[|prefix|] != name
    decreases entries
  {
    if entries != [] {
      var here := prefix + [entries[0].name];
      WalkNames(prefix, entries[1..], name);
      assert forall p: Path :: IsPrefix(here, p) ==> p[|prefix|] == entries[0].name;
    }
  }

  /** No path is emitted twice. */
  predicate Distinct(items: seq<Item>) {
    forall i, j :: 0 <= i < j < |items| ==> items[i].path != items[j].path
  }

  lemma {:induction false} WalkIsDistinct(prefix: Path, entries: seq<Entry>)
    requires GoodNames(entries)
    ensures Distinct(Walk(prefix, entries))
    decreases entries
  {
    if entries != [] {
      var e, here := entries[0], prefix + [entries[0].name];
      var rest := Walk(prefix, entries[1..]);
      WalkIsDistinct(prefix, entries[1..]);
      WalkNames(prefix, entries[1..], e.name);
      if e.DirEntry? {
        WalkIsDistinct(here, e.entries);
        var sub := Walk(here, e.entries);
        forall i | 0 <= i < |sub| ensures sub[i].path != here && sub[i].path[|prefix|] == e.name {
          assert IsPrefix(here, sub[i].path);
        }
        assert Walk(prefix, entries) == [DirItem(here)] + sub + rest;
      }
    }
  }

  /** Every item's parent is the source itself or a directory emitted before it. */
  predicate ParentsFirst(prefix: Path, items: seq<Item>) {
    forall i :: 0 <= i < |items| ==> HasParent(prefix, items, i)
  }

  predicate HasParent(prefix: Path, items: seq<Item>, i: nat)
    requires i < |items|
  {
    var path := items[i].path;
    path != [] && (path[..|path| - 1] == prefix || exists j :: 0 <= j < i && items[j] == DirItem(path[..|path| - 1]))
  }

  lemma {:induction false} WalkParentsFirst(prefix: Path, entries: seq<Entry>)
    ensures ParentsFirst(prefix, Walk(prefix, entries))
    decreases entries
  {
    if entries != [] {
      var here := prefix + [entries[0].name];
      var rest := Walk(prefix, entries[1..]);
      WalkParentsFirst(prefix, entries[1..]);
      var first := if entries[0].Symlink? then [] else [ItemOf(here, entries[0])];
      var sub := if entries[0].DirEntry? then Walk(here, entries[0].entries) else [];
      if entries[0].DirEntry? { WalkParentsFirst(here, entries[0].entries); }
      assert Walk(prefix, entries) == first + sub + rest;
      assert here[..|here| - 1] == prefix;
      PrependSub(prefix, here, first, sub);
      AppendParentsFirst(prefix, first + sub, rest);
    }
  }

  lemma PrependSub(prefix: Path, here: Path, first: seq<Item>, sub: seq<Item>)
    requires ParentsFirst(prefix, first) && ParentsFirst(here, sub) && (sub != [] ==> first == [DirItem(here)])
    ensures ParentsFirst(prefix, first + sub)
  {
    var items := first + sub;
    forall i | 0 <= i < |items|
      ensures HasParent(prefix, items, i)
    {
      if i >= |first| {
        assert HasParent(here, sub, i - |first|);
        var parent := items[i].path[..|items[i].path| - 1];
        if parent != here {
          var j :| 0 <= j < i - |first| && sub[j] == DirItem(parent);
          assert items[j + |first|] == DirItem(parent);
        } else {
          assert items[0] == DirItem(here);
        }
      } else {
        assert HasParent(prefix, first, i);
        assert items[i] == first[i];
        assert forall j :: 0 <= j < i ==> items[j] == first[j];
      }
    }
  }

  lemma AppendParentsFirst(prefix: Path, a: seq<Item>, b: seq<Item>)
    requires ParentsFirst(prefix, a) && ParentsFirst(prefix, b)
    ensures ParentsFirst(prefix, a + b)
  {
    var items := a + b;
    forall i | 0 <= i < |items|
      ensures HasParent(prefix, items, i)
    {
      assert if i < |a| then HasParent(prefix, a, i) else HasParent(prefix, b, i - |a|);
      var parent := items[i].path[..|items[i].path| - 1];
      if i < |a| {
        if parent != prefix {
          var j :| 0 <= j < i && a[j] == DirItem(parent);
          assert items[j] == DirItem(parent);
        }
      } else if parent != prefix {
        var j :| 0 <= j < i - |a| && b[j] == DirItem(parent);
        assert items[j + |a|] == DirItem(parent);
      }
    }
  }
}
