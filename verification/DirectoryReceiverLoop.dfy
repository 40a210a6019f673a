/**
  `receive_directory` as it is written: loops over reads that return as many
  bytes as they like, and a file system changed in place. The methods are
  proved to compute `DirectoryReceiver.Decode`, whatever the reads return, and
  to pass through safe file-system states only: each is judged by the part of
  the stream that had been read when it came about.
*/
module DirectoryReceiverLoop {
  import opened Common
  import opened Wire
  import opened Paths
  import opened FileSystem
  import opened DirectoryReceiver

  const FILE_CHUNK_SIZE: nat := 2 * 1024 * 1024

  /** A network stream or an opened file: `bytes` is what is still to come, `taken` what has been read. */
  class Source {
    var bytes: Bytes
    ghost var taken: Bytes

    constructor (bytes: Bytes)
      ensures this.bytes == bytes && taken == []
    {
      this.bytes := bytes;
      taken := [];
    }

    ghost function All(): Bytes
      reads this
    {
      taken + bytes
    }

    /** One read: at least one byte and at most `limit`, unless the stream is over. */
    method Read(limit: nat) returns (chunk: Bytes)
      requires limit > 0
      modifies this
      ensures chunk + bytes == old(bytes) && |chunk| <= limit
      ensures chunk == [] <==> old(bytes) == []
      ensures taken == old(taken) + chunk
    {
      if bytes == [] {
        chunk := [];
      } else {
        var n :| 1 <= n <= limit && n <= |bytes|;
        chunk, bytes := bytes[..n], bytes[n..];
        taken := taken + chunk;
      }
    }

    /** `read_exact` */
    method ReadExact(n: nat) returns (r: Option<Bytes>)
      modifies this
      ensures if |old(bytes)| < n then r.None? else r == Some(old(bytes)[..n]) && bytes == old(bytes)[n..]
      ensures All() == old(All()) && old(taken) <= taken
    {
      var got: Bytes := [];
      while |got| < n
        invariant got + bytes == old(bytes) && |got| <= n && taken == old(taken) + got
        decreases n - |got|
      {
        var chunk := Read(n - |got|);
        if chunk == [] {
          assert |old(bytes)| == |got|;
          return None;
        }
        got := got + chunk;
      }
      return Some(got);
    }
  }

  /** A state of the disk, and what had been read from the stream when it came about. */
  datatype Moment = Moment(nodes: Tree, read: Bytes)

  /** The disk that is filled from `feed`: `history` is every state it has been in since it was created. */
  class Disk {
    var nodes: Tree
    ghost const feed: Source
    ghost var history: seq<Moment>

    constructor (nodes: Tree, ghost feed: Source)
      ensures this.nodes == nodes && this.feed == feed && history == [Moment(nodes, feed.taken)]
    {
      this.nodes := nodes;
      this.feed := feed;
      history := [Moment(nodes, feed.taken)];
    }

    method CreateDir(p: Path)
      requires p !in nodes
      modifies this
      ensures nodes == old(nodes)[p := Dir] && history == old(history) + [Moment(nodes, feed.taken)]
    {
      nodes := nodes[p := Dir];
      history := history + [Moment(nodes, feed.taken)];
    }

    /** `File::create`: makes or truncates, and refuses a directory. */
    method CreateFile(p: Path) returns (ok: bool)
      modifies this
      ensures ok == !IsDir(old(nodes), p)
      ensures !ok ==> unchanged(this)
      ensures ok ==> nodes == old(nodes)[p := File([])] && history == old(history) + [Moment(nodes, feed.taken)]
    {
      ok := !(p in nodes && nodes[p].Dir?);
      if ok {
        nodes := nodes[p := File([])];
        history := history + [Moment(nodes, feed.taken)];
      }
    }

    method Append(p: Path, data: Bytes)
      requires p in nodes && nodes[p].File?
      modifies this
      ensures nodes == old(nodes)[p := File(old(nodes)[p].content + data)] &&
        history == old(history) + [Moment(nodes, feed.taken)]
    {
      nodes := nodes[p := File(nodes[p].content + data)];
      history := history + [Moment(nodes, feed.taken)];
    }

    method Remove(p: Path)
      modifies this
      ensures nodes == old(nodes) - {p} && history == old(history) + [Moment(nodes, feed.taken)]
    {
      nodes := nodes - {p};
      history := history + [Moment(nodes, feed.taken)];
    }

    /** `rename` of a file: atomic, and refused when the target is a directory. */
    method Rename(from: Path, to: Path) returns (ok: bool)
      requires from in nodes && nodes[from].File?
      modifies this
      ensures ok == !IsDir(old(nodes), to)
      ensures !ok ==> unchanged(this)
      ensures ok ==> nodes == Renamed(old(nodes), from, to) && history == old(history) + [Moment(nodes, feed.taken)]
    {
      ok := !(to in nodes && nodes[to].Dir?);
      if ok {
        nodes := (nodes - {from})[to := nodes[from]];
        history := history + [Moment(nodes, feed.taken)];
      }
    }
  }

  // ---- safe states --------------------------------------------------------

  /** The FILE frames of a stream that are complete and, if they carry a digest, match it. */
  function CompletedFiles(hash: Hasher, b: Bytes): seq<(Path, Bytes)>
    decreases |b|
  {
    if b == [] then []
    else if b[0] == FRAME_DIRECTORY then
      if ReadPath(b[1..]).Got? then CompletedFiles(hash, ReadPath(b[1..]).rest) else []
    else if b[0] == FRAME_PACK_START then
      if |b| >= 9 then CompletedFiles(hash, b[9..]) else []
    else if b[0] == FRAME_PACK_END then CompletedFiles(hash, b[1..])
    else if b[0] == FRAME_FILE then
      var f := CompleteFile(hash, b[1..]);
      if f.Got? then [f.value] + CompletedFiles(hash, f.rest) else []
    else []
  }

  /** The file frame at the front of `b`, judged without looking at any file system. */
  function CompleteFile(hash: Hasher, b: Bytes): (r: Parsed<(Path, Bytes)>)
    ensures r.Got? ==> |r.rest| < |b|
  {
    match ReadFileHeader(b)
    case Bad(e) => Bad(e)
    case Got(header, rest) =>
      var footer := if header.checksum then 32 else 0;
      if |rest| < header.size + footer then Bad(UnexpectedEnd)
      else if header.checksum && hash(rest[..header.size]) != rest[header.size..header.size + 32] then
        Bad(ChecksumMismatch)
      else Got((Segments(header.path), rest[..header.size]), rest[header.size + footer..])
  }

  /** The files that the frames after the START frame complete. */
  function CompletedIn(hash: Hasher, b: Bytes): seq<(Path, Bytes)> {
    if b != [] && ReadPath(b[1..]).Got? then CompletedFiles(hash, ReadPath(b[1..]).rest) else []
  }

  /** The directory that a stream asks to be filled. */
  function RootOf(base: Path, b: Bytes): Path {
    if b != [] && ReadPath(b[1..]).Got? then base + Segments(ReadPath(b[1..]).value) else base
  }

  lemma CompleteFileExtends(hash: Hasher, b: Bytes, x: Bytes)
    requires CompleteFile(hash, b).Got?
    ensures CompleteFile(hash, b + x) == Got(CompleteFile(hash, b).value, CompleteFile(hash, b).rest + x)
  {
    hide ReadFileHeader, Segments;
    ReadFileHeaderExtends(b, x);
    var Got(header, rest) := ReadFileHeader(b);
    var footer := if header.checksum then 32 else 0;
    assert (rest + x)[..header.size] == rest[..header.size];
    if header.checksum {
      assert (rest + x)[header.size..header.size + 32] == rest[header.size..header.size + 32];
    }
    assert (rest + x)[header.size + footer..] == rest[header.size + footer..] + x;
  }

  /** More bytes complete more files. */
  lemma {:induction false} MoreIsCompleted(hash: Hasher, b: Bytes, x: Bytes)
    ensures forall f :: f in CompletedFiles(hash, b) ==> f in CompletedFiles(hash, b + x)
    decreases |b|
  {
    hide CompleteFile, ReadPath;
    if b != [] {
      assert (b + x)[0] == b[0] && (b + x)[1..] == b[1..] + x;
      if b[0] == FRAME_DIRECTORY && ReadPath(b[1..]).Got? {
        ReadPathExtends(b[1..], x);
        MoreIsCompleted(hash, ReadPath(b[1..]).rest, x);
      } else if b[0] == FRAME_PACK_START && |b| >= 9 {
        assert (b + x)[9..] == b[9..] + x;
        MoreIsCompleted(hash, b[9..], x);
      } else if b[0] == FRAME_PACK_END {
        MoreIsCompleted(hash, b[1..], x);
      } else if b[0] == FRAME_FILE && CompleteFile(hash, b[1..]).Got? {
        CompleteFileExtends(hash, b[1..], x);
        MoreIsCompleted(hash, CompleteFile(hash, b[1..]).rest, x);
      }
    }
  }

  lemma MoreIsCompletedIn(hash: Hasher, b: Bytes, x: Bytes)
    ensures forall f :: f in CompletedIn(hash, b) ==> f in CompletedIn(hash, b + x)
  {
    hide CompletedFiles, ReadPath;
    if b != [] && ReadPath(b[1..]).Got? {
      assert (b + x)[1..] == b[1..] + x;
      ReadPathExtends(b[1..], x);
      MoreIsCompleted(hash, ReadPath(b[1..]).rest, x);
    }
  }

  /** Below `root` by ordinary names alone. */
  predicate Inside(root: Path, p: Path) {
    Under(root, p) && AllOrdinary(p[|root|..])
  }

  predicate Delivered(root: Path, done: seq<(Path, Bytes)>, p: Path, node: Option<Node>) {
    Inside(root, p) && node.Some? && node.value.File? && (p[|root|..], node.value.content) in done
  }

  predicate StagingSlot(root: Path, p: Path) {
    Inside(root, p) && |p| > |root| && IsStagingName(p[|p| - 1])
  }

  /**
    Compared with `before`, a path holds its old content, is a new directory
    on the way to `root` or below it, bears a staging name, or holds the full
    content of one completed file; below `root` all its names are ordinary.
  */
  predicate SafeAt(before: Tree, root: Path, done: seq<(Path, Bytes)>, now: Tree, p: Path) {
    Get(now, p) == Get(before, p) ||
    (p !in before && Get(now, p) == Some(Dir) && (IsPrefix(p, root) || Inside(root, p))) ||
    StagingSlot(root, p) ||
    Delivered(root, done, p, Get(now, p))
  }

  ghost predicate Safe(before: Tree, root: Path, done: seq<(Path, Bytes)>, now: Tree) {
    forall p :: SafeAt(before, root, done, now, p)
  }

  /** Every state from `from` on is safe, judged by the frames that were complete when it came about. */
  ghost predicate AllSafe(hash: Hasher, before: Tree, root: Path, moments: seq<Moment>, from: nat) {
    forall i :: from <= i < |moments| ==> Safe(before, root, CompletedIn(hash, moments[i].read), moments[i].nodes)
  }

  ghost predicate SafeNow(hash: Hasher, before: Tree, root: Path, disk: Disk)
    reads disk, disk.feed
  {
    Safe(before, root, CompletedIn(hash, disk.feed.taken), disk.nodes)
  }

  lemma SafeWithNewDir(before: Tree, root: Path, done: seq<(Path, Bytes)>, now: Tree, dir: Path)
    requires Safe(before, root, done, now) && dir !in now && (IsPrefix(dir, root) || Inside(root, dir))
    ensures Safe(before, root, done, now[dir := Dir])
  {
    var next := now[dir := Dir];
    forall p ensures SafeAt(before, root, done, next, p) {
      assert SafeAt(before, root, done, now, p);
      if p == dir && dir in before {
        assert Get(now, dir) == None;
        assert StagingSlot(root, dir);
      }
    }
  }

  lemma SafeWithStaging(before: Tree, root: Path, done: seq<(Path, Bytes)>, now: Tree, next: Tree, slot: Path)
    requires Safe(before, root, done, now) && StagingSlot(root, slot)
    requires forall p :: p != slot ==> Get(next, p) == Get(now, p)
    ensures Safe(before, root, done, next)
  {
    forall p ensures SafeAt(before, root, done, next, p) {
      assert SafeAt(before, root, done, now, p);
    }
  }

  lemma SafeWithDelivery(before: Tree, root: Path, done: seq<(Path, Bytes)>, now: Tree, slot: Path, path: Path)
    requires Safe(before, root, done, now) && StagingSlot(root, slot) && slot in now && now[slot].File?
    requires (path, now[slot].content) in done && AllOrdinary(path)
    ensures Safe(before, root, done, Renamed(now, slot, root + path))
  {
    var next := Renamed(now, slot, root + path);
    assert (root + path)[|root|..] == path;
    forall p ensures SafeAt(before, root, done, next, p) {
      assert SafeAt(before, root, done, now, p);
    }
  }

  /** A state that is safe stays safe while more is read. */
  lemma SafeLater(hash: Hasher, before: Tree, root: Path, read: Bytes, read': Bytes, now: Tree)
    requires Safe(before, root, CompletedIn(hash, read), now) && read <= read'
    ensures Safe(before, root, CompletedIn(hash, read'), now)
  {
    hide CompletedIn, StagingSlot;
    assert read' == read + read'[|read|..];
    MoreIsCompletedIn(hash, read, read'[|read|..]);
    forall p ensures SafeAt(before, root, CompletedIn(hash, read'), now, p) {
      assert SafeAt(before, root, CompletedIn(hash, read), now, p);
    }
  }

  lemma NothingYet(hash: Hasher, before: Tree, root: Path, moments: seq<Moment>)
    ensures AllSafe(hash, before, root, moments, |moments|)
  {
  }

  /** Two stretches of safe states one after the other. */
  lemma SafeOn(hash: Hasher, before: Tree, root: Path, moments: seq<Moment>, more: seq<Moment>, from: nat)
    requires moments <= more && AllSafe(hash, before, root, moments, from) &&
      AllSafe(hash, before, root, more, |moments|)
    ensures AllSafe(hash, before, root, more, from)
  {
    hide Safe, CompletedIn;
  }

  // ---- methods ------------------------------------------------------------

  method CreateOne(disk: Disk, dir: Path, ghost hash: Hasher, ghost before: Tree, ghost root: Path)
    requires dir !in disk.nodes && (IsPrefix(dir, root) || Inside(root, dir)) && SafeNow(hash, before, root, disk)
    modifies disk
    ensures disk.nodes == old(disk.nodes)[dir := Dir] && SafeNow(hash, before, root, disk)
    ensures old(disk.history) <= disk.history
    ensures AllSafe(hash, before, root, disk.history, |old(disk.history)|)
  {
    hide Safe, CompletedIn, StagingSlot;
    SafeWithNewDir(before, root, CompletedIn(hash, disk.feed.taken), disk.nodes, dir);
    disk.CreateDir(dir);
  }

  /** `create_safe_directory`, and `create_dir_all` when `base` is the top. */
  method CreateDirectories(disk: Disk, base: Path, rest: Path, ghost hash: Hasher, ghost before: Tree, ghost root: Path)
    returns (ok: bool)
    requires SafeNow(hash, before, root, disk)
    requires base + rest == root || (Under(root, base) && Inside(root, base + rest))
    modifies disk
    ensures (disk.nodes, ok) == MakeDirs(old(disk.nodes), base, rest)
    ensures SafeNow(hash, before, root, disk)
    ensures old(disk.history) <= disk.history
    ensures AllSafe(hash, before, root, disk.history, |old(disk.history)|)
  {
    hide Safe, CompletedIn, StagingSlot, AllSafe;
    NothingYet(hash, before, root, disk.history);
    var current, k := base, 0;
    while k < |rest|
      invariant k <= |rest| && current == base + rest[..k]
      invariant MakeDirs(disk.nodes, current, rest[k..]) == MakeDirs(old(disk.nodes), base, rest)
      invariant SafeNow(hash, before, root, disk)
      invariant old(disk.history) <= disk.history
      invariant AllSafe(hash, before, root, disk.history, |old(disk.history)|)
    {
      var next := current + [rest[k]];
      assert next == base + rest[..k + 1];
      assert rest[k..][0] == rest[k] && rest[k..][1..] == rest[k + 1..];
      if next !in disk.nodes {
        assert IsPrefix(next, root) || Inside(root, next) by {
          assert next == (base + rest)[..|next|];
        }
        ghost var moments := disk.history;
        CreateOne(disk, next, hash, before, root);
        SafeOn(hash, before, root, moments, disk.history, |old(disk.history)|);
      } else if disk.nodes[next].File? {
        return false;
      }
      current, k := next, k + 1;
    }
    assert rest[|rest|..] == [];
    return true;
  }

  method ReadPathFrom(source: Source) returns (r: Result<Bytes, Error>)
    modifies source
    ensures source.All() == old(source.All()) && old(source.taken) <= source.taken
    ensures match ReadPath(old(source.bytes))
      case Got(path, rest) => r == Ok(path) && source.bytes == rest
      case Bad(e) => r == Err(e)
  {
    ghost var all := source.bytes;
    var prefix := source.ReadExact(4);
    if prefix.None? {
      return Err(UnexpectedEnd);
    }
    var length := FromBigEndian(prefix.value);
    if length == 0 || length > MAX_PATH_BYTES {
      return Err(BadPathLength);
    }
    assert |all| < 4 + length || all[4..][..length] == all[4..4 + length];
    var bytes := source.ReadExact(length);
    if bytes.None? {
      return Err(UnexpectedEnd);
    }
    assert bytes.value == all[4..4 + length] && source.bytes == all[4 + length..];
    if !IsUtf8(bytes.value) {
      return Err(NotUtf8);
    }
    if !ValidPath(bytes.value) {
      return Err(BadPath);
    }
    return Ok(bytes.value);
  }

  method ReadFileHeaderFrom(source: Source) returns (r: Result<FileHeader, Error>)
    modifies source
    ensures source.All() == old(source.All()) && old(source.taken) <= source.taken
    ensures match ReadFileHeader(old(source.bytes))
      case Got(header, rest) => r == Ok(header) && source.bytes == rest
      case Bad(e) => r == Err(e)
  {
    var path := ReadPathFrom(source);
    if path.Err? {
      return Err(path.error);
    }
    ghost var rest := source.bytes;
    var size := source.ReadExact(8);
    if size.None? {
      return Err(UnexpectedEnd);
    }
    var flag := source.ReadExact(1);
    if flag.None? {
      return Err(UnexpectedEnd);
    }
    assert flag.value == rest[8..][..1] && source.bytes == rest[8..][1..] == rest[9..];
    return Ok(FileHeader(path.value, FromBigEndian(size.value), flag.value[0] != 0));
  }

  /** The loop that walks back from 240 bytes to a character boundary. */
  method StemOf(name: Name) returns (stem: Bytes)
    ensures stem == Stem(name)
  {
    if |name| <= 240 {
      return name;
    }
    var limit: nat := 240;
    while limit > 0 && !CharBoundary(name, limit)
      invariant limit <= 240 && Boundary(name, limit) == Boundary(name, 240)
    {
      limit := limit - 1;
    }
    return name[..limit];
  }

  /** One turn of the copy loop: a chunk of at most `limit` bytes goes to the staging file. */
  method CopyChunk(source: Source, disk: Disk, slot: Path, limit: nat, ghost hash: Hasher, ghost before: Tree,
                   ghost root: Path) returns (chunk: Bytes)
    requires limit > 0 && slot in disk.nodes && disk.nodes[slot].File? && StagingSlot(root, slot)
    requires disk.feed == source && SafeNow(hash, before, root, disk)
    modifies source, disk
    ensures chunk + source.bytes == old(source.bytes) && |chunk| <= limit && (chunk == [] <==> old(source.bytes) == [])
    ensures source.taken == old(source.taken) + chunk
    ensures disk.nodes == old(disk.nodes)[slot := File(old(disk.nodes)[slot].content + chunk)]
    ensures SafeNow(hash, before, root, disk)
    ensures old(disk.history) <= disk.history
    ensures AllSafe(hash, before, root, disk.history, |old(disk.history)|)
  {
    hide Safe, CompletedIn, StagingSlot;
    ghost var now := disk.nodes;
    chunk := source.Read(limit);
    SafeLater(hash, before, root, old(source.taken), source.taken, now);
    if chunk == [] {
      assert now[slot].content + chunk == now[slot].content;
      return;
    }
    disk.Append(slot, chunk);
    SafeWithStaging(before, root, CompletedIn(hash, source.taken), now, disk.nodes, slot);
  }

  /** The copy loop: content bytes go to the staging file as they arrive. */
  method CopyContent(source: Source, disk: Disk, slot: Path, size: nat, ghost hash: Hasher, ghost before: Tree,
                     ghost root: Path) returns (copied: Bytes, ok: bool)
    requires disk.nodes == disk.nodes[slot := File([])] && StagingSlot(root, slot)
    requires disk.feed == source && SafeNow(hash, before, root, disk)
    modifies source, disk
    ensures ok == (|old(source.bytes)| >= size)
    ensures copied == if ok then old(source.bytes)[..size] else old(source.bytes)
    ensures ok ==> source.bytes == old(source.bytes)[size..]
    ensures disk.nodes == old(disk.nodes)[slot := File(copied)]
    ensures SafeNow(hash, before, root, disk)
    ensures source.All() == old(source.All()) && old(source.taken) <= source.taken
    ensures old(disk.history) <= disk.history
    ensures AllSafe(hash, before, root, disk.history, |old(disk.history)|)
  {
    hide Safe, CompletedIn, StagingSlot, AllSafe, SafeNow;
    NothingYet(hash, before, root, disk.history);
    copied := [];
    var remaining := size;
    while remaining > 0
      invariant 0 <= remaining == size - |copied| && copied + source.bytes == old(source.bytes)
      invariant source.taken == old(source.taken) + copied
      invariant disk.nodes == old(disk.nodes)[slot := File(copied)]
      invariant SafeNow(hash, before, root, disk)
      invariant old(disk.history) <= disk.history
      invariant AllSafe(hash, before, root, disk.history, |old(disk.history)|)
    {
      ghost var moments := disk.history;
      var limit := if remaining < FILE_CHUNK_SIZE then remaining else FILE_CHUNK_SIZE;
      var chunk := CopyChunk(source, disk, slot, limit, hash, before, root);
      SafeOn(hash, before, root, moments, disk.history, |old(disk.history)|);
      copied := copied + chunk;
      if chunk == [] {
        assert copied == old(source.bytes);
        return copied, false;
      }
      remaining := remaining - |chunk|;
    }
    assert |copied| == size && copied == (copied + source.bytes)[..size];
    ok := true;
  }

  /** The digest after the content, the removal on a mismatch, and the commit by renaming. */
  method Commit(hash: Hasher, source: Source, disk: Disk, slot: Path, root: Path, path: Path, content: Bytes,
                checksum: bool, ghost before: Tree) returns (e: Option<Error>)
    requires Get(disk.nodes, slot) == Some(File(content)) && StagingSlot(root, slot) && AllOrdinary(path)
    requires disk.feed == source && SafeNow(hash, before, root, disk)
    requires !checksum ==> (path, content) in CompletedIn(hash, source.taken)
    requires checksum && |source.bytes| >= 32 && hash(content) == source.bytes[..32] ==>
      (path, content) in CompletedIn(hash, source.taken + source.bytes[..32])
    modifies source, disk
    ensures CommitOutcome(hash, old(disk.nodes), slot, root + path, content, checksum, old(source.bytes), e, disk.nodes,
                          source.bytes)
    ensures SafeNow(hash, before, root, disk)
    ensures source.All() == old(source.All()) && old(source.taken) <= source.taken
    ensures old(disk.history) <= disk.history
    ensures AllSafe(hash, before, root, disk.history, |old(disk.history)|)
  {
    if checksum {
      ghost var b := source.bytes;
      var expected := source.ReadExact(32);
      SafeLater(hash, before, root, old(source.taken), source.taken, disk.nodes);
      if expected.None? {
        return Some(UnexpectedEnd);
      }
      if hash(content) != expected.value {
        ghost var now := disk.nodes;
        disk.Remove(slot);
        SafeWithStaging(before, root, CompletedIn(hash, source.taken), now, disk.nodes, slot);
        return Some(ChecksumMismatch);
      }
      TakenTo(old(source.taken), b, source.taken, 32);
    }
    SafeWithDelivery(before, root, CompletedIn(hash, source.taken), disk.nodes, slot, path);
    var renamed := disk.Rename(slot, root + path);
    e := if renamed then None else Some(CannotRename);
  }

  predicate CommitOutcome(hash: Hasher, t: Tree, slot: Path, dest: Path, content: Bytes, checksum: bool, b: Bytes,
                          e: Option<Error>, t': Tree, b': Bytes)
    requires slot in t
  {
    var footer := if checksum then 32 else 0;
    if |b| < footer then e == Some(UnexpectedEnd) && t' == t
    else if checksum && hash(content) != b[..32] then e == Some(ChecksumMismatch) && t' == t - {slot}
    else if IsDir(t, dest) then e == Some(CannotRename) && t' == t
    else e == None && t' == Renamed(t, slot, dest) && b' == b[footer..]
  }

  predicate StoreOutcome(s: Stored, e: Option<Error>, t': Tree, b': Bytes) {
    t' == s.tree &&
    match s.outcome
    case Got(_, rest) => e == None && b' == rest
    case Bad(error) => e == Some(error)
  }

  /** Once content and digest have been read, the file is among those that are complete. */
  predicate CompletesIn(hash: Hasher, path: Path, header: FileHeader, read: Bytes, b: Bytes) {
    ContentComplete(hash, header, b) ==>
      (path, b[..header.size]) in CompletedIn(hash, read + b[..header.size + if header.checksum then 32 else 0])
  }

  lemma CommitsIn(hash: Hasher, path: Path, header: FileHeader, read: Bytes, b: Bytes)
    requires CompletesIn(hash, path, header, read, b) && |b| >= header.size
    ensures var content, rest := b[..header.size], b[header.size..];
      if header.checksum then
        |rest| >= 32 && hash(content) == rest[..32] ==>
          (path, content) in CompletedIn(hash, read + content + rest[..32])
      else (path, content) in CompletedIn(hash, read + content)
  {
    hide CompletedIn;
    if header.checksum && |b| >= header.size + 32 {
      assert b[header.size..][..32] == b[header.size..header.size + 32];
      assert b[..header.size + 32] == b[..header.size] + b[header.size..][..32];
      assert read + b[..header.size + 32] == read + b[..header.size] + b[header.size..][..32];
    }
  }

  /** Reading `n` bytes moves them from what is to come to what has been read. */
  lemma TakenTo(read: Bytes, b: Bytes, read': Bytes, n: nat)
    requires n <= |b| && read' + b[n..] == read + b
    ensures read' == read + b[..n]
  {
    assert read + b == (read + b[..n]) + b[n..];
    assert |read'| == |read| + n;
    assert read' == (read' + b[n..])[..|read'|];
    assert read + b[..n] == ((read + b[..n]) + b[n..])[..|read'|];
  }

  /** Everything once the parent directory is there: the staging file, its content, the commit. */
  method StoreStaged(hash: Hasher, source: Source, disk: Disk, root: Path, path: Path, header: FileHeader,
                     ghost before: Tree) returns (e: Option<Error>)
    requires path != [] && AllOrdinary(path) && disk.feed == source && SafeNow(hash, before, root, disk)
    requires CompletesIn(hash, path, header, source.taken, source.bytes)
    modifies source, disk
    ensures StoreOutcome(StoreIn(hash, old(disk.nodes), root, path, header, old(source.bytes)), e, disk.nodes,
                         source.bytes)
    ensures SafeNow(hash, before, root, disk)
    ensures source.All() == old(source.All()) && old(source.taken) <= source.taken
    ensures old(disk.history) <= disk.history
    ensures AllSafe(hash, before, root, disk.history, |old(disk.history)|)
  {
    hide Stem, Boundary, Safe, StagingSlot, Renamed, CompletedIn;
    ghost var t1, b := disk.nodes, source.bytes;
    var stem := StemOf(path[|path| - 1]);
    var slot := root + (Parent(path) + [[DOT] + stem + PART_SUFFIX]);
    SlotIsStaging(root, path, slot);
    var created := disk.CreateFile(slot);
    if !created {
      return Some(CannotCreateFile);
    }
    SafeWithStaging(before, root, CompletedIn(hash, source.taken), t1, disk.nodes, slot);
    var content, complete := CopyContent(source, disk, slot, header.size, hash, before, root);
    assert disk.nodes == t1[slot := File(content)];
    if !complete {
      return Some(UnexpectedEnd);
    }
    CutTwice(b, header.size, if header.checksum then 32 else 0);
    TakenTo(old(source.taken), b, source.taken, header.size);
    CommitsIn(hash, path, header, old(source.taken), b);
    e := Commit(hash, source, disk, slot, root, path, content, header.checksum, before);
  }

  /** Everything after the file header. */
  method Store(hash: Hasher, source: Source, disk: Disk, root: Path, header: FileHeader,
               ghost before: Tree) returns (e: Option<Error>)
    requires disk.feed == source && SafeNow(hash, before, root, disk) && AllOrdinary(Segments(header.path))
    requires CompletesIn(hash, Segments(header.path), header, source.taken, source.bytes)
    modifies source, disk
    ensures StoreOutcome(StoreFile(hash, old(disk.nodes), root, header, old(source.bytes)), e, disk.nodes, source.bytes)
    ensures SafeNow(hash, before, root, disk)
    ensures source.All() == old(source.All()) && old(source.taken) <= source.taken
    ensures old(disk.history) <= disk.history
    ensures AllSafe(hash, before, root, disk.history, |old(disk.history)|)
  {
    hide MakeDirs, Segments, Safe, StoreIn, ContentComplete;
    var path := Segments(header.path);
    assert Under(root, root) && Inside(root, root + Parent(path));
    var made := CreateDirectories(disk, root, Parent(path), hash, before, root);
    if !made {
      return Some(NotADirectory);
    }
    e := StoreStaged(hash, source, disk, root, path, header, before);
  }

  lemma CutTwice(b: Bytes, n: nat, m: nat)
    requires n <= |b|
    ensures n + m <= |b| ==> b[n..][..m] == b[n..n + m] && b[n..][m..] == b[n + m..]
  {
  }

  lemma SlotIsStaging(root: Path, path: Path, slot: Path)
    requires path != [] && AllOrdinary(path) && slot == root + StagingPath(path)
    ensures StagingSlot(root, slot)
  {
    StagingNameIsStaging(path[|path| - 1]);
    assert slot[|slot| - 1] == StagingName(path[|path| - 1]);
  }

  predicate ContentComplete(hash: Hasher, header: FileHeader, b: Bytes) {
    var footer := if header.checksum then 32 else 0;
    |b| >= header.size + footer &&
    (header.checksum ==> hash(b[..header.size]) == b[header.size..header.size + 32])
  }

  /** What the body of the frame loop comes to. */
  datatype Progress = More(stats: Stats) | Done(stats: Stats) | Failed(error: Error)

  predicate Takes(step: Step, r: Progress, before: Tree, nodes: Tree, rest: Bytes) {
    match step
    case Continue(tree, stats, left) => r == More(stats) && nodes == tree && rest == left
    case Finish(stats, left) => r == Done(stats) && nodes == before && rest == left
    case Abort(tree, e) => r == Failed(e) && nodes == tree
  }

  /** One FILE frame after its tag. */
  method ReceiveFile(hash: Hasher, source: Source, disk: Disk, root: Path, stats: Stats,
                     ghost before: Tree) returns (r: Progress)
    requires disk.feed == source && SafeNow(hash, before, root, disk)
    requires var b := source.bytes;
      var f := CompleteFile(hash, b);
      f.Got? ==> f.value in CompletedIn(hash, source.taken + Front(b, f.rest))
    modifies source, disk
    ensures Takes(FileFrame(hash, old(disk.nodes), root, stats, old(source.bytes)), r, old(disk.nodes), disk.nodes,
                  source.bytes)
    ensures SafeNow(hash, before, root, disk)
    ensures source.All() == old(source.All()) && old(source.taken) <= source.taken
    ensures old(disk.history) <= disk.history
    ensures AllSafe(hash, before, root, disk.history, |old(disk.history)|)
  {
    hide ReadFileHeader, StoreFile, Segments, Safe;
    ghost var read, b := source.taken, source.bytes;
    var head := ReadFileHeaderFrom(source);
    SafeLater(hash, before, root, read, source.taken, disk.nodes);
    if head.Err? {
      return Failed(head.error);
    }
    var header := head.value;
    FileCompletesIn(hash, read, b, source.taken);
    ValidIsOrdinary(header.path);
    var e := Store(hash, source, disk, root, header, before);
    r := if e.Some? then Failed(e.value)
         else More(stats.(files := stats.files + 1, bytes := stats.bytes + header.size));
  }

  method ReceiveDirectoryEntry(source: Source, disk: Disk, root: Path, stats: Stats,
                               ghost hash: Hasher, ghost before: Tree) returns (r: Progress)
    requires disk.feed == source && SafeNow(hash, before, root, disk)
    modifies source, disk
    ensures Takes(DirectoryFrame(old(disk.nodes), root, stats, old(source.bytes)), r, old(disk.nodes), disk.nodes,
                  source.bytes)
    ensures SafeNow(hash, before, root, disk)
    ensures source.All() == old(source.All()) && old(source.taken) <= source.taken
    ensures old(disk.history) <= disk.history
    ensures AllSafe(hash, before, root, disk.history, |old(disk.history)|)
  {
    hide ReadPath, MakeDirs, Segments, Safe;
    ghost var read := source.taken;
    var path := ReadPathFrom(source);
    SafeLater(hash, before, root, read, source.taken, disk.nodes);
    if path.Err? {
      return Failed(path.error);
    }
    ValidIsOrdinary(path.value);
    assert Under(root, root) && Inside(root, root + Segments(path.value));
    var made := CreateDirectories(disk, root, Segments(path.value), hash, before, root);
    r := if made then More(stats.(directories := stats.directories + 1)) else Failed(NotADirectory);
  }

  /** The totals of the END frame, compared with what was received. */
  method CheckTotals(source: Source, stats: Stats, ghost t: Tree) returns (r: Progress)
    modifies source
    ensures source.All() == old(source.All()) && old(source.taken) <= source.taken
    ensures Takes(EndFrame(t, stats, old(source.bytes)), r, t, t, source.bytes)
  {
    var totals := source.ReadExact(24);
    if totals.None? {
      return Failed(UnexpectedEnd);
    }
    var b := totals.value;
    assert b[0..8] == b[..8] && b[16..24] == b[16..];
    if FromBigEndian(b[0..8]) != stats.files % U64_LIMIT || FromBigEndian(b[8..16]) != stats.directories % U64_LIMIT ||
       FromBigEndian(b[16..24]) != stats.bytes % U64_LIMIT {
      return Failed(TotalsMismatch);
    }
    return Done(stats);
  }

  /** The body of the frame loop. */
  method ReceiveFrame(hash: Hasher, source: Source, disk: Disk, root: Path, stats: Stats,
                      ghost before: Tree) returns (r: Progress)
    requires disk.feed == source && SafeNow(hash, before, root, disk) && AtFrame(hash, source.taken)
    modifies source, disk
    ensures Takes(Frame(hash, old(disk.nodes), root, stats, old(source.bytes)), r, old(disk.nodes), disk.nodes,
                  source.bytes)
    ensures SafeNow(hash, before, root, disk)
    ensures source.All() == old(source.All()) && old(source.taken) <= source.taken
    ensures old(disk.history) <= disk.history
    ensures AllSafe(hash, before, root, disk.history, |old(disk.history)|)
  {
    hide Safe, DirectoryFrame, FileFrame, EndFrame, CompleteFile;
    ghost var read, b := source.taken, source.bytes;
    var tag := source.ReadExact(1);
    SafeLater(hash, before, root, read, source.taken, disk.nodes);
    if tag.None? {
      return Failed(UnexpectedEnd);
    }
    assert tag.value[0] == b[0] && source.bytes == b[1..];
    if tag.value[0] == FRAME_DIRECTORY {
      r := ReceiveDirectoryEntry(source, disk, root, stats, hash, before);
    } else if tag.value[0] == FRAME_PACK_START {
      assert |b| >= 9 ==> b[1..][8..] == b[9..];
      var ignored := source.ReadExact(8);
      SafeLater(hash, before, root, read, source.taken, disk.nodes);
      r := if ignored.None? then Failed(UnexpectedEnd) else More(stats.(packs := stats.packs + 1));
    } else if tag.value[0] == FRAME_PACK_END {
      r := More(stats);
    } else if tag.value[0] == FRAME_FILE {
      FileFrameCompletes(hash, read, b, source.taken);
      r := ReceiveFile(hash, source, disk, root, stats, before);
    } else if tag.value[0] == FRAME_END {
      r := CheckTotals(source, stats, disk.nodes);
      SafeLater(hash, before, root, read, source.taken, disk.nodes);
    } else {
      r := Failed(UnknownFrame);
    }
  }

  /** Frames that a step has passed are the front of the completed files. */
  lemma CompletedAfter(hash: Hasher, t: Tree, root: Path, stats: Stats, b: Bytes)
    requires Frame(hash, t, root, stats, b).Continue?
    ensures forall f :: f in CompletedFiles(hash, Frame(hash, t, root, stats, b).rest) ==> f in CompletedFiles(hash, b)
  {
    hide ReadPath, DirectoryFrame, FileFrame, TotalsMatch, CompleteFile;
    if b[0] == FRAME_DIRECTORY {
      DirectoryRest(t, root, stats, b[1..]);
    } else if b[0] == FRAME_FILE {
      FileRest(hash, t, root, stats, b[1..]);
    }
  }

  lemma DirectoryRest(t: Tree, root: Path, stats: Stats, b: Bytes)
    requires DirectoryFrame(t, root, stats, b).Continue?
    ensures ReadPath(b).Got? && DirectoryFrame(t, root, stats, b).rest == ReadPath(b).rest
  {
    hide ReadPath, MakeDirs, Segments;
  }

  lemma FileRest(hash: Hasher, t: Tree, root: Path, stats: Stats, b: Bytes)
    requires FileFrame(hash, t, root, stats, b).Continue?
    ensures CompleteFile(hash, b).Got? && FileFrame(hash, t, root, stats, b).rest == CompleteFile(hash, b).rest
  {
    hide ReadFileHeader, MakeDirs, Segments, StagingPath, Renamed;
  }

  // ---- where a frame begins -----------------------------------------------

  /** What has been read ends with a frame: the files that come next complete as they would on their own. */
  ghost predicate AtFrame(hash: Hasher, read: Bytes) {
    forall x: Bytes, f :: f in CompletedFiles(hash, x) ==> f in CompletedIn(hash, read + x)
  }

  /** The bytes of `b` before `rest`. */
  function Front(b: Bytes, rest: Bytes): Bytes
    requires |rest| <= |b|
  {
    b[..|b| - |rest|]
  }

  lemma TakenFront(read: Bytes, b: Bytes, read': Bytes, rest: Bytes)
    requires |rest| <= |b| && b == Front(b, rest) + rest && read' + rest == read + b
    ensures read' == read + Front(b, rest)
  {
    assert b[|b| - |rest|..] == rest;
    TakenTo(read, b, read', |b| - |rest|);
  }

  lemma ReadPathFront(b: Bytes)
    requires ReadPath(b).Got?
    ensures var Got(path, rest) := ReadPath(b);
      |rest| < |b| && b == Front(b, rest) + rest && ReadPath(Front(b, rest)) == Got(path, [])
  {
    var rest := ReadPath(b).rest;
    var front := Front(b, rest);
    assert b == front + rest;
    ReadPathCuts(front, rest);
    ReadPathExtends(front, rest);
    assert |ReadPath(front).rest + rest| == |rest|;
  }

  lemma FrontOn(b: Bytes, left: Bytes, n: nat)
    requires |left| <= |b| && b == Front(b, left) + left && n <= |left|
    ensures Front(b, left[n..]) == Front(b, left) + left[..n] && b == Front(b, left[n..]) + left[n..]
  {
    var front := Front(b, left);
    assert |front| + n == |b| - |left[n..]|;
    assert b[..|front| + n] == front + left[..n];
    hide Front;
    assert left == left[..n] + left[n..];
    assert front + left[..n] + left[n..] == front + (left[..n] + left[n..]);
  }

  lemma FileHeaderFront(b: Bytes)
    requires ReadFileHeader(b).Got?
    ensures var Got(header, rest) := ReadFileHeader(b);
      |rest| < |b| && b == Front(b, rest) + rest && ReadFileHeader(Front(b, rest)) == Got(header, [])
  {
    hide FromBigEndian, ReadPath, Front, ValidPath;
    ReadPathFront(b);
    var Got(path, left) := ReadPath(b);
    var rest := left[9..];
    FrontOn(b, left, 9);
    ReadPathExtends(Front(b, left), left[..9]);
    assert [] + left[..9] == left[..9] && left[..9][..8] == left[..8] && left[..9][9..] == [];
  }

  lemma CompleteFileFront(hash: Hasher, b: Bytes)
    requires CompleteFile(hash, b).Got?
    ensures var Got(f, rest) := CompleteFile(hash, b);
      b == Front(b, rest) + rest && CompleteFile(hash, Front(b, rest)) == Got(f, [])
  {
    hide ReadFileHeader, Segments;
    FileHeaderFront(b);
    var Got(header, left) := ReadFileHeader(b);
    var n := header.size + if header.checksum then 32 else 0;
    FrontOn(b, left, n);
    hide Front;
    ReadFileHeaderExtends(Front(b, left), left[..n]);
    assert [] + left[..n] == left[..n] && left[..n][..header.size] == left[..header.size] && left[..n][n..] == [];
    if header.checksum {
      assert left[..n][header.size..header.size + 32] == left[header.size..header.size + 32];
    }
  }

  lemma OneFile(hash: Hasher, f: (Path, Bytes), front: Bytes)
    requires CompleteFile(hash, front) == Got(f, [])
    ensures f in CompletedFiles(hash, [FRAME_FILE] + front)
  {
    hide CompleteFile;
    assert ([FRAME_FILE] + front)[1..] == front;
  }

  lemma FromFrame(hash: Hasher, read: Bytes, x: Bytes, f: (Path, Bytes))
    requires AtFrame(hash, read) && f in CompletedFiles(hash, x)
    ensures f in CompletedIn(hash, read + x)
  {
    hide CompletedFiles, CompletedIn;
  }

  /** The tag of a FILE frame has been read: once the frame has been read, its file is complete. */
  lemma FileFrameCompletes(hash: Hasher, read: Bytes, b: Bytes, read': Bytes)
    requires AtFrame(hash, read) && b != [] && b[0] == FRAME_FILE && read' + b[1..] == read + b
    ensures var f := CompleteFile(hash, b[1..]);
      f.Got? ==> f.value in CompletedIn(hash, read' + Front(b[1..], f.rest))
  {
    hide CompleteFile, CompletedIn;
    TakenTo(read, b, read', 1);
    if CompleteFile(hash, b[1..]).Got? {
      var Got(f, rest) := CompleteFile(hash, b[1..]);
      CompleteFileFront(hash, b[1..]);
      var front := Front(b[1..], rest);
      hide Front, AtFrame;
      OneFile(hash, f, front);
      var frame := [FRAME_FILE] + front;
      assert read + b[..1] + front == read + frame;
      assert f in CompletedIn(hash, read + frame) by { FromFrame(hash, read, frame, f); }
    }
  }

  lemma HeaderThenContent(hash: Hasher, b: Bytes)
    requires ReadFileHeader(b).Got? && ContentComplete(hash, ReadFileHeader(b).value, ReadFileHeader(b).rest)
    ensures var Got(header, left) := ReadFileHeader(b);
      |left| >= header.size + (if header.checksum then 32 else 0) &&
      CompleteFile(hash, b) ==
      Got((Segments(header.path), left[..header.size]), left[header.size + (if header.checksum then 32 else 0)..])
  {
    hide ReadFileHeader, Segments;
  }

  /** The same once the file header has been read. */
  lemma FileCompletesIn(hash: Hasher, read: Bytes, b: Bytes, read': Bytes)
    requires ReadFileHeader(b).Got? && read' + ReadFileHeader(b).rest == read + b
    requires var f := CompleteFile(hash, b); f.Got? ==> f.value in CompletedIn(hash, read + Front(b, f.rest))
    ensures var Got(header, rest) := ReadFileHeader(b);
      CompletesIn(hash, Segments(header.path), header, read', rest)
  {
    hide ReadFileHeader, CompletedIn, Segments, CompleteFile, ContentComplete;
    FileHeaderFront(b);
    var Got(header, left) := ReadFileHeader(b);
    var n := header.size + if header.checksum then 32 else 0;
    TakenFront(read, b, read', left);
    if ContentComplete(hash, header, left) {
      HeaderThenContent(hash, b);
      FrontOn(b, left, n);
      hide Front;
      assert read + (Front(b, left) + left[..n]) == read' + left[..n];
    }
  }

  /** The frame that a step has taken off, followed by `x`: what `x` completes is complete. */
  lemma FramePassed(hash: Hasher, t: Tree, root: Path, stats: Stats, b: Bytes, x: Bytes)
    requires Frame(hash, t, root, stats, b).Continue?
    ensures var rest := Frame(hash, t, root, stats, b).rest;
      |rest| <= |b| && b == Front(b, rest) + rest &&
      forall f :: f in CompletedFiles(hash, x) ==> f in CompletedFiles(hash, Front(b, rest) + x)
  {
    hide ReadPath, DirectoryFrame, FileFrame, CompleteFile;
    var rest := Frame(hash, t, root, stats, b).rest;
    if b[0] == FRAME_DIRECTORY {
      DirectoryRest(t, root, stats, b[1..]);
      ReadPathFront(b[1..]);
      ReadPathExtends(Front(b[1..], rest), x);
      TagFirst(b, rest, x);
    } else if b[0] == FRAME_FILE {
      FileRest(hash, t, root, stats, b[1..]);
      CompleteFileFront(hash, b[1..]);
      CompleteFileExtends(hash, Front(b[1..], rest), x);
      TagFirst(b, rest, x);
    } else if b[0] == FRAME_PACK_START {
      assert (Front(b, rest) + x)[9..] == x;
    } else {
      assert (Front(b, rest) + x)[1..] == x;
    }
  }

  lemma TagFirst(b: Bytes, rest: Bytes, x: Bytes)
    requires b != [] && |rest| < |b| && b[1..] == Front(b[1..], rest) + rest
    ensures Front(b, rest) == [b[0]] + Front(b[1..], rest) && b == Front(b, rest) + rest
    ensures (Front(b, rest) + x)[0] == b[0] && (Front(b, rest) + x)[1..] == Front(b[1..], rest) + x
    ensures [] + x == x
  {
    var front := Front(b[1..], rest);
    assert b == [b[0]] + b[1..];
    assert b[..|b| - |rest|] == [b[0]] + front;
    assert Front(b, rest) == [b[0]] + front;
    hide Front;
    TagBefore(b[0], front, rest);
    TagBefore(b[0], front, x);
  }

  lemma TagBefore(tag: Byte, front: Bytes, x: Bytes)
    ensures [tag] + front + x == [tag] + (front + x)
    ensures ([tag] + front + x)[0] == tag && ([tag] + front + x)[1..] == front + x
  {
    assert [tag] + front + x == [tag] + (front + x);
  }

  lemma NextFrame(hash: Hasher, t: Tree, root: Path, stats: Stats, read: Bytes, b: Bytes, read': Bytes)
    requires AtFrame(hash, read) && Frame(hash, t, root, stats, b).Continue?
    requires read' + Frame(hash, t, root, stats, b).rest == read + b
    ensures AtFrame(hash, read')
  {
    hide Frame, CompletedFiles, CompletedIn;
    var rest := Frame(hash, t, root, stats, b).rest;
    FramePassed(hash, t, root, stats, b, []);
    TakenFront(read, b, read', rest);
    forall x: Bytes, f | f in CompletedFiles(hash, x) ensures f in CompletedIn(hash, read' + x) {
      FramePassed(hash, t, root, stats, b, x);
      assert read + (Front(b, rest) + x) == read' + x;
    }
  }

  /** The START frame and the name of the root have been read. */
  lemma StartFrameRead(hash: Hasher, b: Bytes, read: Bytes)
    requires b != [] && ReadPath(b[1..]).Got? && read + ReadPath(b[1..]).rest == b
    ensures AtFrame(hash, read)
  {
    hide CompletedFiles, ReadPath;
    var rest := ReadPath(b[1..]).rest;
    ReadPathFront(b[1..]);
    TagFirst(b, rest, []);
    assert read == Front(b, rest) by {
      assert |read| == |b| - |rest|;
      assert read == (read + rest)[..|read|];
    }
    forall x: Bytes, f | f in CompletedFiles(hash, x) ensures f in CompletedIn(hash, read + x) {
      TagFirst(b, rest, x);
      ReadPathExtends(Front(b[1..], rest), x);
    }
  }

  predicate Reaches(o: Outcome, r: Result<Stats, Error>, nodes: Tree, rest: Bytes) {
    match o
    case Accepted(tree, stats, left) => r == Ok(stats) && nodes == tree && rest == left
    case Rejected(tree, e) => r == Err(e) && nodes == tree
  }

  /** The frame loop. */
  method ReceiveFrames(hash: Hasher, source: Source, disk: Disk, root: Path, ghost before: Tree)
    returns (r: Result<Stats, Error>)
    requires disk.feed == source && SafeNow(hash, before, root, disk) && AtFrame(hash, source.taken)
    modifies source, disk
    ensures Reaches(Run(hash, old(disk.nodes), root, InitialStats, old(source.bytes)), r, disk.nodes, source.bytes)
    ensures source.All() == old(source.All())
    ensures old(disk.history) <= disk.history
    ensures AllSafe(hash, before, root, disk.history, |old(disk.history)|)
  {
    hide Safe, Frame, CompletedFiles;
    var stats := InitialStats;
    while true
      invariant Run(hash, disk.nodes, root, stats, source.bytes) ==
        Run(hash, old(disk.nodes), root, InitialStats, old(source.bytes))
      invariant SafeNow(hash, before, root, disk)
      invariant AtFrame(hash, source.taken)
      invariant source.All() == old(source.All()) && old(source.taken) <= source.taken
      invariant old(disk.history) <= disk.history
      invariant AllSafe(hash, before, root, disk.history, |old(disk.history)|)
      decreases |source.bytes|
    {
      ghost var t, b, read := disk.nodes, source.bytes, source.taken;
      FrameShrinks(hash, t, root, stats, b);
      var progress := ReceiveFrame(hash, source, disk, root, stats, before);
      match progress {
        case More(next) =>
          NextFrame(hash, t, root, stats, read, b, source.taken);
          stats := next;
        case Done(total) => return Ok(total);
        case Failed(e) => return Err(e);
      }
    }
  }

  /**
    `receive_directory`, for any byte stream and any way of cutting it into
    reads: the result and the file system are those of `Decode`, and every
    state that the file system passes through is safe, judged by the frames
    that were complete in what had been read by then.
  */
  method ReceiveDirectory(hash: Hasher, source: Source, disk: Disk, base: Path) returns (r: Result<Stats, Error>)
    requires disk.feed == source
    modifies source, disk
    ensures Reaches(Decode(hash, old(disk.nodes), base, old(source.bytes)), r, disk.nodes, source.bytes)
    ensures source.All() == old(source.bytes)
    ensures old(disk.history) <= disk.history
    ensures AllSafe(hash, old(disk.nodes), RootOf(base, old(source.bytes)), disk.history, |old(disk.history)|)
  {
    hide Run, MakeDirs, Segments, ReadPath, CompletedFiles;
    ghost var before, b := disk.nodes, source.bytes;
    source.taken := [];
    assert source.All() == b;
    var tag := source.ReadExact(1);
    if tag.None? {
      return Err(UnexpectedEnd);
    }
    assert tag.value[0] == b[0] && source.bytes == b[1..];
    if tag.value[0] != FRAME_START {
      return Err(NotADirectoryTransfer);
    }
    var name := ReadPathFrom(source);
    if name.Err? {
      return Err(name.error);
    }
    if |Segments(name.value)| != 1 {
      return Err(RootNotOneComponent);
    }
    var root := base + Segments(name.value);
    assert SafeNow(hash, before, root, disk) by {
      forall p ensures SafeAt(before, root, CompletedIn(hash, source.taken), before, p) { }
    }
    hide Safe;
    StartFrameRead(hash, b, source.taken);
    assert [] + root == root;
    var made := CreateDirectories(disk, [], root, hash, before, root);
    if !made {
      return Err(NotADirectory);
    }
    r := ReceiveFrames(hash, source, disk, root, before);
  }
}
