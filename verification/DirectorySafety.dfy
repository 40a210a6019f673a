/**
  What any byte stream whatever can do to a file system: the safety of the
  states that `DirectoryReceiverLoop` passes through, as a statement about
  `DirectoryReceiver.Decode`.
*/
module DirectorySafety {
  import opened Common
  import opened Paths
  import opened FileSystem
  import opened DirectoryReceiver
  import opened DirectoryReceiverLoop

  lemma {:induction false} DirsAreSafe(before: Tree, root: Path, done: seq<(Path, Bytes)>, t: Tree, base: Path,
                                       rest: Path)
    requires Safe(before, root, done, t) && (base + rest == root || (Under(root, base) && Inside(root, base + rest)))
    ensures Safe(before, root, done, MakeDirs(t, base, rest).0)
    decreases |rest|
  {
    if rest != [] {
      var next := base + [rest[0]];
      assert next + rest[1..] == base + rest;
      assert IsPrefix(next, root) || Inside(root, next) by {
        assert next == (base + rest)[..|next|];
      }
      if next !in t {
        SafeWithNewDir(before, root, done, t, next);
        DirsAreSafe(before, root, done, t[next := Dir], next, rest[1..]);
      } else if t[next].Dir? {
        DirsAreSafe(before, root, done, t, next, rest[1..]);
      }
    }
  }

  lemma StoringIsSafe(hash: Hasher, before: Tree, root: Path, done: seq<(Path, Bytes)>, t: Tree, header: FileHeader,
                      b: Bytes)
    requires Safe(before, root, done, t) && AllOrdinary(Segments(header.path))
    requires ContentComplete(hash, header, b) ==> (Segments(header.path), b[..header.size]) in done
    ensures Safe(before, root, done, StoreFile(hash, t, root, header, b).tree)
  {
    hide Safe, MakeDirs, Segments, StagingPath, StagingSlot;
    var path := Segments(header.path);
    var t1 := MakeDirs(t, root, Parent(path)).0;
    assert Under(root, root) && Inside(root, root + Parent(path));
    DirsAreSafe(before, root, done, t, root, Parent(path));
    var slot := root + StagingPath(path);
    SlotIsStaging(root, path, slot);
    StagedIsSafe(before, root, done, t1, slot, b);
    if |b| >= header.size {
      var content := b[..header.size];
      var t2 := t1[slot := File(content)];
      StagedIsSafe(before, root, done, t1, slot, content);
      SafeWithStaging(before, root, done, t2, t2 - {slot}, slot);
      if ContentComplete(hash, header, b) {
        SafeWithDelivery(before, root, done, t2, slot, path);
      }
    }
  }

  lemma StagedIsSafe(before: Tree, root: Path, done: seq<(Path, Bytes)>, t: Tree, slot: Path, content: Bytes)
    requires Safe(before, root, done, t) && StagingSlot(root, slot)
    ensures Safe(before, root, done, t[slot := File(content)])
  {
    hide Safe, StagingSlot;
    SafeWithStaging(before, root, done, t, t[slot := File(content)], slot);
  }

  /** What a step leaves behind, whether or not the run goes on. */
  function TreeAfter(t: Tree, step: Step): Tree {
    if step.Finish? then t else step.tree
  }

  lemma FrameIsSafe(hash: Hasher, before: Tree, root: Path, done: seq<(Path, Bytes)>, t: Tree, stats: Stats, b: Bytes)
    requires Safe(before, root, done, t)
    requires forall f :: f in CompletedFiles(hash, b) ==> f in done
    ensures Safe(before, root, done, TreeAfter(t, Frame(hash, t, root, stats, b)))
  {
    hide Safe, MakeDirs, Segments, StoreFile, ReadPath, ReadFileHeader;
    assert Under(root, root);
    if b != [] && b[0] == FRAME_DIRECTORY {
      var path := ReadPath(b[1..]);
      if path.Got? {
        ValidIsOrdinary(path.value);
        assert Inside(root, root + Segments(path.value));
        DirsAreSafe(before, root, done, t, root, Segments(path.value));
      }
    } else if b != [] && b[0] == FRAME_FILE {
      FileFrameIsSafe(hash, before, root, done, t, stats, b);
    }
  }

  lemma FileFrameIsSafe(hash: Hasher, before: Tree, root: Path, done: seq<(Path, Bytes)>, t: Tree, stats: Stats,
                        b: Bytes)
    requires Safe(before, root, done, t) && b != [] && b[0] == FRAME_FILE
    requires forall f :: f in CompletedFiles(hash, b) ==> f in done
    ensures Safe(before, root, done, TreeAfter(t, FileFrame(hash, t, root, stats, b[1..])))
  {
    hide Safe, MakeDirs, Segments, StoreFile, ReadFileHeader;
    var head := ReadFileHeader(b[1..]);
    if head.Got? {
      assert ContentComplete(hash, head.value, head.rest) ==>
        CompleteFile(hash, b[1..]).Got? && CompleteFile(hash, b[1..]).value in CompletedFiles(hash, b);
      ValidIsOrdinary(head.value.path);
      StoringIsSafe(hash, before, root, done, t, head.value, head.rest);
    }
  }

  lemma {:induction false} RunIsSafe(hash: Hasher, before: Tree, root: Path, done: seq<(Path, Bytes)>, t: Tree,
                                     stats: Stats, b: Bytes)
    requires Safe(before, root, done, t)
    requires forall f :: f in CompletedFiles(hash, b) ==> f in done
    ensures Safe(before, root, done, Run(hash, t, root, stats, b).tree)
    decreases |b|
  {
    hide Safe, Frame, CompletedFiles;
    FrameIsSafe(hash, before, root, done, t, stats, b);
    FrameShrinks(hash, t, root, stats, b);
    var step := Frame(hash, t, root, stats, b);
    if step.Continue? {
      CompletedAfter(hash, t, root, stats, b);
      RunIsSafe(hash, before, root, done, step.tree, step.stats, step.rest);
    }
  }

  /**
    For any byte stream, well formed or not: afterwards every path that does
    not bear a staging name below the root holds what it held before, is a new
    directory on the way to the root or below it, or holds the full content of
    one completed FILE frame of the stream whose digest, if it has one, matched.
  */
  lemma DecodeIsSafe(hash: Hasher, t: Tree, base: Path, b: Bytes)
    ensures Safe(t, RootOf(base, b), CompletedIn(hash, b), Decode(hash, t, base, b).tree)
  {
    hide ReadPath, Segments, MakeDirs, Run, CompletedFiles;
    var root, done := RootOf(base, b), CompletedIn(hash, b);
    forall p ensures SafeAt(t, root, done, t, p) { }
    assert Safe(t, root, done, t);
    hide Safe;
    if b != [] && b[0] == FRAME_START && ReadPath(b[1..]).Got? && |Segments(ReadPath(b[1..]).value)| == 1 {
      assert [] + root == root;
      DirsAreSafe(t, root, done, t, [], root);
      RunIsSafe(hash, t, root, done, MakeDirs(t, [], root).0, InitialStats, ReadPath(b[1..]).rest);
    }
  }

  /** Outside the root nothing changes but that missing ancestors of the root are created. */
  lemma OutsideStays(hash: Hasher, t: Tree, base: Path, b: Bytes, p: Path)
    requires !Under(RootOf(base, b), p)
    ensures var now := Decode(hash, t, base, b).tree;
      Get(now, p) == Get(t, p) || (p !in t && Get(now, p) == Some(Dir) && IsPrefix(p, RootOf(base, b)))
  {
    hide Decode, RootOf, CompletedIn, StagingSlot;
    DecodeIsSafe(hash, t, base, b);
    assert SafeAt(t, RootOf(base, b), CompletedIn(hash, b), Decode(hash, t, base, b).tree, p);
    assert StagingSlot(RootOf(base, b), p) ==> Under(RootOf(base, b), p) by { SlotIsUnder(RootOf(base, b), p); }
  }

  lemma SlotIsUnder(root: Path, p: Path)
    ensures StagingSlot(root, p) ==> Under(root, p)
  {
  }

  // ---- where the changes lie, as the operating system reads paths -------------

  /** A path that differs leads below `root`, or is a directory that was missing on the way there. */
  predicate Confined(before: Tree, root: Path, now: Tree, p: Path) {
    Get(now, p) == Get(before, p) || Under(root, Resolve(p)) ||
    (p !in before && Get(now, p) == Some(Dir) && IsPrefix(Resolve(p), root))
  }

  lemma {:induction false} ResolvedPrefix(root: Path, k: nat)
    requires Resolve(root) == root && k <= |root|
    ensures Resolve(root[..k]) == root[..k]
    decreases |root| - k
  {
    if k < |root| {
      ResolvedPrefix(root, k + 1);
      LastIsOrdinary(root[..k + 1]);
      assert root[..k + 1][..k] == root[..k];
    } else {
      assert root[..k] == root;
    }
  }

  lemma {:induction false} ResolveIsShorter(p: Path)
    ensures |Resolve(p)| <= |p|
  {
    if p != [] {
      ResolveIsShorter(p[..|p| - 1]);
    }
  }

  lemma LastIsOrdinary(p: Path)
    requires p != [] && Resolve(p) == p
    ensures Resolve(p[..|p| - 1]) == p[..|p| - 1] && Ordinary(p[|p| - 1])
  {
    var n := |p| - 1;
    ResolveIsShorter(p[..n]);
    assert Resolve(p)[..|Resolve(p[..n])|] == Resolve(p[..n]) || |Resolve(p)| <= n;
  }

  lemma SafeIsConfined(before: Tree, root: Path, done: seq<(Path, Bytes)>, now: Tree, p: Path)
    requires SafeAt(before, root, done, now, p) && Resolve(root) == root
    ensures Confined(before, root, now, p)
  {
    if Inside(root, p) {
      ResolveBelow(root, p[|root|..]);
      assert root + p[|root|..] == p;
    } else if IsPrefix(p, root) {
      ResolvedPrefix(root, |p|);
    }
  }

  /** The root is the base itself, where nothing is created, or one ordinary name below it. */
  lemma RootIsBelow(base: Path, b: Bytes)
    requires Resolve(base) == base
    ensures Resolve(RootOf(base, b)) == RootOf(base, b) && Under(base, RootOf(base, b))
  {
    hide ReadPath, Segments, Resolve;
    if b != [] && ReadPath(b[1..]).Got? {
      var names := Segments(ReadPath(b[1..]).value);
      ValidIsOrdinary(ReadPath(b[1..]).value);
      ResolveBelow(base, names);
    }
  }

  /**
    For any byte stream, below a base without `.` and `..`: whatever path
    differs afterwards leads, as the operating system resolves it, into the one
    directory below the base that the stream names, or is a missing directory on
    the way there.
  */
  lemma NothingEscapes(hash: Hasher, t: Tree, base: Path, b: Bytes, p: Path)
    requires Resolve(base) == base
    ensures var now := Decode(hash, t, base, b).tree;
      Get(now, p) == Get(t, p) ||
      (b != [] && ReadPath(b[1..]).Got? &&
       var name := ReadPath(b[1..]).value;
       0x2f !in name && Ordinary(name) && Confined(t, base + [name], now, p))
  {
    var now := Decode(hash, t, base, b).tree;
    if Get(now, p) != Get(t, p) {
      ChangedMeansNamed(hash, t, base, b);
      var root := RootOf(base, b);
      hide Decode, CompletedIn, SafeAt, Confined, Resolve, Segments, ReadPath;
      RootIsBelow(base, b);
      DecodeIsSafe(hash, t, base, b);
      SafeIsConfined(t, root, CompletedIn(hash, b), now, p);
    }
  }

  lemma ChangedMeansNamed(hash: Hasher, t: Tree, base: Path, b: Bytes)
    requires Decode(hash, t, base, b).tree != t
    ensures b != [] && ReadPath(b[1..]).Got?
    ensures var name := ReadPath(b[1..]).value;
      0x2f !in name && Ordinary(name) && RootOf(base, b) == base + [name]
  {
    var name := ReadPath(b[1..]).value;
    ValidIsOrdinary(name);
    OneSegment(name);
    assert Ordinary(Segments(name)[0]);
    hide ReadPath, MakeDirs, Run;
  }

  lemma {:induction false} OneSegment(v: Bytes)
    ensures |Segments(v)| == 1 ==> 0x2f !in v
    ensures 0x2f !in v ==> Segments(v) == [v]
  {
    if SLASH in v {
      assert |Segments(v[FirstSlash(v) + 1..])| > 0;
    }
  }

  /** The same of every state on the way, for the loop that receives the stream. */
  lemma NothingEscapesOnTheWay(hash: Hasher, before: Tree, base: Path, b: Bytes, moments: seq<Moment>, from: nat,
                               i: nat, p: Path)
    requires AllSafe(hash, before, RootOf(base, b), moments, from) && from <= i < |moments|
    requires Resolve(base) == base
    ensures Confined(before, RootOf(base, b), moments[i].nodes, p) && Under(base, RootOf(base, b))
  {
    hide CompletedIn, Confined, Resolve, RootOf, SafeAt;
    RootIsBelow(base, b);
    SafeIsConfined(before, RootOf(base, b), CompletedIn(hash, moments[i].read), moments[i].nodes, p);
  }
}
