/**
  What the receiver builds from what the sender emits: the source tree below
  base/root, exactly when no name holds a backslash and no entry listed before
  a file bears that file's staging name.
*/
module DirectoryRoundTrip {
  import opened Common
  import opened Wire
  import opened Paths
  import opened FileSystem
  import R = DirectoryReceiver
  import opened DirectorySender
  import opened DirectoryCodec

  // ---- directories that exist already --------------------------------------

  lemma {:induction false} AncestorsAreDirs(t: Tree, p: Path, k: nat)
    requires WellFormed(t) && p in t && k < |p|
    ensures IsDir(t, p[..k])
    decreases |p|
  {
    if k < |p| - 1 {
      AncestorsAreDirs(t, Parent(p), k);
      assert Parent(p)[..k] == p[..k];
    }
  }

  lemma {:induction false} MakeDirsExisting(t: Tree, base: Path, rest: Path)
    requires WellFormed(t) && IsDir(t, base + rest)
    ensures MakeDirs(t, base, rest) == (t, true)
    decreases |rest|
  {
    if rest != [] {
      var next := base + [rest[0]];
      assert next + rest[1..] == base + rest;
      if |rest| > 1 {
        AncestorsAreDirs(t, base + rest, |next|);
        assert (base + rest)[..|next|] == next;
      } else {
        assert next == base + rest;
      }
      assert IsDir(t, next);
      MakeDirsExisting(t, next, rest[1..]);
    }
  }

  lemma {:induction false} MakeDirsLast(t: Tree, base: Path, rest: Path)
    requires WellFormed(t) && rest != [] && IsDir(t, base + Parent(rest)) && base + rest !in t
    ensures MakeDirs(t, base, rest) == (t[base + rest := Dir], true)
    decreases |rest|
  {
    var next := base + [rest[0]];
    assert next + rest[1..] == base + rest;
    if |rest| == 1 {
      assert rest == [rest[0]];
    } else {
      assert next + Parent(rest[1..]) == base + Parent(rest);
      if |rest| > 2 {
        AncestorsAreDirs(t, base + Parent(rest), |next|);
      }
      assert (base + Parent(rest))[..|next|] == next;
      if |rest| == 2 { assert base + Parent(rest) == next; }
      assert IsDir(t, next);
      MakeDirsLast(t, next, rest[1..]);
    }
  }

  // ---- the tree that ought to be there --------------------------------------

  predicate Whole(items: seq<Item>) {
    forall i :: 0 <= i < |items| ==> !items[i].SpecialItem? && (items[i].FileItem? ==> items[i].size <= |items[i].data|)
  }

  /** The items as nodes below `root`. */
  function Contents(root: Path, items: seq<Item>): Tree
    requires Whole(items)
    decreases |items|
  {
    if items == [] then map[]
    else
      var n := |items| - 1;
      Contents(root, items[..n])[root + items[n].path := NodeOf(items[n])]
  }

  lemma ContentsSnoc(root: Path, items: seq<Item>, item: Item)
    requires Whole(items) && !item.SpecialItem? && (item.FileItem? ==> item.size <= |item.data|)
    ensures Whole(items + [item]) &&
      Contents(root, items + [item]) == Contents(root, items)[root + item.path := NodeOf(item)]
  {
    assert (items + [item])[..|items|] == items;
    assert (items + [item])[|items|] == item;
  }

  lemma {:induction false} ContentsKeys(root: Path, items: seq<Item>, p: Path)
    requires Whole(items)
    ensures p in Contents(root, items) <==> exists i :: 0 <= i < |items| && p == root + items[i].path
    decreases |items|
  {
    if items != [] {
      var n := |items| - 1;
      ContentsKeys(root, items[..n], p);
      assert forall i :: 0 <= i < n ==> items[..n][i] == items[i];
    }
  }

  lemma {:induction false} ContentsAt(root: Path, items: seq<Item>, i: nat)
    requires Whole(items) && Distinct(items) && i < |items|
    ensures Get(Contents(root, items), root + items[i].path) == Some(NodeOf(items[i]))
    decreases |items|
  {
    var n := |items| - 1;
    if i < n {
      ContentsAt(root, items[..n], i);
      assert (root + items[i].path)[|root|..] == items[i].path;
      assert (root + items[n].path)[|root|..] == items[n].path;
    }
  }

  /** No entry that is walked before a file bears that file's staging name in the same directory. */
  predicate StagingSafe(items: seq<Item>) {
    forall i, j :: 0 <= i < j < |items| && items[j].FileItem? && items[j].path != [] ==>
      items[i].path != R.StagingPath(items[j].path)
  }

  predicate Plain(items: seq<Item>) {
    forall i :: 0 <= i < |items| ==>
      items[i].path != [] && ToWire(items[i].path).Some? && Received(items[i].path) == items[i].path
  }

  // ---- one item -------------------------------------------------------------

  lemma AddNode(t: Tree, p: Path, node: Node)
    requires WellFormed(t) && p != [] && IsDir(t, Parent(p)) && p !in t
    ensures WellFormed(t[p := node])
  {
    var t' := t[p := node];
    forall q | q in t' && q != [] ensures Get(t', Parent(q)) == Some(Dir) {
      assert q in t ==> Get(t, Parent(q)) == Some(Dir);
    }
  }

  lemma StoresNode(t: Tree, root: Path, path: Path, content: Bytes)
    requires WellFormed(t) && path != [] && IsDir(t, root + Parent(path)) && root + path !in t &&
      root + R.StagingPath(path) !in t
    ensures StoreNode(t, root, path, content) == (t[root + path := File(content)], true)
  {
    MakeDirsExisting(t, root, Parent(path));
    hide MakeDirs, WellFormed, R.StagingPath;
    var slot := root + R.StagingPath(path);
    assert Renamed(t[slot := File(content)], slot, root + path) == t[root + path := File(content)];
  }

  lemma StepBuilds(t: Tree, root: Path, item: Item)
    requires WellFormed(t) && Sendable([item]) && Plain([item]) && item.path != [] && Whole([item])
    requires item == [item][0] && IsDir(t, root + Parent(item.path)) && root + item.path !in t
    requires item.FileItem? ==> root + R.StagingPath(item.path) !in t
    ensures !item.SpecialItem? && (item.FileItem? ==> item.size <= |item.data|)
    ensures ApplyItem(t, root, item) == (t[root + item.path := NodeOf(item)], true)
    ensures WellFormed(t[root + item.path := NodeOf(item)])
  {
    assert [item][0] == item;
    assert Received(item.path) == item.path;
    hide WellFormed, R.StagingPath, ToWire, Received, StoreNode, MakeDirs;
    var p := root + item.path;
    assert Parent(p) == root + Parent(item.path);
    AddNode(t, p, NodeOf(item));
    match NodeOf(item)
    case Dir => MakeDirsLast(t, root, item.path);
    case File(content) => StoresNode(t, root, item.path, content);
  }

  /** The file system after the first items have been received. */
  predicate BuiltFrom(start: Tree, root: Path, done: seq<Item>, t: Tree)
    requires Whole(done)
  {
    WellFormed(t) && t == start + Contents(root, done)
  }

  predicate EmptyRoot(start: Tree, root: Path) {
    IsDir(start, root) && forall p :: p in start && Under(root, p) ==> p == root
  }

  lemma AbsentUnlessDone(start: Tree, root: Path, done: seq<Item>, path: Path)
    requires EmptyRoot(start, root) && Whole(done) && path != []
    requires forall i :: 0 <= i < |done| ==> done[i].path != path
    ensures root + path !in start + Contents(root, done)
  {
    ContentsKeys(root, done, root + path);
    assert (root + path)[|root|..] == path;
    assert forall i :: 0 <= i < |done| ==> (root + done[i].path)[|root|..] == done[i].path;
  }

  lemma ParentIsThere(start: Tree, root: Path, all: seq<Item>, k: nat)
    requires EmptyRoot(start, root) && Whole(all) && Distinct(all) && ParentsFirst([], all) && k < |all|
    ensures all[k].path != [] && IsDir(start + Contents(root, all[..k]), root + Parent(all[k].path))
  {
    assert HasParent([], all, k);
    var done := all[..k];
    var parent := Parent(all[k].path);
    if parent == [] {
      assert root + parent == root;
      ContentsKeys(root, done, root);
      forall i | 0 <= i < |done| ensures root != root + done[i].path {
        assert HasParent([], all, i);
        assert |root + done[i].path| > |root|;
      }
    } else {
      var j :| 0 <= j < k && all[j] == DirItem(parent);
      assert done[j] == DirItem(parent);
      ContentsAt(root, done, j);
    }
  }

  lemma NextIsFree(start: Tree, root: Path, all: seq<Item>, k: nat)
    requires EmptyRoot(start, root) && Whole(all) && Distinct(all) && ParentsFirst([], all) && k < |all| &&
      StagingSafe(all[..k + 1])
    ensures var t := start + Contents(root, all[..k]);
      all[k].path != [] && IsDir(t, root + Parent(all[k].path)) && root + all[k].path !in t &&
      (all[k].FileItem? ==> root + R.StagingPath(all[k].path) !in t)
  {
    var item := all[k];
    ParentIsThere(start, root, all, k);
    AbsentUnlessDone(start, root, all[..k], item.path);
    if item.FileItem? {
      forall i | 0 <= i < k ensures all[..k][i].path != R.StagingPath(item.path) {
        assert all[..k + 1][k] == item && all[..k + 1][i] == all[i];
      }
      AbsentUnlessDone(start, root, all[..k], R.StagingPath(item.path));
    }
  }

  lemma OneOf(all: seq<Item>, k: nat)
    requires Sendable(all) && Plain(all) && Whole(all) && k < |all|
    ensures Sendable([all[k]]) && Plain([all[k]]) && Whole([all[k]])
  {
  }

  lemma ContentsNext(start: Tree, root: Path, all: seq<Item>, k: nat)
    requires Whole(all) && k < |all|
    ensures start + Contents(root, all[..k + 1]) ==
      (start + Contents(root, all[..k]))[root + all[k].path := NodeOf(all[k])]
  {
    assert all[..k + 1] == all[..k] + [all[k]];
    ContentsSnoc(root, all[..k], all[k]);
  }

  lemma NextItem(start: Tree, root: Path, all: seq<Item>, k: nat)
    requires EmptyRoot(start, root) && Sendable(all) && Plain(all) && Distinct(all) && ParentsFirst([], all) &&
      k < |all|
    requires Whole(all) && BuiltFrom(start, root, all[..k], start + Contents(root, all[..k]))
    requires StagingSafe(all[..k + 1])
    ensures var t := start + Contents(root, all[..k]);
      Sendable([all[k]]) &&
      ApplyItem(t, root, all[k]) == (start + Contents(root, all[..k + 1]), true) &&
      BuiltFrom(start, root, all[..k + 1], start + Contents(root, all[..k + 1]))
  {
    NextIsFree(start, root, all, k);
    OneOf(all, k);
    ContentsNext(start, root, all, k);
    hide StagingSafe, Distinct, ParentsFirst, EmptyRoot, Plain, Sendable, Contents, ApplyItem, Received;
    StepBuilds(start + Contents(root, all[..k]), root, all[k]);
  }

  lemma StagingSafePrefix(items: seq<Item>, k: nat)
    requires k <= |items|
    ensures StagingSafe(items) ==> StagingSafe(items[..k])
  {
  }

  lemma ApplyCons(t: Tree, root: Path, item: Item, rest: seq<Item>)
    requires Sendable([item]) && Sendable(rest) && ApplyItem(t, root, item).1
    ensures Sendable([item] + rest) &&
      ApplyAll(t, root, [item] + rest) == ApplyAll(ApplyItem(t, root, item).0, root, rest)
  {
    assert [item][0] == item;
    assert ([item] + rest)[1..] == rest;
    hide ApplyItem, ToWire;
  }

  /** Items that do not get in each other's way are all rebuilt. */
  lemma {:induction false} AllBuilt(start: Tree, root: Path, all: seq<Item>, k: nat, m: nat)
    requires EmptyRoot(start, root) && Sendable(all) && Plain(all) && Distinct(all) && ParentsFirst([], all) &&
      k <= m <= |all|
    requires Whole(all) && BuiltFrom(start, root, all[..k], start + Contents(root, all[..k]))
    requires StagingSafe(all[..m])
    ensures Sendable(all[k..m]) &&
      ApplyAll(start + Contents(root, all[..k]), root, all[k..m]) == (start + Contents(root, all[..m]), true) &&
      BuiltFrom(start, root, all[..m], start + Contents(root, all[..m]))
    decreases m - k
  {
    hide ToWire, Received, ApplyItem, StagingSafe, EmptyRoot, BuiltFrom, Distinct, ParentsFirst, Sendable, Plain,
      Contents;
    if k == m {
      assert all[k..m] == [] && Sendable([]) by { NothingToSend(); }
    } else {
      StagingSafePrefix(all[..m], k + 1);
      assert all[..m][..k + 1] == all[..k + 1];
      assert Whole(all[..k]) && Whole(all[..k + 1]) && Whole(all[..m]);
      hide Whole;
      NextItem(start, root, all, k);
      AllBuilt(start, root, all, k + 1, m);
      var t, t' := start + Contents(root, all[..k]), start + Contents(root, all[..k + 1]);
      assert all[k..m] == [all[k]] + all[k + 1..m];
      OneMore(t, t', root, all[k], all[k + 1..m], start + Contents(root, all[..m]));
    }
  }

  lemma NothingToSend()
    ensures Sendable([])
  {
  }

  lemma OneMore(t: Tree, t': Tree, root: Path, item: Item, rest: seq<Item>, end: Tree)
    requires Sendable([item]) && Sendable(rest) && ApplyItem(t, root, item) == (t', true)
    requires ApplyAll(t', root, rest) == (end, true)
    ensures Sendable([item] + rest) && ApplyAll(t, root, [item] + rest) == (end, true)
  {
    hide Sendable, ApplyItem, ApplyAll;
    ApplyCons(t, root, item, rest);
  }

  // ---- when an earlier entry bears a staging name ---------------------------

  lemma {:induction false} ApplyAppend(t: Tree, root: Path, a: seq<Item>, b: seq<Item>)
    requires Sendable(a) && Sendable(b)
    ensures Sendable(a + b)
    ensures var (t1, ok) := ApplyAll(t, root, a);
      ApplyAll(t, root, a + b) == if ok then ApplyAll(t1, root, b) else (t1, false)
    decreases |a|
  {
    if a == [] {
      assert a + b == b;
    } else {
      assert [a[0]][0] == a[0];
      assert (a + b)[0] == a[0] && (a + b)[1..] == a[1..] + b;
      ApplyAppend(ApplyItem(t, root, a[0]).0, root, a[1..], b);
    }
  }

  lemma {:induction false} FirstCollision(items: seq<Item>) returns (i: nat, j: nat)
    requires !StagingSafe(items)
    ensures i < j < |items| && StagingSafe(items[..j])
    ensures items[j].FileItem? && items[j].path != [] && items[i].path == R.StagingPath(items[j].path)
    decreases |items|
  {
    hide R.StagingPath;
    var n := |items| - 1;
    if StagingSafe(items[..n]) {
      i, j :| 0 <= i < j < |items| && items[j].FileItem? && items[j].path != [] &&
              items[i].path == R.StagingPath(items[j].path);
      assert forall k :: 0 <= k < n ==> items[..n][k] == items[k];
    } else {
      i, j := FirstCollision(items[..n]);
      assert items[..n][..j] == items[..j];
    }
  }

  /** Receiving the file uses up the earlier entry, or fails on it. */
  lemma EntryIsLost(t: Tree, root: Path, item: Item)
    requires WellFormed(t) && Sendable([item]) && Plain([item]) && item == [item][0] && item.FileItem? &&
      item.path != []
    requires IsDir(t, root + Parent(item.path)) && R.StagingPath(item.path) != item.path
    ensures var (t', ok) := ApplyItem(t, root, item); ok ==> root + R.StagingPath(item.path) !in t'
  {
    MakeDirsExisting(t, root, Parent(item.path));
    assert (root + item.path)[|root|..] == item.path;
    assert (root + R.StagingPath(item.path))[|root|..] == R.StagingPath(item.path);
  }

  lemma PrefixBelow(root: Path, q: Path, rest: Path)
    ensures IsPrefix(root + q, root + rest) <==> IsPrefix(q, rest)
  {
    if |q| <= |rest| {
      assert (root + rest)[..|root + q|] == root + rest[..|q|];
      assert (root + q)[|root|..] == q && (root + rest[..|q|])[|root|..] == rest[..|q|];
    }
  }

  lemma DirsAvoid(t: Tree, root: Path, rest: Path, q: Path)
    requires root + q !in t && !IsPrefix(q, rest)
    ensures root + q !in MakeDirs(t, root, rest).0
  {
    MakeDirsEffect(t, root, rest);
    PrefixBelow(root, q, rest);
    assert Get(MakeDirs(t, root, rest).0, root + q) == Get(t, root + q);
  }

  lemma StoreAvoids(t: Tree, root: Path, path: Path, content: Bytes, q: Path)
    requires path != [] && root + q !in t && !IsPrefix(q, path)
    ensures var (t', ok) := StoreNode(t, root, path, content); ok ==> root + q !in t'
  {
    assert IsPrefix(q, Parent(path)) ==> IsPrefix(q, path);
    DirsAvoid(t, root, Parent(path), q);
    assert (root + path)[|root|..] == path && (root + q)[|root|..] == q;
    hide MakeDirs;
  }

  lemma ItemAvoids(t: Tree, root: Path, item: Item, q: Path)
    requires Sendable([item]) && Plain([item]) && item == [item][0] && item.path != []
    requires root + q !in t && !IsPrefix(q, item.path)
    ensures var (t', ok) := ApplyItem(t, root, item); ok ==> root + q !in t'
  {
    hide StoreNode, MakeDirs;
    match NodeOf(item)
    case Dir => DirsAvoid(t, root, item.path, q);
    case File(content) => StoreAvoids(t, root, item.path, content, q);
  }

  lemma {:induction false} StaysLost(t: Tree, root: Path, items: seq<Item>, q: Path)
    requires Sendable(items) && Plain(items) && q != [] && root + q !in t
    requires forall k :: 0 <= k < |items| ==> !IsPrefix(q, items[k].path)
    ensures var (t', ok) := ApplyAll(t, root, items); ok ==> root + q !in t'
    decreases |items|
  {
    if items != [] {
      OneOf2(items, 0);
      ItemAvoids(t, root, items[0], q);
      var (t1, ok) := ApplyItem(t, root, items[0]);
      hide ApplyItem;
      if ok {
        StaysLost(t1, root, items[1..], q);
      }
    }
  }

  lemma OneOf2(all: seq<Item>, k: nat)
    requires Sendable(all) && Plain(all) && k < |all|
    ensures Sendable([all[k]]) && Plain([all[k]]) && [all[k]][0] == all[k] && all[k].path != []
  {
  }

  /** A proper prefix of an item's path is a directory item. */
  lemma {:induction false} PrefixIsDirItem(all: seq<Item>, k: nat, q: Path)
    requires ParentsFirst([], all) && k < |all| && q != [] && IsPrefix(q, all[k].path) && q != all[k].path
    ensures exists j :: 0 <= j < |all| && all[j] == DirItem(q)
    decreases |all[k].path|
  {
    assert HasParent([], all, k);
    var parent := all[k].path[..|all[k].path| - 1];
    assert IsPrefix(q, parent);
    assert parent != [];
    var j :| 0 <= j < k && all[j] == DirItem(parent);
    if q != parent {
      PrefixIsDirItem(all, j, q);
    }
  }

  lemma OnlyOnce(all: seq<Item>, i: nat, k: nat)
    requires Distinct(all) && ParentsFirst([], all) && i < k < |all| && all[i].FileItem? && all[i].path != []
    ensures !IsPrefix(all[i].path, all[k].path)
  {
    if IsPrefix(all[i].path, all[k].path) {
      assert all[i].path != all[k].path;
      PrefixIsDirItem(all, k, all[i].path);
    }
  }

  /** From the colliding file on: the earlier entry is gone for good, or the transfer fails. */
  lemma TailOf(all: seq<Item>, j: nat)
    requires Sendable(all) && Plain(all) && j < |all|
    ensures Sendable(all[j..]) && Sendable(all[j + 1..]) && Plain(all[j + 1..])
    ensures all[j..] == [all[j]] + all[j + 1..]
  {
    hide ToWire, Received;
  }

  lemma CollisionCosts(t: Tree, root: Path, all: seq<Item>, i: nat, j: nat)
    requires Sendable(all) && Plain(all) && Distinct(all) && ParentsFirst([], all) && i < j < |all| && all[i].path != []
    requires all[i].FileItem? && all[j].FileItem? && all[j].path != [] && all[i].path == R.StagingPath(all[j].path)
    requires WellFormed(t) && IsDir(t, root + Parent(all[j].path)) && Sendable(all[j..])
    ensures var (t', ok) := ApplyAll(t, root, all[j..]); ok ==> root + all[i].path !in t'
  {
    assert all[i].path != all[j].path;
    NeverAgain(all, i, j);
    hide ToWire, Received, ApplyItem, ApplyAll, R.StagingPath, WellFormed, IsPrefix, Distinct, ParentsFirst;
    OneOf2(all, j);
    TailOf(all, j);
    EntryIsLost(t, root, all[j]);
    hide Plain, Sendable;
    var (t', ok) := ApplyItem(t, root, all[j]);
    if ok {
      StaysLost(t', root, all[j + 1..], all[i].path);
      ApplyCons(t, root, all[j], all[j + 1..]);
    } else {
      HeadFails(t, root, all[j], all[j + 1..]);
    }
  }

  /** No later path passes through a file that was emitted. */
  lemma NeverAgain(all: seq<Item>, i: nat, j: nat)
    requires Distinct(all) && ParentsFirst([], all) && i < j < |all| && all[i].FileItem? && all[i].path != []
    ensures var tail := all[j + 1..]; forall k :: 0 <= k < |tail| ==> !IsPrefix(all[i].path, tail[k].path)
  {
    hide IsPrefix, Distinct, ParentsFirst;
    var tail := all[j + 1..];
    forall k | 0 <= k < |tail| ensures !IsPrefix(all[i].path, tail[k].path) {
      assert tail[k] == all[j + 1 + k];
      OnlyOnce(all, i, j + 1 + k);
    }
  }

  lemma HeadFails(t: Tree, root: Path, item: Item, rest: seq<Item>)
    requires Sendable([item]) && Sendable([item] + rest) && !ApplyItem(t, root, item).1
    ensures !ApplyAll(t, root, [item] + rest).1
  {
    assert [item][0] == item && ([item] + rest)[0] == item;
    hide ApplyItem, ToWire;
  }

  /** The state in which the colliding file arrives. */
  lemma BeforeCollision(start: Tree, root: Path, all: seq<Item>, j: nat)
    requires EmptyRoot(start, root) && WellFormed(start) && j < |all|
    requires Sendable(all) && Plain(all) && Whole(all) && Distinct(all) && ParentsFirst([], all) &&
      StagingSafe(all[..j])
    ensures Sendable(all[j..])
    ensures var t := start + Contents(root, all[..j]);
      WellFormed(t) && all[j].path != [] && IsDir(t, root + Parent(all[j].path)) &&
      ApplyAll(start, root, all) == ApplyAll(t, root, all[j..])
  {
    assert all[..0] == [] && start + Contents(root, []) == start;
    AllBuilt(start, root, all, 0, j);
    assert all[0..j] == all[..j] && all[..j] + all[j..] == all;
    assert Sendable(all[j..]);
    ParentIsThere(start, root, all, j);
    ApplyAppend(start, root, all[..j], all[j..]);
  }

  /**
    Where an entry bears a later file's staging name, it is missing afterwards,
    or the transfer fails, and it always fails where the entry is a directory.
    Either way the result is not the source tree.
  */
  lemma Collides(start: Tree, root: Path, all: seq<Item>) returns (i: nat, j: nat)
    requires EmptyRoot(start, root) && WellFormed(start)
    requires Sendable(all) && Plain(all) && Whole(all) && Distinct(all) && ParentsFirst([], all) && !StagingSafe(all)
    ensures i < j < |all| && all[j].FileItem? && all[j].path != [] && all[i].path == R.StagingPath(all[j].path)
    ensures var (t, ok) := ApplyAll(start, root, all);
      if all[i].FileItem? then ok ==> root + all[i].path !in t else !ok
    ensures ApplyAll(start, root, all) != (start + Contents(root, all), true)
  {
    hide ToWire, Received, ApplyItem, EmptyRoot, WellFormed, ParentsFirst, ApplyAll, Contents, StagingSafe, Distinct;
    i, j := FirstCollision(all);
    BeforeCollision(start, root, all, j);
    ContentsAt(root, all, i);
    var t := start + Contents(root, all[..j]);
    if all[i].FileItem? {
      CollisionCosts(t, root, all, i, j);
    } else {
      DirectoryInTheWay(start, root, all, i, j);
    }
  }

  /** A directory that bears the staging name of a file makes the file fail. */
  lemma DirectoryInTheWay(start: Tree, root: Path, all: seq<Item>, i: nat, j: nat)
    requires Whole(all) && Distinct(all) && Sendable(all) && Plain(all) && i < j < |all| && Sendable(all[j..])
    requires all[i].DirItem? && all[j].FileItem? && all[j].path != [] && all[i].path == R.StagingPath(all[j].path)
    requires var t := start + Contents(root, all[..j]); WellFormed(t) && IsDir(t, root + Parent(all[j].path))
    ensures !ApplyAll(start + Contents(root, all[..j]), root, all[j..]).1
  {
    hide R.StagingPath, Plain, Sendable, WellFormed;
    var t := start + Contents(root, all[..j]);
    DirIsThere(start, root, all[..j], i);
    assert all[..j][i] == all[i];
    hide Contents, Distinct, Whole;
    assert IsDir(t, root + R.StagingPath(all[j].path));
    assert all[j..][0] == all[j];
    OneOf2(all, j);
    HeadBlocked(t, root, all[j..]);
  }

  lemma DirIsThere(start: Tree, root: Path, done: seq<Item>, i: nat)
    requires Whole(done) && Distinct(done) && i < |done| && done[i].DirItem?
    ensures IsDir(start + Contents(root, done), root + done[i].path)
  {
    ContentsAt(root, done, i);
  }

  lemma HeadBlocked(t: Tree, root: Path, items: seq<Item>)
    requires items != [] && Sendable(items) && Sendable([items[0]]) && Plain([items[0]]) && [items[0]][0] == items[0]
    requires items[0].FileItem? && items[0].path != [] && WellFormed(t) && IsDir(t, root + Parent(items[0].path))
    requires IsDir(t, root + R.StagingPath(items[0].path))
    ensures !ApplyAll(t, root, items).1
  {
    MakeDirsExisting(t, root, Parent(items[0].path));
    ItemBlocked(t, root, items[0]);
    hide ApplyItem, Sendable, Plain, WellFormed, R.StagingPath;
  }

  lemma ItemBlocked(t: Tree, root: Path, item: Item)
    requires Sendable([item]) && Plain([item]) && [item][0] == item && item.FileItem? && item.path != []
    requires MakeDirs(t, root, Parent(item.path)) == (t, true) && IsDir(t, root + R.StagingPath(item.path))
    ensures !ApplyItem(t, root, item).1
  {
    hide ToWire, Segments;
  }

  // ---- where received names can end up --------------------------------------

  /** Below `root`, everything that was not there at the start has names without a backslash. */
  ghost predicate Clean(start: Tree, root: Path, t: Tree) {
    forall p :: p in t ==> p in start || (Under(root, p) && BackslashFree(p[|root|..]))
  }

  lemma DirsAreClean(start: Tree, root: Path, t: Tree, rest: Path)
    requires Clean(start, root, t) && BackslashFree(rest)
    ensures Clean(start, root, MakeDirs(t, root, rest).0)
  {
    MakeDirsEffect(t, root, rest);
    var s := MakeDirs(t, root, rest).0;
    forall p | p in s && p !in start ensures Under(root, p) && BackslashFree(p[|root|..]) {
      assert Get(s, p) == Get(t, p) || (IsPrefix(p, root + rest) && |p| > |root|);
      if p !in t {
        assert p == (root + rest)[..|p|];
        assert (root + rest)[..|root|] == root;
        assert p[|root|..] == rest[..|p| - |root|];
      }
    }
  }

  lemma StoreIsClean(start: Tree, root: Path, t: Tree, path: Path, content: Bytes)
    requires Clean(start, root, t) && path != [] && BackslashFree(path)
    ensures Clean(start, root, StoreNode(t, root, path, content).0)
  {
    DirsAreClean(start, root, t, Parent(path));
    StagingNameIsStaging(path[|path| - 1]);
    assert BackslashFree(R.StagingPath(path));
    assert (root + path)[|root|..] == path && (root + path)[..|root|] == root;
    assert (root + R.StagingPath(path))[|root|..] == R.StagingPath(path);
    assert (root + R.StagingPath(path))[..|root|] == root;
    hide MakeDirs, R.StagingPath, BackslashFree;
  }

  lemma ItemIsClean(start: Tree, root: Path, t: Tree, item: Item)
    requires Clean(start, root, t) && Sendable([item]) && [item][0] == item
    ensures Clean(start, root, ApplyItem(t, root, item).0)
  {
    ValidHasNoBackslash(ToWire(item.path).value);
    hide Clean, MakeDirs, StoreNode, ToWire, Segments;
    match NodeOf(item)
    case Dir => DirsAreClean(start, root, t, Received(item.path));
    case File(content) => StoreIsClean(start, root, t, Received(item.path), content);
  }

  lemma {:induction false} ApplyAllIsClean(start: Tree, root: Path, t: Tree, items: seq<Item>)
    requires Clean(start, root, t) && Sendable(items)
    ensures Clean(start, root, ApplyAll(t, root, items).0)
    decreases |items|
  {
    if items != [] {
      assert [items[0]][0] == items[0];
      ItemIsClean(start, root, t, items[0]);
      var (t1, ok) := ApplyItem(t, root, items[0]);
      hide Clean, ApplyItem;
      if ok {
        ApplyAllIsClean(start, root, t1, items[1..]);
      }
    }
  }

  // ---- the directory that receives ------------------------------------------

  lemma {:induction false} MakeDirsWellFormed(t: Tree, base: Path, rest: Path)
    requires WellFormed(t) && IsDir(t, base)
    ensures WellFormed(MakeDirs(t, base, rest).0)
    decreases |rest|
  {
    if rest != [] {
      var next := base + [rest[0]];
      assert Parent(next) == base;
      if next !in t {
        AddNode(t, next, Dir);
        MakeDirsWellFormed(t[next := Dir], next, rest[1..]);
      } else if t[next].Dir? {
        MakeDirsWellFormed(t, next, rest[1..]);
      }
    }
  }

  /** Nothing exists at `root` yet, and nothing on the way to it is a file. */
  ghost predicate FreshRoot(t: Tree, root: Path) {
    WellFormed(t) && MakeDirs(t, [], root).1 && forall p :: p in t ==> !Under(root, p)
  }

  lemma RootIsEmpty(t: Tree, root: Path)
    requires FreshRoot(t, root)
    ensures WellFormed(MakeDirs(t, [], root).0) && EmptyRoot(MakeDirs(t, [], root).0, root)
  {
    MakeDirsWellFormed(t, [], root);
    MakeDirsEffect(t, [], root);
    var s := MakeDirs(t, [], root).0;
    assert [] + root == root;
    assert [] in t;
    assert root != [];
    assert ([] + root)[..|root|] == root;
    assert IsDir(s, root);
    forall p | p in s && Under(root, p) ensures p == root {
      assert Get(s, p) == Get(t, p) || IsPrefix(p, [] + root);
      assert p !in t;
    }
  }

  // ---- the same tree --------------------------------------------------------

  function NodeAt(entries: seq<Entry>, path: Path): Option<Node>
    requires path != []
  {
    match EntryAt(entries, path)
    case Some(DirEntry(_, _)) => Some(Dir)
    case Some(FileEntry(_, size, data)) => Some(File(if size <= |data| then data[..size] else data))
    case _ => None
  }

  /** Below `root`, `t` holds the files and directories of the source tree and nothing else; outside it is `start`. */
  ghost predicate Mirrors(start: Tree, root: Path, entries: seq<Entry>, t: Tree) {
    forall p :: Get(t, p) ==
      if Under(root, p) && p != root then NodeAt(entries, p[|root|..]) else Get(start, p)
  }

  /** What the receiver is told about. */
  function Sent(entries: seq<Entry>): seq<Item> {
    NoSpecials(Walk([], entries))
  }

  lemma SentIsInOrder(entries: seq<Entry>)
    requires GoodNames(entries)
    ensures Distinct(Sent(entries)) && ParentsFirst([], Sent(entries))
  {
    WalkOfVisible([], entries);
    VisibleGoodNames(entries);
    WalkIsDistinct([], Visible(entries));
    WalkParentsFirst([], Visible(entries));
  }

  lemma SentIsComplete(entries: seq<Entry>, item: Item)
    requires GoodNames(entries) && item.path != [] && !item.SpecialItem?
    ensures item in Sent(entries) <==>
      EntryAt(entries, item.path).Some? && item == ItemOf(item.path, EntryAt(entries, item.path).value)
  {
    NoSpecialsMembers(Walk([], entries), item);
    assert [] + item.path == item.path;
    WalkIsComplete([], entries, item.path, item);
  }

  lemma ContentsIsNode(root: Path, entries: seq<Entry>, path: Path)
    requires GoodNames(entries) && path != [] && Whole(Sent(entries)) && Distinct(Sent(entries)) &&
      ParentsFirst([], Sent(entries))
    ensures Get(Contents(root, Sent(entries)), root + path) == NodeAt(entries, path)
  {
    var items := Sent(entries);
    ContentsKeys(root, items, root + path);
    if EntryAt(entries, path).Some? {
      var item := ItemOf(path, EntryAt(entries, path).value);
      SentIsComplete(entries, item);
      var i :| 0 <= i < |items| && items[i] == item;
      ContentsAt(root, items, i);
    } else {
      forall i | 0 <= i < |items| ensures root + items[i].path != root + path {
        assert items[i] in items && (root + path)[|root|..] == path &&
          (root + items[i].path)[|root|..] == items[i].path;
        assert HasParent([], items, i);
        SentIsComplete(entries, items[i]);
      }
    }
  }

  /** The tree that the items describe is the mirrored one, and no other tree is. */
  lemma MirrorIsContents(start: Tree, root: Path, entries: seq<Entry>, t: Tree)
    requires GoodNames(entries) && EmptyRoot(start, root) && Whole(Sent(entries))
    ensures Mirrors(start, root, entries, t) <==> t == start + Contents(root, Sent(entries))
  {
    SentIsInOrder(entries);
    var there := start + Contents(root, Sent(entries));
    forall p
      ensures Get(there, p) == if Under(root, p) && p != root then NodeAt(entries, p[|root|..]) else Get(start, p)
    {
      MirrorAt(start, root, entries, p);
    }
    hide NodeAt, Sent, Contents;
    if Mirrors(start, root, entries, t) {
      forall p ensures Get(t, p) == Get(there, p) { }
      SameNodes(t, there);
    }
  }

  lemma SameNodes(t: Tree, u: Tree)
    requires forall p :: Get(t, p) == Get(u, p)
    ensures t == u
  {
    forall p ensures p in t <==> p in u {
      assert Get(t, p) == Get(u, p);
    }
    forall p | p in t ensures t[p] == u[p] {
      assert Get(t, p) == Get(u, p);
    }
    assert t.Keys == u.Keys;
  }

  lemma MirrorAt(start: Tree, root: Path, entries: seq<Entry>, p: Path)
    requires GoodNames(entries) && EmptyRoot(start, root) && Whole(Sent(entries)) && Distinct(Sent(entries)) &&
      ParentsFirst([], Sent(entries))
    ensures Get(start + Contents(root, Sent(entries)), p) ==
      if Under(root, p) && p != root then NodeAt(entries, p[|root|..]) else Get(start, p)
  {
    if Under(root, p) && p != root {
      InsideAt(start, root, entries, p);
    } else {
      OutsideAt(root, Sent(entries), p);
    }
  }

  lemma InsideAt(start: Tree, root: Path, entries: seq<Entry>, p: Path)
    requires GoodNames(entries) && EmptyRoot(start, root) && Whole(Sent(entries)) && Distinct(Sent(entries)) &&
      ParentsFirst([], Sent(entries))
    requires Under(root, p) && p != root
    ensures Get(start + Contents(root, Sent(entries)), p) == NodeAt(entries, p[|root|..])
  {
    assert p == root + p[|root|..];
    ContentsIsNode(root, entries, p[|root|..]);
    hide Sent, NodeAt, Whole, Distinct, ParentsFirst;
    assert p !in start;
  }

  lemma OutsideAt(root: Path, items: seq<Item>, p: Path)
    requires Whole(items) && ParentsFirst([], items) && (!Under(root, p) || p == root)
    ensures p !in Contents(root, items)
  {
    ContentsKeys(root, items, p);
    forall i | 0 <= i < |items| ensures p != root + items[i].path {
      assert HasParent([], items, i);
      assert (root + items[i].path)[..|root|] == root;
      assert |root + items[i].path| > |root|;
    }
  }

  // ---- the round trip -------------------------------------------------------

  /**
    What a caller can check before sending: no name holds a backslash, and no
    entry that is listed before a file bears its staging name.
  */
  predicate Representable(name: Name, items: seq<Item>) {
    BACKSLASH !in name && (forall i :: 0 <= i < |items| ==> BackslashFree(items[i].path)) && StagingSafe(items)
  }

  lemma {:induction false} WalkSlashFree(prefix: Path, entries: seq<Entry>)
    requires SlashFree(prefix) && GoodNames(entries)
    ensures forall i :: 0 <= i < |Walk(prefix, entries)| ==> SlashFree(Walk(prefix, entries)[i].path)
    decreases entries
  {
    if entries != [] {
      WalkSlashFree(prefix, entries[1..]);
      if entries[0].DirEntry? { WalkSlashFree(prefix + [entries[0].name], entries[0].entries); }
    }
  }

  lemma SentIsPlain(entries: seq<Entry>)
    requires GoodNames(entries) && Sendable(Sent(entries))
    requires forall i :: 0 <= i < |Sent(entries)| ==> BackslashFree(Sent(entries)[i].path)
    ensures Plain(Sent(entries))
  {
    var items := Sent(entries);
    WalkOfVisible([], entries);
    VisibleGoodNames(entries);
    WalkSlashFree([], Visible(entries));
    forall i | 0 <= i < |items| ensures items[i].path != [] && Received(items[i].path) == items[i].path {
      WireIsPath(items[i].path);
    }
  }

  lemma PlainIsBuilt(start: Tree, root: Path, items: seq<Item>)
    requires WellFormed(start) && EmptyRoot(start, root) && Sendable(items) && Whole(items)
    requires Plain(items) && Distinct(items) && ParentsFirst([], items)
    ensures ApplyAll(start, root, items) == (start + Contents(root, items), true) <==> StagingSafe(items)
  {
    if StagingSafe(items) {
      assert items[..0] == [] && start + Contents(root, []) == start && items[0..|items|] == items == items[..|items|];
      AllBuilt(start, root, items, 0, |items|);
    } else {
      var i, j := Collides(start, root, items);
    }
  }

  /** Applying what was sent gives the mirrored tree exactly when the tree is representable. */
  lemma AppliedIsMirror(start: Tree, root: Path, entries: seq<Entry>)
    requires GoodNames(entries) && WellFormed(start) && EmptyRoot(start, root) && Sendable(Sent(entries))
    ensures var items := Sent(entries); var (t, ok) := ApplyAll(start, root, items);
      (ok && Mirrors(start, root, entries, t)) <==>
      ((forall i :: 0 <= i < |items| ==> BackslashFree(items[i].path)) && StagingSafe(items))
  {
    var items := Sent(entries);
    SentIsInOrder(entries);
    assert Whole(items);
    MirrorIsContents(start, root, entries, ApplyAll(start, root, items).0);
    hide ApplyAll, Mirrors, Contents, StagingSafe, WellFormed;
    if i :| 0 <= i < |items| && !BackslashFree(items[i].path) {
      LosesBackslash(start, root, items, i);
    } else {
      SentIsPlain(entries);
      PlainIsBuilt(start, root, items);
    }
  }

  /** A path with a backslash in a name is not there afterwards. */
  lemma LosesBackslash(start: Tree, root: Path, items: seq<Item>, i: nat)
    requires EmptyRoot(start, root) && Sendable(items) && Whole(items) && i < |items| && !BackslashFree(items[i].path)
    ensures root + items[i].path !in ApplyAll(start, root, items).0
    ensures ApplyAll(start, root, items).0 != start + Contents(root, items)
  {
    var p := root + items[i].path;
    ApplyAllIsClean(start, root, start, items);
    ContentsKeys(root, items, p);
    assert Under(root, p) && p[|root|..] == items[i].path && p != root;
    assert p !in start;
    assert p !in ApplyAll(start, root, items).0;
  }

  /** A root whose name is sent changed arrives as more than one component. */
  lemma {:induction false} SegmentsOfSlashed(v: Bytes)
    ensures |Segments(v)| == 1 <==> SLASH !in v
  {
  }

  lemma RunFirstPack(hash: R.Hasher, frames: seq<Frame>, t: Tree, root: Path)
    ensures R.Run(hash, t, root, R.InitialStats, EncodeAll(hash, [PackStart(0)] + frames)) ==
            R.Run(hash, t, root, InitialStats, EncodeAll(hash, frames))
  {
    hide R.Run, R.Frame, Encode, EncodeAll;
    var body, all := EncodeAll(hash, frames), EncodeAll(hash, [PackStart(0)] + frames);
    assert body + [] == body && all + [] == all;
    RunFrame(hash, t, root, R.InitialStats, PackStart(0), frames, []);
    PackFramesArrive(hash, t, root, R.InitialStats, 0, body);
  }

  lemma RunTree(hash: R.Hasher, profile: StorageProfile, checksum: bool, entries: seq<Entry>, t: Tree, root: Path)
    requires PlanTree(profile, checksum, entries).ok
    requires forall i :: 0 <= i < |Walk([], entries)| && Walk([], entries)[i].FileItem? ==>
      Walk([], entries)[i].size < U64_LIMIT
    ensures Sendable(Sent(entries))
    ensures var plan := PlanTree(profile, checksum, entries);
      plan.cut == [] &&
      Rebuilds(R.Run(hash, t, root, R.InitialStats, EncodeAll(hash, plan.frames)), ApplyAll(t, root, Sent(entries)),
               plan.stats, [])
  {
    var items, target := Walk([], entries), PackTarget(profile);
    hide Walk, PlanItems, EncodeAll, R.Run;
    CompletePlanIsSendable(target, checksum, items, 0, 0, InitialStats);
    var plan := PlanItems(target, checksum, Sent(entries), 0, 0, InitialStats);
    RunPlan(hash, target, checksum, Sent(entries), 0, 0, InitialStats, t, root, []);
    assert EncodeAll(hash, plan.frames) + [] == EncodeAll(hash, plan.frames);
    RunFirstPack(hash, plan.frames, t, root);
  }

  /** Reading the START frame. */
  lemma DecodeStart(hash: R.Hasher, t: Tree, base: Path, wire: Bytes, body: Bytes)
    requires ValidPath(wire) && IsUtf8(wire) && MakeDirs(t, [], base + Segments(wire)).1
    ensures var o := R.Decode(hash, t, base, [R.FRAME_START] + PathBytes(wire) + body);
      var root := base + Segments(wire);
      o == if |Segments(wire)| != 1 then R.Rejected(t, R.RootNotOneComponent)
           else R.Run(hash, MakeDirs(t, [], root).0, root, R.InitialStats, body)
  {
    var b := [R.FRAME_START] + PathBytes(wire) + body;
    assert b[1..] == PathBytes(wire) + body;
    ReadsPath(wire, body);
    hide R.ReadPath, PathBytes, Segments, R.Run, ValidPath, IsUtf8, MakeDirs;
  }

  lemma DecodeSlashed(hash: R.Hasher, t: Tree, base: Path, wire: Bytes, body: Bytes)
    requires ValidPath(wire) && IsUtf8(wire) && SLASH in wire
    ensures R.Decode(hash, t, base, [R.FRAME_START] + PathBytes(wire) + body).Rejected?
  {
    var b := [R.FRAME_START] + PathBytes(wire) + body;
    assert b[1..] == PathBytes(wire) + body;
    ReadsPath(wire, body);
    SegmentsOfSlashed(wire);
    hide R.ReadPath, PathBytes, Segments, R.Run, ValidPath, IsUtf8, MakeDirs;
  }

  /** The stream of a complete emission, read from the start. */
  lemma DecodeEmission(hash: R.Hasher, profile: StorageProfile, checksum: bool, name: Name, entries: seq<Entry>,
                       t: Tree, base: Path)
    requires Emit(hash, profile, checksum, name, entries).ok && SLASH !in name
    requires forall i :: 0 <= i < |Walk([], entries)| && Walk([], entries)[i].FileItem? ==>
      Walk([], entries)[i].size < U64_LIMIT
    requires MakeDirs(t, [], base + [name]).1
    ensures Sendable(Sent(entries))
    ensures var e := Emit(hash, profile, checksum, name, entries);
      var o := R.Decode(hash, t, base, e.bytes);
      if BACKSLASH in name then o.Rejected?
      else Rebuilds(o, ApplyAll(MakeDirs(t, [], base + [name]).0, base + [name], Sent(entries)), e.stats, [])
  {
    var wire, root := ToWire([name]).value, base + [name];
    var frames := PlanTree(profile, checksum, entries).frames;
    RunTree(hash, profile, checksum, entries, MakeDirs(t, [], root).0, root);
    WireIsReadable([name]);
    assert Joined([name]) == name;
    var body := EncodeAll(hash, frames);
    assert Emit(hash, profile, checksum, name, entries).bytes == [R.FRAME_START] + PathBytes(wire) + body;
    if BACKSLASH in name {
      var i :| 0 <= i < |name| && name[i] == BACKSLASH;
      assert wire[i] == SLASH;
      DecodeSlashed(hash, t, base, wire, body);
    } else {
      WireIsPath([name]);
      DecodeStart(hash, t, base, wire, body);
    }
  }

  /**
    The round trip: below `base`, the receiver accepts exactly the bytes sent,
    agrees on all four statistics and holds the source tree and nothing else,
    if and only if the tree is representable.
  */
  lemma RoundTrip(hash: R.Hasher, profile: StorageProfile, checksum: bool, name: Name, entries: seq<Entry>, t: Tree,
                  base: Path)
    requires GoodNames([DirEntry(name, entries)]) && Emit(hash, profile, checksum, name, entries).ok
    requires forall i :: 0 <= i < |Walk([], entries)| && Walk([], entries)[i].FileItem? ==>
      Walk([], entries)[i].size < U64_LIMIT
    requires FreshRoot(t, base + [name])
    ensures var e := Emit(hash, profile, checksum, name, entries);
      var o := R.Decode(hash, t, base, e.bytes);
      (o.Accepted? && o.stats == e.stats && o.rest == [] &&
       Mirrors(MakeDirs(t, [], base + [name]).0, base + [name], entries, o.tree))
      <==> Representable(name, Sent(entries))
  {
    DecodeEmission(hash, profile, checksum, name, entries, t, base);
    RootIsEmpty(t, base + [name]);
    AppliedIsMirror(MakeDirs(t, [], base + [name]).0, base + [name], entries);
  }

  // ---- trees that do not survive ----------------------------------------------

  /** A tree of sendable items is sent to the end. */
  lemma SendableIsEmitted(hash: R.Hasher, profile: StorageProfile, checksum: bool, name: Name, entries: seq<Entry>)
    requires ToWire([name]).Some? && Sendable(Walk([], entries))
    ensures Emit(hash, profile, checksum, name, entries).ok
  {
    hide Sendable, Walk, ToWire, EncodeAll, PlanItems, R.Run;
    RunPlan(hash, PackTarget(profile), checksum, Walk([], entries), 0, 0, InitialStats, map[], [], []);
  }

  lemma WalkOfTwo(first: Entry, second: Entry)
    requires (first.FileEntry? || first == DirEntry(first.name, [])) && second.FileEntry?
    ensures Walk([], [first, second]) == [ItemOf([first.name], first), ItemOf([second.name], second)]
    ensures Sent([first, second]) == Walk([], [first, second])
  {
    assert [first, second][1..] == [second] && [second][1..] == [];
    assert [] + [first.name] == [first.name] && [] + [second.name] == [second.name];
    WalkOfOne(first, [second]);
    WalkOfOne(second, []);
    var items := [ItemOf([first.name], first), ItemOf([second.name], second)];
    assert Walk([], [first, second]) == items;
    assert items[1..] == [items[1]] && items[1..][1..] == [];
    hide Walk, ItemOf;
    assert NoSpecials(items[1..]) == [items[1]] + NoSpecials([]);
    assert NoSpecials(items) == [items[0]] + NoSpecials(items[1..]);
  }

  lemma WalkOfOne(e: Entry, rest: seq<Entry>)
    requires e.FileEntry? || e == DirEntry(e.name, [])
    ensures Walk([], [e] + rest) == [ItemOf([] + [e.name], e)] + Walk([], rest)
  {
    assert ([e] + rest)[1..] == rest;
  }

  /** A name that reaches the receiver as itself. */
  predicate Travels(name: Name) {
    name != [] && SLASH !in name && BACKSLASH !in name && ToWire([name]).Some?
  }

  lemma TravelsAsItself(name: Name)
    requires Travels(name)
    ensures ToWire([name]).Some? && Received([name]) == [name]
  {
    WireIsPath([name]);
  }

  /** An entry directly below the root that can be sent. */
  predicate Simple(item: Item) {
    |item.path| == 1 && Travels(item.path[0]) && !item.SpecialItem? &&
    (item.FileItem? ==> item.size == |item.data| < U64_LIMIT)
  }

  lemma SimpleIsSendable(item: Item)
    requires Simple(item)
    ensures Sendable([item]) && Plain([item]) && Whole([item]) && [item][0] == item
  {
    assert item.path == [item.path[0]];
    TravelsAsItself(item.path[0]);
  }

  lemma TwoAreSendable(first: Item, second: Item)
    requires Sendable([first]) && Sendable([second])
    ensures Sendable([first, second]) && [first, second] == [first] + [second]
  {
    assert [first][0] == first && [second][0] == second;
    hide ToWire;
  }

  /** What the receiver makes of the two items: the first, then the second on top of it. */
  lemma ApplyTwo(t: Tree, root: Path, first: Item, second: Item)
    requires Sendable([first]) && Sendable([second]) && Sendable([first, second])
    ensures ApplyAll(t, root, [first, second]) ==
      var (t1, ok) := ApplyItem(t, root, first); if ok then ApplyItem(t1, root, second) else (t1, false)
  {
    hide ApplyItem, ToWire;
    assert [first, second][0] == first && [first, second][1..] == [second];
    ApplyOne(ApplyItem(t, root, first).0, root, second);
  }

  lemma ApplyOne(t: Tree, root: Path, item: Item)
    requires Sendable([item])
    ensures ApplyAll(t, root, [item]) == ApplyItem(t, root, item)
  {
    hide ApplyItem, ToWire;
    assert [item][0] == item && [item][1..] == [];
    assert forall s: Tree :: ApplyAll(s, root, []) == (s, true);
  }

  /** A file that comes after the entry with its staging name consumes a file and stops at a directory. */
  lemma SecondTakesFirst(start: Tree, root: Path, name: Name, node: Node, late: Bytes)
    requires EmptyRoot(start, root) && WellFormed(start) && StagingName(name) != name
    ensures var t := start[root + [StagingName(name)] := node];
      StoreNode(t, root, [name], late) ==
      if node.Dir? then (t, false) else (start[root + [name] := File(late)], true)
  {
    hide StagingName, WellFormed;
    var slot, dest := root + [StagingName(name)], root + [name];
    assert slot[|root|] == StagingName(name) && dest[|root|] == name;
    assert slot[..|root|] == root && dest[..|root|] == root;
    assert slot !in start && dest !in start;
    assert Parent([name]) == [] && R.StagingPath([name]) == [StagingName(name)];
    var t := start[slot := node];
    assert node.File? ==> Renamed(t[slot := File(late)], slot, dest) == start[dest := File(late)];
  }

  lemma FirstIsBuilt(start: Tree, root: Path, item: Item)
    requires EmptyRoot(start, root) && WellFormed(start) && Simple(item) && Sendable([item])
    ensures !item.SpecialItem? && (item.FileItem? ==> item.size <= |item.data|)
    ensures ApplyItem(start, root, item) == (start[root + item.path := NodeOf(item)], true)
  {
    SimpleIsSendable(item);
    assert Parent(item.path) == [] && root + [] == root;
    assert (root + item.path)[..|root|] == root;
    if item.FileItem? {
      var slot := root + R.StagingPath(item.path);
      assert slot[..|root|] == root && |slot| == |root| + 1;
    }
    hide Simple, Travels, Sendable, Plain, Whole, WellFormed, R.StagingPath;
    StepBuilds(start, root, item);
  }

  /** The two items as the receiver applies them. */
  lemma ApplyColliding(start: Tree, root: Path, first: Item, name: Name, late: Bytes)
    requires EmptyRoot(start, root) && WellFormed(start) && Simple(first) && first.path == [StagingName(name)]
    requires Travels(name) && StagingName(name) != name && |late| < U64_LIMIT
    ensures var items := [first, FileItem([name], |late|, late)];
      Sendable(items) &&
      ApplyAll(start, root, items) ==
      if first.DirItem? then (start[root + first.path := Dir], false) else (start[root + [name] := File(late)], true)
  {
    var second := FileItem([name], |late|, late);
    SimpleIsSendable(first);
    SimpleIsSendable(second);
    TwoAreSendable(first, second);
    ApplyTwo(start, root, first, second);
    FirstIsBuilt(start, root, first);
    SecondTakesFirst(start, root, name, NodeOf(first), late);
    TravelsAsItself(name);
    assert late[..|late|] == late;
    hide ToWire, Received, StoreNode, Travels, Sendable, Plain, Whole, StagingName, EmptyRoot, WellFormed;
  }

  /** The two-entry tree, and what has to hold for it to be sent into a fresh root. */
  predicate Colliding(root: Name, first: Entry, name: Name, late: Bytes) {
    Travels(root) && Travels(name) && first.name == StagingName(name) && Travels(first.name) &&
    GoodNames([DirEntry(root, [first, FileEntry(name, |late|, late)])]) && |late| < U64_LIMIT &&
    match first
    case FileEntry(_, size, data) => size == |data| < U64_LIMIT
    case DirEntry(_, entries) => entries == []
    case _ => false
  }

  lemma CollidingParts(root: Name, first: Entry, name: Name, late: Bytes)
    requires Colliding(root, first, name, late)
    ensures Simple(ItemOf([first.name], first)) && first.name != name && SLASH !in root && ToWire([root]).Some?
    ensures Walk([], [first, FileEntry(name, |late|, late)]) ==
      [ItemOf([first.name], first), FileItem([name], |late|, late)]
    ensures Sent([first, FileEntry(name, |late|, late)]) == Walk([], [first, FileEntry(name, |late|, late)])
  {
    var second := FileEntry(name, |late|, late);
    WalkOfTwo(first, second);
    var all := [DirEntry(root, [first, second])];
    assert GoodNames(all[0].entries);
    assert [first, second][1].name == name;
    hide ToWire;
  }

  /**
    `.name.quic-part` listed before `name`: the whole tree is sent, the receiver
    accepts it with equal statistics, and the earlier file is silently missing;
    if the earlier entry is a directory, the transfer fails.
  */
  lemma StagingNameListedFirst(hash: R.Hasher, profile: StorageProfile, checksum: bool, root: Name, first: Entry,
                               name: Name, late: Bytes, t: Tree, base: Path)
    requires Colliding(root, first, name, late) && FreshRoot(t, base + [root])
    ensures var e := Emit(hash, profile, checksum, root, [first, FileEntry(name, |late|, late)]);
      var o := R.Decode(hash, t, base, e.bytes);
      var made := MakeDirs(t, [], base + [root]).0;
      e.ok &&
      if first.FileEntry? then
        o == R.Accepted(made[base + [root] + [name] := File(late)], e.stats, []) &&
        base + [root] + [StagingName(name)] !in o.tree
      else o.Rejected? && o.tree == made[base + [root] + [StagingName(name)] := Dir]
  {
    var entries, at := [first, FileEntry(name, |late|, late)], base + [root];
    var made, item := MakeDirs(t, [], at).0, ItemOf([first.name], first);
    CollidingParts(root, first, name, late);
    RootIsEmpty(t, at);
    ApplyColliding(made, at, item, name, late);
    SlotIsFree(made, at, name, late);
    assert |late| < U64_LIMIT && (item.FileItem? ==> item.size < U64_LIMIT);
    assert BACKSLASH !in root;
    hide Colliding, Simple, Travels, Walk, Sent, ToWire, StagingName, EmptyRoot, WellFormed, Sendable, R.Decode, Emit,
      ApplyAll, MakeDirs;
    SendableIsEmitted(hash, profile, checksum, root, entries);
    DecodeEmission(hash, profile, checksum, root, entries, t, base);
  }

  lemma SlotIsFree(made: Tree, at: Path, name: Name, late: Bytes)
    requires EmptyRoot(made, at) && StagingName(name) != name
    ensures at + [StagingName(name)] !in made[at + [name] := File(late)]
  {
    hide StagingName;
    var slot, dest := at + [StagingName(name)], at + [name];
    assert slot[|at|] == StagingName(name) && dest[|at|] == name && slot[..|at|] == at;
  }

  /** Printable ASCII that is an ordinary file name. */
  predicate PlainAscii(name: Name, limit: nat) {
    0 < |name| <= limit && name != [DOT] && name != [DOT, DOT] && name[0] != TILDE && name[0] != DOLLAR &&
    forall i :: 0 <= i < |name| ==> 0x20 <= name[i] < 0x7f && name[i] != SLASH && name[i] != BACKSLASH
  }

  lemma {:induction false} AsciiIsUtf8(s: Bytes)
    requires forall i :: 0 <= i < |s| ==> s[i] < 0x80
    ensures IsUtf8(s)
    decreases |s|
  {
    if s != [] {
      AsciiIsUtf8(s[1..]);
    }
  }

  lemma AsciiTravels(name: Name)
    requires PlainAscii(name, MAX_PATH_BYTES)
    ensures Travels(name)
  {
    AsciiIsUtf8(name);
    assert Joined([name]) == name;
    assert SlashForBackslash(name) == name;
    assert Segments(name) == [name];
  }

  /** Such trees exist for every ordinary name of up to 200 characters, with any contents. */
  lemma PlainNamesCollide(root: Name, name: Name, early: Bytes, late: Bytes)
    requires PlainAscii(root, 200) && PlainAscii(name, 200) && |early| < U64_LIMIT && |late| < U64_LIMIT
    ensures Colliding(root, FileEntry(StagingName(name), |early|, early), name, late)
    ensures Colliding(root, DirEntry(StagingName(name), []), name, late)
  {
    AsciiTravels(root);
    AsciiTravels(name);
    var staging := StagingName(name);
    assert staging[0] == DOT && |staging| == |name| + 11;
    assert PlainAscii(staging, MAX_PATH_BYTES);
    AsciiTravels(staging);
    hide PlainAscii, StagingName, ToWire;
    assert 0 !in root && 0 !in name && 0 !in staging by { NoNul(root); NoNul(name); NoNul(staging); }
    TwoGoodNames(root, FileEntry(staging, |early|, early), FileEntry(name, |late|, late));
    TwoGoodNames(root, DirEntry(staging, []), FileEntry(name, |late|, late));
  }

  lemma NoNul(name: Name)
    requires Travels(name)
    ensures 0 !in name
  {
    assert Joined([name]) == name;
    forall i | 0 <= i < |name| ensures name[i] != 0 {
      assert SlashForBackslash(name)[i] in SlashForBackslash(name);
    }
  }

  lemma TwoGoodNames(root: Name, first: Entry, second: Entry)
    requires root != [] && SLASH !in root && 0 !in root && (first.FileEntry? || first == DirEntry(first.name, [])) &&
      second.FileEntry?
    requires first.name != [] && SLASH !in first.name && 0 !in first.name && first.name != second.name
    requires second.name != [] && SLASH !in second.name && 0 !in second.name
    ensures GoodNames([DirEntry(root, [first, second])])
  {
    assert [second][1..] == [] && GoodNames([second]);
    assert [first, second][1..] == [second];
    assert first.DirEntry? ==> GoodNames(first.entries);
    assert GoodNames([first, second]);
    assert [DirEntry(root, [first, second])][1..] == [];
  }

  // ---- a backslash in a name ---------------------------------------------------

  /** The name x, backslash, y. */
  function Backslashed(x: Name, y: Name): Name {
    x + [BACKSLASH] + y
  }

  lemma BackslashBecomesSlash(x: Name, y: Name)
    requires PlainAscii(x, MAX_PATH_BYTES) && PlainAscii(y, MAX_PATH_BYTES) && |Backslashed(x, y)| <= MAX_PATH_BYTES
    ensures ToWire([Backslashed(x, y)]).Some? && Received([Backslashed(x, y)]) == [x, y]
  {
    var v := Backslashed(x, y);
    AsciiIsUtf8(v);
    SlashedIsValid(x, y);
    hide ValidPath, IsUtf8, Segments;
    assert Joined([v]) == v;
    assert SlashForBackslash(v) == x + [SLASH] + y;
  }

  lemma SlashedIsValid(x: Name, y: Name)
    requires PlainAscii(x, MAX_PATH_BYTES) && PlainAscii(y, MAX_PATH_BYTES) && |x| + 1 + |y| <= MAX_PATH_BYTES
    ensures ValidPath(x + [SLASH] + y) && Segments(x + [SLASH] + y) == [x, y]
  {
    SplitsAtFirst(x, y);
    assert Segments(y) == [y];
    hide Segments;
    assert (x + [SLASH] + y)[0] == x[0];
    assert SafeName(x) && SafeName(y);
  }

  /** A file one directory down, where neither exists yet. */
  lemma StoresBelow(start: Tree, root: Path, x: Name, y: Name, data: Bytes)
    requires EmptyRoot(start, root) && WellFormed(start)
    ensures StoreNode(start, root, [x, y], data) == (start[root + [x] := Dir][root + [x, y] := File(data)], true)
  {
    hide StagingName;
    var made := start[root + [x] := Dir];
    assert Parent([x, y]) == [x] && Parent([x]) == [] && root + [] == root;
    assert (root + [x])[..|root|] == root;
    assert root + [x] !in start;
    MakeDirsLast(start, root, [x]);
    var slot, dest := root + R.StagingPath([x, y]), root + [x, y];
    assert slot[..|root|] == root && dest[..|root|] == root && |slot| == |dest| == |root| + 2;
    hide MakeDirs, R.StagingPath, WellFormed;
    assert slot !in start && slot !in made && dest !in made;
    assert Renamed(made[slot := File(data)], slot, dest) == made[dest := File(data)];
  }

  lemma OneFileWalk(name: Name, data: Bytes)
    ensures Walk([], [FileEntry(name, |data|, data)]) == [FileItem([name], |data|, data)]
    ensures Sent([FileEntry(name, |data|, data)]) == [FileItem([name], |data|, data)]
  {
    var e := FileEntry(name, |data|, data);
    assert [e] + [] == [e] && [] + [name] == [name];
    WalkOfOne(e, []);
    var items := [FileItem([name], |data|, data)];
    assert items[1..] == [] && NoSpecials([]) == [];
  }

  lemma AppliesBackslash(start: Tree, root: Path, x: Name, y: Name, data: Bytes)
    requires EmptyRoot(start, root) && WellFormed(start) && |data| < U64_LIMIT
    requires ToWire([Backslashed(x, y)]).Some? && Received([Backslashed(x, y)]) == [x, y]
    ensures var items := [FileItem([Backslashed(x, y)], |data|, data)];
      Sendable(items) &&
      ApplyAll(start, root, items) == (start[root + [x] := Dir][root + [x, y] := File(data)], true)
  {
    hide ToWire, Received, StoreNode, EmptyRoot, WellFormed;
    var item := FileItem([Backslashed(x, y)], |data|, data);
    assert [item][0] == item && data[..|data|] == data;
    StoresBelow(start, root, x, y, data);
    ApplyOne(start, root, item);
  }

  /**
    A file whose name holds a backslash: the whole tree is sent, the receiver
    accepts it with equal statistics, and the file lies in a directory that the
    source does not have. No path of that name exists.
  */
  lemma BackslashArrivesElsewhere(hash: R.Hasher, profile: StorageProfile, checksum: bool, root: Name, x: Name, y: Name,
                                  data: Bytes, t: Tree, base: Path)
    requires PlainAscii(root, MAX_PATH_BYTES) && PlainAscii(x, MAX_PATH_BYTES) && PlainAscii(y, MAX_PATH_BYTES)
    requires |Backslashed(x, y)| <= MAX_PATH_BYTES && |data| < U64_LIMIT && FreshRoot(t, base + [root])
    ensures var at := base + [root];
      var e := Emit(hash, profile, checksum, root, [FileEntry(Backslashed(x, y), |data|, data)]);
      var o := R.Decode(hash, t, base, e.bytes);
      e.ok &&
      o == R.Accepted(MakeDirs(t, [], at).0[at + [x] := Dir][at + [x, y] := File(data)], e.stats, []) &&
      at + [Backslashed(x, y)] !in o.tree
  {
    var name, at := Backslashed(x, y), base + [root];
    var made := MakeDirs(t, [], at).0;
    BackslashBecomesSlash(x, y);
    AsciiTravels(root);
    OneFileWalk(name, data);
    RootIsEmpty(t, at);
    AppliesBackslash(made, at, x, y, data);
    NotUnderThatName(made, at, x, y, data);
    assert BACKSLASH !in root && SLASH !in root && ToWire([root]).Some?;
    hide PlainAscii, Walk, Sent, ToWire, Received, EmptyRoot, WellFormed, Sendable, R.Decode, Emit, ApplyAll, MakeDirs;
    SendableIsEmitted(hash, profile, checksum, root, [FileEntry(name, |data|, data)]);
    DecodeEmission(hash, profile, checksum, root, [FileEntry(name, |data|, data)], t, base);
  }

  lemma NotUnderThatName(made: Tree, at: Path, x: Name, y: Name, data: Bytes)
    requires EmptyRoot(made, at)
    ensures at + [Backslashed(x, y)] !in made[at + [x] := Dir][at + [x, y] := File(data)]
  {
    var p := at + [Backslashed(x, y)];
    assert p[..|at|] == at && p[|at|] == Backslashed(x, y) && (at + [x])[|at|] == x;
    assert |Backslashed(x, y)| > |x|;
  }

  // ---- transfers that break off --------------------------------------------------

  lemma BrokenTree(hash: R.Hasher, profile: StorageProfile, checksum: bool, entries: seq<Entry>, t: Tree, root: Path)
    requires !PlanTree(profile, checksum, entries).ok
    requires forall i :: 0 <= i < |Walk([], entries)| && Walk([], entries)[i].FileItem? ==>
      Walk([], entries)[i].size < U64_LIMIT
    ensures var plan := PlanTree(profile, checksum, entries);
      R.Run(hash, t, root, R.InitialStats, EncodeAll(hash, plan.frames) + plan.cut).Rejected?
  {
    hide Walk, PlanItems, EncodeAll, R.Run, R.Frame, Encode;
    var items, target := Walk([], entries), PackTarget(profile);
    var plan := PlanItems(target, checksum, items, 0, 0, InitialStats);
    RunFrame(hash, t, root, R.InitialStats, PackStart(0), plan.frames, plan.cut);
    PackFramesArrive(hash, t, root, R.InitialStats, 0, EncodeAll(hash, plan.frames) + plan.cut);
    RunBrokenPlan(hash, target, checksum, items, 0, 0, InitialStats, t, root, InitialStats);
  }

  /**
    Where the sender stops before the end, because a path cannot be sent or a
    file has become shorter, no receiver accepts what it has sent.
  */
  lemma BrokenOffIsRejected(hash: R.Hasher, profile: StorageProfile, checksum: bool, name: Name, entries: seq<Entry>,
                            t: Tree, base: Path)
    requires !Emit(hash, profile, checksum, name, entries).ok
    requires forall i :: 0 <= i < |Walk([], entries)| && Walk([], entries)[i].FileItem? ==>
      Walk([], entries)[i].size < U64_LIMIT
    ensures R.Decode(hash, t, base, Emit(hash, profile, checksum, name, entries).bytes).Rejected?
  {
    hide Walk, PlanItems, PlanTree, EncodeAll, R.Run, Segments, MakeDirs;
    if ToWire([name]).Some? {
      var wire := ToWire([name]).value;
      var root, tree := base + Segments(wire), PlanTree(profile, checksum, entries);
      WireIsReadable([name]);
      var made := MakeDirs(t, [], root).0;
      var body := EncodeAll(hash, tree.frames) + tree.cut;
      assert Emit(hash, profile, checksum, name, entries).bytes == [R.FRAME_START] + PathBytes(wire) + body;
      hide ToWire, PathBytes, ValidPath, IsUtf8, R.Decode, Emit, PlanTree;
      if MakeDirs(t, [], root).1 {
        DecodeStart(hash, t, base, wire, body);
        BrokenTree(hash, profile, checksum, entries, made, root);
      } else {
        DecodeBlocked(hash, t, base, wire, body);
      }
    }
  }

  lemma DecodeBlocked(hash: R.Hasher, t: Tree, base: Path, wire: Bytes, body: Bytes)
    requires ValidPath(wire) && IsUtf8(wire) && !MakeDirs(t, [], base + Segments(wire)).1
    ensures R.Decode(hash, t, base, [R.FRAME_START] + PathBytes(wire) + body).Rejected?
  {
    var b := [R.FRAME_START] + PathBytes(wire) + body;
    assert b[1..] == PathBytes(wire) + body;
    ReadsPath(wire, body);
    hide R.ReadPath, PathBytes, Segments, R.Run, ValidPath, IsUtf8, MakeDirs;
  }

  // ---- the bytes of a small transfer ------------------------------------------------

  /**
    A directory that holds one file and one empty directory, byte for byte: the
    START frame, pack 0, the file with its flag and digest, the directory, the
    end of the pack, and the totals.
  */
  lemma SmallTransfer(hash: R.Hasher, profile: StorageProfile, checksum: bool, root: Name, x: Name, data: Bytes,
                      y: Name)
    requires PlainAscii(root, MAX_PATH_BYTES) && PlainAscii(x, MAX_PATH_BYTES) && PlainAscii(y, MAX_PATH_BYTES)
    requires |data| < U64_LIMIT
    ensures Emit(hash, profile, checksum, root, [FileEntry(x, |data|, data), DirEntry(y, [])]).bytes ==
      [0x11] + U32(|root|) + root +
      ([0x13] + U64(0)) +
      ([0x14] + U32(|x|) + x + U64(|data|) + [if checksum then 1 else 0] + data +
       (if checksum then hash(data) else [])) +
      ([0x12] + U32(|y|) + y) +
      [0x15] + ([0x16] + U64(1) + U64(2) + U64(|data|))
  {
    AsciiTravels(root);
    AsciiTravels(x);
    AsciiTravels(y);
    SmallPlan(profile, checksum, x, data, y);
    var a, b, c := FileFrame(x, data, checksum), DirectoryFrame(y), End(1, 2, |data|);
    FiveFrames(hash, a, b, c);
    EmissionOf(hash, profile, checksum, root, [FileEntry(x, |data|, data), DirEntry(y, [])]);
    SmallFrames(hash, a, b, c);
    hide PlainAscii, Travels, ToWire, Emit, U64, U32, PlanTree, EncodeAll, Encode;
    Chain([0x11] + U32(|root|) + root, Encode(hash, PackStart(0)), Encode(hash, a), Encode(hash, b),
          Encode(hash, PackEnd), Encode(hash, c));
  }

  lemma EmissionOf(hash: R.Hasher, profile: StorageProfile, checksum: bool, root: Name, entries: seq<Entry>)
    requires Travels(root)
    ensures var plan := PlanTree(profile, checksum, entries);
      Emit(hash, profile, checksum, root, entries).bytes ==
      [0x11] + U32(|root|) + root + EncodeAll(hash, plan.frames) + plan.cut
  {
    SameOnWire(root);
    hide ToWire, Travels, U32, PlanTree, EncodeAll;
    assert [0x11] + (U32(|root|) + root) == [0x11] + U32(|root|) + root;
  }

  lemma SmallPlan(profile: StorageProfile, checksum: bool, x: Name, data: Bytes, y: Name)
    requires Travels(x) && Travels(y)
    ensures var plan := PlanTree(profile, checksum, [FileEntry(x, |data|, data), DirEntry(y, [])]);
      plan.cut == [] && plan.frames ==
      [PackStart(0)] + ([FileFrame(x, data, checksum)] + ([DirectoryFrame(y)] + [PackEnd, End(1, 2, |data|)]))
  {
    SameOnWire(x);
    SameOnWire(y);
    FileThenDirectory(x, data, y);
    hide Travels, ToWire, Walk;
    var items := [FileItem([x], |data|, data), DirItem([y])];
    var target := PackTarget(profile);
    var stats1 := InitialStats.(files := 1, bytes := |data|);
    var stats2 := stats1.(directories := 2);
    var last := PlanItems(target, checksum, [], |data|, 0, stats2);
    assert last.frames == [PackEnd, End(1, 2, |data|)];
    assert items[1..] == [DirItem([y])] && items[1..][1..] == [];
    assert PlanItems(target, checksum, items[1..], |data|, 0, stats1) == Prepend([DirectoryFrame(y)], last);
    assert data[..|data|] == data;
    assert [] + [FileFrame(x, data, checksum)] == [FileFrame(x, data, checksum)];
  }

  lemma SmallFrames(hash: R.Hasher, a: Frame, b: Frame, c: Frame)
    requires a.FileFrame? && b.DirectoryFrame? && c.End?
    ensures Encode(hash, PackStart(0)) == [0x13] + U64(0) && Encode(hash, PackEnd) == [0x15]
    ensures Encode(hash, a) == [0x14] + U32(|a.path|) + a.path + U64(|a.content|) + [if a.checksum then 1 else 0] +
      a.content + (if a.checksum then hash(a.content) else [])
    ensures Encode(hash, b) == [0x12] + U32(|b.path|) + b.path
    ensures Encode(hash, c) == [0x16] + U64(c.files) + U64(c.directories) + U64(c.bytes)
  {
    hide U32, U64;
    assert [0x14] + (U32(|a.path|) + a.path) == [0x14] + U32(|a.path|) + a.path;
    assert [0x12] + (U32(|b.path|) + b.path) == [0x12] + U32(|b.path|) + b.path;
  }

  lemma Chain(h: Bytes, a: Bytes, b: Bytes, c: Bytes, d: Bytes, e: Bytes)
    ensures h + (a + (b + (c + (d + e)))) + [] == h + a + b + c + d + e
  {
    assert c + (d + e) == c + d + e;
    assert b + (c + d + e) == b + c + d + e;
    assert a + (b + c + d + e) == a + b + c + d + e;
  }

  lemma SameOnWire(name: Name)
    requires Travels(name)
    ensures ToWire([name]) == Some(name)
  {
    WireIsPath([name]);
  }

  lemma FileThenDirectory(x: Name, data: Bytes, y: Name)
    ensures Walk([], [FileEntry(x, |data|, data), DirEntry(y, [])]) == [FileItem([x], |data|, data), DirItem([y])]
  {
    var e, f := FileEntry(x, |data|, data), DirEntry(y, []);
    assert [e, f][1..] == [f] && [f][1..] == [];
    assert [] + [x] == [x] && [] + [y] == [y];
    WalkOfOne(e, [f]);
    WalkOfOne(f, []);
  }

  lemma FiveFrames(hash: R.Hasher, a: Frame, b: Frame, c: Frame)
    ensures EncodeAll(hash, [PackStart(0)] + ([a] + ([b] + [PackEnd, c]))) ==
      Encode(hash, PackStart(0)) + (Encode(hash, a) + (Encode(hash, b) + (Encode(hash, PackEnd) + Encode(hash, c))))
  {
    hide Encode;
    var all := [PackStart(0)] + ([a] + ([b] + [PackEnd, c]));
    assert all[1..] == [a, b, PackEnd, c] && all[1..][1..] == [b, PackEnd, c];
    assert all[1..][1..][1..] == [PackEnd, c] && all[1..][1..][1..][1..] == [c] && [c][1..] == [];
    assert EncodeAll(hash, [c]) == Encode(hash, c) + EncodeAll(hash, []);
    assert EncodeAll(hash, [PackEnd, c]) == Encode(hash, PackEnd) + Encode(hash, c);
    assert EncodeAll(hash, [b, PackEnd, c]) == Encode(hash, b) + EncodeAll(hash, [PackEnd, c]);
    assert EncodeAll(hash, [a, b, PackEnd, c]) == Encode(hash, a) + EncodeAll(hash, [b, PackEnd, c]);
  }
}
