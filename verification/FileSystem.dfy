/** A symlink-free file system: a map from absolute paths to directories and file contents. */
module FileSystem {
  import opened Common
  import opened Paths

  datatype Node = Dir | File(content: Bytes)

  type Tree = map<Path, Node>

  predicate Under(root: Path, p: Path) {
    IsPrefix(root, p)
  }

  function Parent(p: Path): Path
    requires p != []
  {
    p[..|p| - 1]
  }

  function Get(t: Tree, p: Path): Option<Node> {
    if p in t then Some(t[p]) else None
  }

  /** Every node but the top has a parent, and the parent is a directory. */
  predicate WellFormed(t: Tree) {
    Get(t, []) == Some(Dir) &&
    forall p :: p in t && p != [] ==> Get(t, Parent(p)) == Some(Dir)
  }

  predicate IsDir(t: Tree, p: Path) {
    Get(t, p) == Some(Dir)
  }

  /**
    Creates the directories `base/rest[0]`, `base/rest[0]/rest[1]`, ... that
    are missing. False as soon as one of them is a file.
  */
  function MakeDirs(t: Tree, base: Path, rest: Path): (r: (Tree, bool))
    decreases |rest|
  {
    if rest == [] then (t, true)
    else
      var next := base + [rest[0]];
      if next !in t then MakeDirs(t[next := Dir], next, rest[1..])
      else if t[next].Dir? then MakeDirs(t, next, rest[1..])
      else (t, false)
  }

  /** Replaces whatever is at `to` by the node at `from`. */
  function Renamed(t: Tree, from: Path, to: Path): Tree
    requires from in t
  {
    (t - {from})[to := t[from]]
  }

  /** `s` differs from `t` only by new directories on the way to `base + rest`. */
  ghost predicate OnlyNewDirs(t: Tree, s: Tree, base: Path, rest: Path) {
    forall p :: Get(s, p) == Get(t, p) ||
      (p !in t && Get(s, p) == Some(Dir) && IsPrefix(p, base + rest) && |p| > |base|)
  }

  lemma {:induction false} MakeDirsEffect(t: Tree, base: Path, rest: Path)
    ensures var (s, ok) := MakeDirs(t, base, rest);
      OnlyNewDirs(t, s, base, rest) &&
      (ok ==> forall k :: |base| < k <= |base + rest| ==> IsDir(s, (base + rest)[..k])) &&
      (!ok ==> exists k :: |base| < k <= |base + rest| && (base + rest)[..k] in t && t[(base + rest)[..k]].File?)
    decreases |rest|
  {
    var (s, ok) := MakeDirs(t, base, rest);
    var whole := base + rest;
    if rest != [] {
      var next := base + [rest[0]];
      assert next + rest[1..] == whole;
      assert whole[..|next|] == next;
      if next !in t {
        MakeDirsEffect(t[next := Dir], next, rest[1..]);
        assert IsPrefix(next, whole);
        assert IsDir(s, next);
        if !ok {
          var k :| |next| < k <= |whole| && whole[..k] in t[next := Dir] && t[next := Dir][whole[..k]].File?;
          assert whole[..k] in t && t[whole[..k]].File?;
        }
      } else if t[next].Dir? {
        MakeDirsEffect(t, next, rest[1..]);
        assert Get(s, next) == Get(t, next);
      }
    }
  }
}
