/**
  The greedy grouping of files into logical packs, read off the frames that
  `send_directory` emits.
*/
module DirectoryPacking {
  import opened Common
  import opened Wire
  import opened Paths
  import opened DirectorySender
  import R = DirectoryReceiver
  import C = DirectoryCodec

  // ---- reading packs off a frame sequence ------------------------------------

  /**
    PACK_START and PACK_END take turns, packs are numbered from `next`, every
    directory and file lies inside a pack, and END comes last and outside.
  */
  predicate Alternates(frames: seq<Frame>, open: bool, next: nat) {
    frames == [] ||
    match frames[0]
    case PackStart(number) => !open && number == next && Alternates(frames[1..], true, next + 1)
    case PackEnd => open && Alternates(frames[1..], false, next)
    case DirectoryFrame(_) => open && Alternates(frames[1..], true, next)
    case FileFrame(_, _, _) => open && Alternates(frames[1..], true, next)
    case End(_, _, _) => !open && |frames| == 1
  }

  /** The file sizes of each pack. `current` is the pack that the frames start in. */
  function PacksFrom(frames: seq<Frame>, current: seq<nat>): (packs: seq<seq<nat>>)
    ensures packs != []
  {
    if frames == [] then [current]
    else
      match frames[0]
      case PackStart(_) => [current] + PacksFrom(frames[1..], [])
      case FileFrame(_, content, _) => PacksFrom(frames[1..], current + [|content|])
      case _ => PacksFrom(frames[1..], current)
  }

  /** What comes before the first PACK_START is not a pack. */
  function Packs(frames: seq<Frame>): seq<seq<nat>> {
    PacksFrom(frames, [])[1..]
  }

  function Sum(sizes: seq<nat>): nat {
    if sizes == [] then 0 else Sum(sizes[..|sizes| - 1]) + sizes[|sizes| - 1]
  }

  function Total(packs: seq<seq<nat>>): nat {
    if packs == [] then 0 else Sum(packs[0]) + Total(packs[1..])
  }

  function Count(packs: seq<seq<nat>>): nat {
    if packs == [] then 0 else |packs[0]| + Count(packs[1..])
  }

  // ---- what the grouping promises --------------------------------------------

  /** A pack exceeds the target only with one non-empty file, which is its last. */
  predicate Fits(target: nat, pack: seq<nat>) {
    Sum(pack) > target ==> pack != [] && forall i :: 0 <= i < |pack| - 1 ==> pack[i] == 0
  }

  /** A pack was closed because the first file of the next one did not fit any more. */
  predicate Greedy(target: nat, packs: seq<seq<nat>>) {
    forall j :: 1 <= j < |packs| ==> DidNotFit(target, packs, j)
  }

  predicate DidNotFit(target: nat, packs: seq<seq<nat>>, j: nat)
    requires 1 <= j < |packs|
  {
    packs[j] != [] && Sum(packs[j - 1]) + packs[j][0] > target
  }

  /** Two adjacent packs together exceed the target. */
  predicate PairsAbove(target: nat, packs: seq<seq<nat>>) {
    forall j :: 1 <= j < |packs| ==> PairAbove(target, packs, j)
  }

  predicate PairAbove(target: nat, packs: seq<seq<nat>>, j: nat)
    requires 1 <= j < |packs|
  {
    Sum(packs[j - 1]) + Sum(packs[j]) > target
  }

  lemma {:induction false} SumAtLeast(sizes: seq<nat>, i: nat)
    requires i < |sizes|
    ensures sizes[i] <= Sum(sizes)
  {
    if i < |sizes| - 1 { SumAtLeast(sizes[..|sizes| - 1], i); }
  }

  lemma SumSnoc(sizes: seq<nat>, size: nat)
    ensures Sum(sizes + [size]) == Sum(sizes) + size
  {
    assert (sizes + [size])[..|sizes|] == sizes;
  }

  lemma {:induction false} ZeroSum(sizes: seq<nat>)
    requires Sum(sizes) == 0
    ensures forall i :: 0 <= i < |sizes| ==> sizes[i] == 0
  {
    forall i | 0 <= i < |sizes| ensures sizes[i] == 0 { SumAtLeast(sizes, i); }
  }

  /** Adding a file that does not overfill keeps the pack fitting. */
  lemma StillFits(target: nat, pack: seq<nat>, size: nat)
    requires Fits(target, pack) && !Overfills(target, Sum(pack), size)
    ensures Fits(target, pack + [size])
  {
    SumSnoc(pack, size);
    if Sum(pack) == 0 { ZeroSum(pack); }
  }

  /** The grouping of the items that are left, given the pack that is open. */
  ghost predicate Grouped(target: nat, stats: R.Stats, current: seq<nat>, plan: Plan) {
    var packs := PacksFrom(plan.frames, current);
    (forall i :: 0 <= i < |packs| ==> Fits(target, packs[i])) && Greedy(target, packs) && IsPrefix(current, packs[0]) &&
    plan.stats.packs + 1 == stats.packs + |packs| &&
    plan.stats.bytes + Sum(current) == stats.bytes + Total(packs) &&
    plan.stats.files + |current| == stats.files + Count(packs)
  }

  lemma GroupedEnd(target: nat, stats: R.Stats, current: seq<nat>, plan: Plan)
    requires Fits(target, current) && plan.stats == stats
    requires plan.frames == [PackEnd, End(stats.files, stats.directories, stats.bytes)]
    ensures Grouped(target, stats, current, plan)
  {
    assert plan.frames[1..] == [End(stats.files, stats.directories, stats.bytes)];
    assert PacksFrom(plan.frames[1..], current) == PacksFrom([], current);
    assert PacksFrom(plan.frames, current) == [current];
    assert Total([current]) == Sum(current) && Count([current]) == |current|;
  }

  /** A file that joins the open pack. */
  lemma GroupedFile(target: nat, stats: R.Stats, current: seq<nat>, file: Frame, size: nat, rest: Plan)
    requires file.FileFrame? && |file.content| == size
    requires Grouped(target, stats.(files := stats.files + 1, bytes := stats.bytes + size), current + [size], rest)
    ensures Grouped(target, stats, current, Prepend([file], rest))
  {
    SumSnoc(current, size);
    assert ([file] + rest.frames)[1..] == rest.frames;
    var packs := PacksFrom(rest.frames, current + [size]);
    assert current == (current + [size])[..|current|] == packs[0][..|current|];
  }

  lemma PacksAfterOpening(number: nat, file: Frame, frames: seq<Frame>, current: seq<nat>)
    requires file.FileFrame?
    ensures PacksFrom([PackEnd, PackStart(number), file] + frames, current) ==
      [current] + PacksFrom(frames, [|file.content|])
  {
    var all := [PackEnd, PackStart(number), file] + frames;
    assert all[1..] == [PackStart(number), file] + frames;
    assert all[1..][1..] == [file] + frames;
    assert ([file] + frames)[1..] == frames;
    assert [] + [|file.content|] == [|file.content|];
    assert PacksFrom([file] + frames, []) == PacksFrom(frames, [|file.content|]);
    assert PacksFrom(all[1..], current) == [current] + PacksFrom([file] + frames, []);
  }

  /** A file that opens the next pack. */
  lemma GroupedOpening(target: nat, stats: R.Stats, current: seq<nat>, number: nat, file: Frame, size: nat, rest: Plan)
    requires file.FileFrame? && |file.content| == size
    requires Fits(target, current) && Sum(current) + size > target
    requires Grouped(target, stats.(packs := stats.packs + 1, files := stats.files + 1, bytes := stats.bytes + size),
                     [size], rest)
    ensures Grouped(target, stats, current, Prepend([PackEnd, PackStart(number), file], rest))
  {
    PacksAfterOpening(number, file, rest.frames, current);
    var packs := PacksFrom(rest.frames, [size]);
    hide PacksFrom, Fits;
    assert packs[0][0] == packs[0][..1][0] == size;
    SumSnoc([], size);
    assert [] + [size] == [size];
    var all := [current] + packs;
    assert all[1..] == packs;
    forall j | 1 <= j < |all| ensures DidNotFit(target, all, j) {
      assert j > 1 ==> DidNotFit(target, packs, j - 1);
    }
  }

  lemma GroupedDirectory(target: nat, stats: R.Stats, current: seq<nat>, f: Frame, rest: Plan)
    requires f.DirectoryFrame?
    requires Grouped(target, stats.(directories := stats.directories + 1), current, rest)
    ensures Grouped(target, stats, current, Prepend([f], rest))
  {
    assert ([f] + rest.frames)[1..] == rest.frames;
  }

  lemma {:induction false} PlanIsGrouped(target: nat, checksum: bool, items: seq<Item>, packBytes: nat, pack: nat,
                                         stats: R.Stats, current: seq<nat>)
    requires PlanItems(target, checksum, items, packBytes, pack, stats).ok
    requires Sum(current) == packBytes && Fits(target, current)
    ensures Grouped(target, stats, current, PlanItems(target, checksum, items, packBytes, pack, stats))
    decreases |items|
  {
    var plan := PlanItems(target, checksum, items, packBytes, pack, stats);
    if items == [] {
      GroupedEnd(target, stats, current, plan);
    } else {
      var item, rest := items[0], items[1..];
      assert items == [item] + rest;
      C.PlanCons(target, checksum, item, rest, packBytes, pack, stats);
      hide Fits, Sum, Grouped, ToWire, PlanItems;
      match item
      case SpecialItem(_) =>
        PlanIsGrouped(target, checksum, rest, packBytes, pack, stats, current);
      case DirItem(path) =>
        var stats' := stats.(directories := stats.directories + 1);
        PlanIsGrouped(target, checksum, rest, packBytes, pack, stats', current);
        GroupedDirectory(target, stats, current, DirectoryFrame(ToWire(path).value),
                         PlanItems(target, checksum, rest, packBytes, pack, stats'));
      case FileItem(path, size, data) =>
        var (packBytes', pack', stats') := C.AfterFile(target, size, packBytes, pack, stats);
        var file := FileFrame(ToWire(path).value, data[..size], checksum);
        FitsNext(target, current, size, pack, stats);
        hide Overfills, Opening, C.AfterFile;
        PlanIsGrouped(target, checksum, rest, packBytes', pack', stats', WithFile(target, current, size));
        GroupedNext(target, stats, current, pack, file, size,
                    PlanItems(target, checksum, rest, packBytes', pack', stats'));
    }
  }

  /** The open pack after one more file. */
  function WithFile(target: nat, current: seq<nat>, size: nat): seq<nat> {
    if Overfills(target, Sum(current), size) then [size] else current + [size]
  }

  lemma GroupedNext(target: nat, stats: R.Stats, current: seq<nat>, pack: nat, file: Frame, size: nat, after: Plan)
    requires file.FileFrame? && |file.content| == size && Fits(target, current)
    requires Grouped(target, C.AfterFile(target, size, Sum(current), pack, stats).2, WithFile(target, current, size),
                     after)
    ensures Grouped(target, stats, current, Prepend(Opening(target, Sum(current), pack, size) + [file], after))
  {
    hide Grouped, Fits, Sum;
    if Overfills(target, Sum(current), size) {
      assert [PackEnd, PackStart(pack + 1)] + [file] == [PackEnd, PackStart(pack + 1), file];
      GroupedOpening(target, stats, current, pack + 1, file, size, after);
    } else {
      assert [] + [file] == [file];
      GroupedFile(target, stats, current, file, size, after);
    }
  }

  lemma FitsNext(target: nat, current: seq<nat>, size: nat, pack: nat, stats: R.Stats)
    requires Fits(target, current)
    ensures Fits(target, WithFile(target, current, size))
    ensures Sum(WithFile(target, current, size)) == C.AfterFile(target, size, Sum(current), pack, stats).0
  {
    SumSnoc(current, size);
    SumSnoc([], size);
    assert [] + [size] == [size];
    if !Overfills(target, Sum(current), size) { StillFits(target, current, size); }
  }

  // ---- the order of pack marks -------------------------------------------------

  predicate Stops(items: seq<Item>) {
    items == [] || items[0].path == [] || ToWire(items[0].path).None? ||
    (items[0].FileItem? && |items[0].data| < items[0].size)
  }

  lemma StopAlternates(target: nat, checksum: bool, items: seq<Item>, packBytes: nat, pack: nat, stats: R.Stats)
    requires Stops(items)
    ensures Alternates(PlanItems(target, checksum, items, packBytes, pack, stats).frames, true, pack + 1)
  {
    if items == [] {
      assert PlanItems(target, checksum, items, packBytes, pack, stats).frames[1..] ==
             [End(stats.files, stats.directories, stats.bytes)];
    } else if items[0].FileItem? {
      AfterOpening(target, packBytes, pack, items[0].size, []);
      assert Opening(target, packBytes, pack, items[0].size) + [] == Opening(target, packBytes, pack, items[0].size);
    }
  }

  /** Complete or cut short, a plan alternates. */
  lemma {:induction false} PlanAlternates(target: nat, checksum: bool, items: seq<Item>, packBytes: nat, pack: nat,
                                          stats: R.Stats)
    ensures Alternates(PlanItems(target, checksum, items, packBytes, pack, stats).frames, true, pack + 1)
    decreases |items|
  {
    if Stops(items) {
      StopAlternates(target, checksum, items, packBytes, pack, stats);
    } else {
      var item, rest := items[0], items[1..];
      assert items == [item] + rest;
      hide ToWire, PlanItems, Opening, Alternates, Overfills;
      C.PlanCons(target, checksum, item, rest, packBytes, pack, stats);
      match item
      case SpecialItem(_) =>
        PlanAlternates(target, checksum, rest, packBytes, pack, stats);
      case DirItem(path) =>
        var stats' := stats.(directories := stats.directories + 1);
        PlanAlternates(target, checksum, rest, packBytes, pack, stats');
        AlternatesInside(DirectoryFrame(ToWire(path).value),
                         PlanItems(target, checksum, rest, packBytes, pack, stats').frames, pack + 1);
      case FileItem(path, size, data) =>
        var (packBytes', pack', stats') := C.AfterFile(target, size, packBytes, pack, stats);
        var file := FileFrame(ToWire(path).value, data[..size], checksum);
        PlanAlternates(target, checksum, rest, packBytes', pack', stats');
        AlternatesAround(target, packBytes, pack, size, file,
                         PlanItems(target, checksum, rest, packBytes', pack', stats').frames);
    }
  }

  lemma AlternatesAround(target: nat, packBytes: nat, pack: nat, size: nat, file: Frame, after: seq<Frame>)
    requires file.FileFrame?
    requires Alternates(after, true, (if Overfills(target, packBytes, size) then pack + 1 else pack) + 1)
    ensures Alternates(Opening(target, packBytes, pack, size) + [file] + after, true, pack + 1)
  {
    hide Alternates, Overfills, Opening;
    AlternatesInside(file, after, (if Overfills(target, packBytes, size) then pack + 1 else pack) + 1);
    AfterOpening(target, packBytes, pack, size, [file] + after);
    var opening := Opening(target, packBytes, pack, size);
    assert opening + ([file] + after) == opening + [file] + after;
  }

  lemma AlternatesInside(f: Frame, frames: seq<Frame>, next: nat)
    requires (f.DirectoryFrame? || f.FileFrame?) && Alternates(frames, true, next)
    ensures Alternates([f] + frames, true, next)
  {
    assert ([f] + frames)[1..] == frames;
  }

  lemma AfterOpening(target: nat, packBytes: nat, pack: nat, size: nat, frames: seq<Frame>)
    requires Alternates(frames, true, (if Overfills(target, packBytes, size) then pack + 1 else pack) + 1)
    ensures Alternates(Opening(target, packBytes, pack, size) + frames, true, pack + 1)
  {
    var all := Opening(target, packBytes, pack, size) + frames;
    if Overfills(target, packBytes, size) {
      assert all[1..][1..] == frames;
    } else {
      assert all == frames;
    }
  }

  // ---- the main results ----------------------------------------------------------

  /** The marks of a whole transfer, complete or not: numbered 0, 1, 2, ... and strictly alternating. */
  lemma PackMarksAlternate(profile: StorageProfile, checksum: bool, entries: seq<Entry>)
    ensures Alternates(PlanTree(profile, checksum, entries).frames, false, 0)
  {
    var plan := PlanItems(PackTarget(profile), checksum, Walk([], entries), 0, 0, InitialStats);
    PlanAlternates(PackTarget(profile), checksum, Walk([], entries), 0, 0, InitialStats);
    assert ([PackStart(0)] + plan.frames)[1..] == plan.frames;
  }

  /**
    Of a complete transfer: a pack exceeds the target only with one non-empty
    file, adjacent packs together exceed it, and the statistics count what the
    packs hold.
  */
  lemma GreedyPacks(profile: StorageProfile, checksum: bool, entries: seq<Entry>)
    requires PlanTree(profile, checksum, entries).ok
    ensures var plan := PlanTree(profile, checksum, entries);
      var packs, target := Packs(plan.frames), PackTarget(profile);
      (forall i :: 0 <= i < |packs| ==> Fits(target, packs[i])) &&
      PairsAbove(target, packs) &&
      plan.stats.packs == |packs| && plan.stats.bytes == Total(packs) && plan.stats.files == Count(packs)
  {
    var target, items := PackTarget(profile), Walk([], entries);
    var plan := PlanItems(target, checksum, items, 0, 0, InitialStats);
    PlanIsGrouped(target, checksum, items, 0, 0, InitialStats, []);
    assert ([PackStart(0)] + plan.frames)[1..] == plan.frames;
    var packs := PacksFrom(plan.frames, []);
    assert Packs([PackStart(0)] + plan.frames) == packs;
    hide PlanItems, Walk, PacksFrom;
    GreedyPairs(target, packs);
  }

  /** No pack with two non-empty files holds more than 16, 32 or 64 MiB, and two adjacent ones hold more than that. */
  lemma PackSizes(profile: StorageProfile, checksum: bool, entries: seq<Entry>, i: nat)
    requires PlanTree(profile, checksum, entries).ok && i < |Packs(PlanTree(profile, checksum, entries).frames)|
    ensures var packs := Packs(PlanTree(profile, checksum, entries).frames);
      var limit := match profile case Hdd => 16777216 case Auto => 33554432 case Nvme => 67108864;
      ((exists k, l :: 0 <= k < l < |packs[i]| && packs[i][k] > 0 && packs[i][l] > 0) ==> Sum(packs[i]) <= limit) &&
      (i > 0 ==> Sum(packs[i - 1]) + Sum(packs[i]) > limit)
  {
    GreedyPacks(profile, checksum, entries);
    var packs := Packs(PlanTree(profile, checksum, entries).frames);
    assert Fits(PackTarget(profile), packs[i]);
    if i > 0 { assert PairAbove(PackTarget(profile), packs, i); }
    hide Sum, PlanTree, Packs;
  }

  lemma GreedyPairs(target: nat, packs: seq<seq<nat>>)
    requires Greedy(target, packs)
    ensures PairsAbove(target, packs)
  {
    forall j | 1 <= j < |packs| ensures PairAbove(target, packs, j) {
      assert DidNotFit(target, packs, j);
      SumAtLeast(packs[j], 0);
    }
  }

  lemma {:induction false} PairsExceed(target: nat, packs: seq<seq<nat>>)
    requires PairsAbove(target, packs)
    ensures |packs| / 2 * target + |packs| / 2 <= Total(packs)
  {
    if |packs| >= 2 {
      var rest := packs[2..];
      assert packs[1..][1..] == rest;
      forall j | 1 <= j < |rest| ensures PairAbove(target, rest, j) {
        assert PairAbove(target, packs, j + 2);
      }
      PairsExceed(target, rest);
      assert PairAbove(target, packs, 1);
      assert |packs| / 2 == |rest| / 2 + 1;
      assert |packs| / 2 * target == |rest| / 2 * target + target;
    }
  }

  /** How many packs there can be for the bytes sent. */
  lemma FewPacks(profile: StorageProfile, checksum: bool, entries: seq<Entry>)
    requires PlanTree(profile, checksum, entries).ok && PlanTree(profile, checksum, entries).stats.packs >= 2
    ensures var stats := PlanTree(profile, checksum, entries).stats;
      stats.packs / 2 * PackTarget(profile) < stats.bytes
  {
    GreedyPacks(profile, checksum, entries);
    PairsExceed(PackTarget(profile), Packs(PlanTree(profile, checksum, entries).frames));
  }

  /**
    The saturating addition of the sender decides like the exact one, and the
    64-bit count of the open pack never wraps.
  */
  lemma SaturationIsHarmless(profile: StorageProfile, packBytes: nat, size: nat)
    requires packBytes < U64_LIMIT && size < U64_LIMIT
    ensures var target := PackTarget(profile);
      Overfills(target, packBytes, size) <==> packBytes > 0 && Min(packBytes + size, U64_LIMIT - 1) > target
    ensures (if Overfills(PackTarget(profile), packBytes, size) then 0 else packBytes) + size < U64_LIMIT
  {
  }

  // ---- what the statistics count -------------------------------------------------

  function FilesIn(items: seq<Item>): nat {
    if items == [] then 0 else (if items[0].FileItem? then 1 else 0) + FilesIn(items[1..])
  }

  function DirectoriesIn(items: seq<Item>): nat {
    if items == [] then 0 else (if items[0].DirItem? then 1 else 0) + DirectoriesIn(items[1..])
  }

  function BytesIn(items: seq<Item>): nat {
    if items == [] then 0 else (if items[0].FileItem? then items[0].size else 0) + BytesIn(items[1..])
  }

  lemma {:induction false} PlanCounts(target: nat, checksum: bool, items: seq<Item>, packBytes: nat, pack: nat,
                                      stats: R.Stats)
    requires PlanItems(target, checksum, items, packBytes, pack, stats).ok
    ensures var total := PlanItems(target, checksum, items, packBytes, pack, stats).stats;
      total.files == stats.files + FilesIn(items) && total.directories == stats.directories + DirectoriesIn(items) &&
      total.bytes == stats.bytes + BytesIn(items)
    decreases |items|
  {
    if items != [] {
      var item, rest := items[0], items[1..];
      assert items == [item] + rest;
      C.PlanCons(target, checksum, item, rest, packBytes, pack, stats);
      hide ToWire, PlanItems;
      match item
      case SpecialItem(_) =>
        PlanCounts(target, checksum, rest, packBytes, pack, stats);
      case DirItem(_) =>
        PlanCounts(target, checksum, rest, packBytes, pack, stats.(directories := stats.directories + 1));
      case FileItem(_, size, _) =>
        var (packBytes', pack', stats') := C.AfterFile(target, size, packBytes, pack, stats);
        PlanCounts(target, checksum, rest, packBytes', pack', stats');
    }
  }

  /** The statistics of a complete transfer: the files, the directories with the root, and the bytes of the tree. */
  lemma StatisticsCount(profile: StorageProfile, checksum: bool, entries: seq<Entry>)
    requires PlanTree(profile, checksum, entries).ok
    ensures var stats, items := PlanTree(profile, checksum, entries).stats, Walk([], entries);
      stats.files == FilesIn(items) && stats.directories == 1 + DirectoriesIn(items) && stats.bytes == BytesIn(items)
  {
    PlanCounts(PackTarget(profile), checksum, Walk([], entries), 0, 0, InitialStats);
  }
}
