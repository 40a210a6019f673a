/**
  `send_directory` as it is written: a stack of open directory iterators and a
  copy loop whose reads return as many bytes as they like. The method is proved
  to emit what the recursive walk of `DirectorySender` says, with a stack no
  deeper than the tree.
*/
module DirectorySenderLoop {
  import opened Common
  import opened Wire
  import opened Paths
  import opened DirectorySender
  import opened DirectoryReceiverLoop
  import C = DirectoryCodec
  import R = DirectoryReceiver

  class Sink {
    var bytes: Bytes

    constructor ()
      ensures bytes == []
    {
      bytes := [];
    }

    method WriteAll(data: Bytes)
      modifies this
      ensures bytes == old(bytes) + data
    {
      bytes := bytes + data;
    }
  }

  // ---- the stack -------------------------------------------------------------

  /** A directory being listed: its path below the source, and the entries still to come. */
  datatype Listing = Listing(prefix: Path, left: seq<Entry>)

  /** What the stack still has to emit, the innermost directory first. */
  function Pending(stack: seq<Listing>): seq<Item> {
    if stack == [] then []
    else Walk(stack[|stack| - 1].prefix, stack[|stack| - 1].left) + Pending(stack[..|stack| - 1])
  }

  /** How deeply directories nest below these entries. */
  function Depth(entries: seq<Entry>): nat
    decreases entries
  {
    if entries == [] then 0
    else
      var rest := Depth(entries[1..]);
      var here := if entries[0].DirEntry? then 1 + Depth(entries[0].entries) else 0;
      if here > rest then here else rest
  }

  /** How often the loop can still take an entry or close a directory, below these entries. */
  function Weight(entries: seq<Entry>): nat
    decreases entries
  {
    if entries == [] then 0
    else 1 + (if entries[0].DirEntry? then 1 + Weight(entries[0].entries) else 0) + Weight(entries[1..])
  }

  function StackWeight(stack: seq<Listing>): nat {
    if stack == [] then 0 else 1 + Weight(stack[|stack| - 1].left) + StackWeight(stack[..|stack| - 1])
  }

  /** The listing at height `i` is nested `i` deep. */
  predicate WithinDepth(stack: seq<Listing>, depth: nat) {
    forall i :: 0 <= i < |stack| ==> i + Depth(stack[i].left) <= depth
  }

  function Taken(stack: seq<Listing>): seq<Listing>
    requires stack != [] && stack[|stack| - 1].left != []
  {
    var top := stack[|stack| - 1];
    stack[..|stack| - 1] + [top.(left := top.left[1..])]
  }

  /** What taking the next entry contributes before the rest of the stack. */
  function Emits(prefix: Path, e: Entry): seq<Item> {
    match e
    case Symlink(_) => []
    case DirEntry(name, sub) => [DirItem(prefix + [name])] + Walk(prefix + [name], sub)
    case _ => [ItemOf(prefix + [e.name], e)]
  }

  lemma {:induction false} WalkHead(prefix: Path, entries: seq<Entry>)
    requires entries != []
    ensures Walk(prefix, entries) == Emits(prefix, entries[0]) + Walk(prefix, entries[1..])
  {
  }

  lemma {:induction false} TakeEntry(stack: seq<Listing>, depth: nat)
    requires stack != [] && stack[|stack| - 1].left != [] && WithinDepth(stack, depth)
    ensures var top := stack[|stack| - 1];
      Pending(stack) == Emits(top.prefix, top.left[0]) + Pending(Taken(stack))
    ensures StackWeight(Taken(stack)) < StackWeight(stack) && WithinDepth(Taken(stack), depth)
  {
    var top, below := stack[|stack| - 1], stack[..|stack| - 1];
    assert stack == below + [top];
    WalkHead(top.prefix, top.left);
    TakenIsLower(stack, depth);
    TopFirst(below, top);
    TopFirst(below, top.(left := top.left[1..]));
    hide Walk, Emits, Weight, StackWeight, Pending, WithinDepth, Taken, Depth;
    assert Taken(stack) == below + [top.(left := top.left[1..])] by { TakenTop(below, top); }
  }

  lemma {:induction false} TakenTop(below: seq<Listing>, top: Listing)
    requires top.left != []
    ensures Taken(below + [top]) == below + [top.(left := top.left[1..])]
  {
    assert (below + [top])[..|below|] == below;
  }

  lemma {:induction false} TopFirst(below: seq<Listing>, top: Listing)
    ensures Pending(below + [top]) == Walk(top.prefix, top.left) + Pending(below)
    ensures StackWeight(below + [top]) == 1 + Weight(top.left) + StackWeight(below)
  {
    assert (below + [top])[..|below|] == below;
  }

  lemma {:induction false} TakenIsLower(stack: seq<Listing>, depth: nat)
    requires stack != [] && stack[|stack| - 1].left != [] && WithinDepth(stack, depth)
    ensures WithinDepth(Taken(stack), depth)
    ensures Weight(stack[|stack| - 1].left[1..]) < Weight(stack[|stack| - 1].left)
  {
    forall i | 0 <= i < |stack| ensures i + Depth(Taken(stack)[i].left) <= depth {
      assert i + Depth(stack[i].left) <= depth;
    }
  }

  lemma {:induction false} PushDirectory(stack: seq<Listing>, depth: nat)
    requires stack != [] && stack[|stack| - 1].left != [] && stack[|stack| - 1].left[0].DirEntry? &&
      WithinDepth(stack, depth)
    ensures var top := stack[|stack| - 1];
      var e := top.left[0];
      var pushed := Taken(stack) + [Listing(top.prefix + [e.name], e.entries)];
      Pending(stack) == [DirItem(top.prefix + [e.name])] + Pending(pushed) &&
      StackWeight(pushed) < StackWeight(stack) && WithinDepth(pushed, depth) && |pushed| <= depth + 1
  {
    TakeEntry(stack, depth);
    var top := stack[|stack| - 1];
    var e := top.left[0];
    var pushed := Taken(stack) + [Listing(top.prefix + [e.name], e.entries)];
    assert pushed[..|stack|] == Taken(stack);
    assert |stack| - 1 + Depth(top.left) <= depth;
    assert [DirItem(top.prefix + [e.name])] + Pending(pushed) == Emits(top.prefix, e) + Pending(Taken(stack));
    TakenWeight(stack);
  }

  lemma {:induction false} TakenWeight(stack: seq<Listing>)
    requires stack != [] && stack[|stack| - 1].left != [] && stack[|stack| - 1].left[0].DirEntry?
    ensures StackWeight(Taken(stack)) + 2 + Weight(stack[|stack| - 1].left[0].entries) == StackWeight(stack)
  {
    assert Taken(stack)[..|stack| - 1] == stack[..|stack| - 1];
  }

  lemma {:induction false} PopListing(stack: seq<Listing>, depth: nat)
    requires stack != [] && stack[|stack| - 1].left == [] && WithinDepth(stack, depth)
    ensures var popped := stack[..|stack| - 1];
      Pending(popped) == Pending(stack) && StackWeight(popped) < StackWeight(stack) && WithinDepth(popped, depth)
  {
    var below, top := stack[..|stack| - 1], stack[|stack| - 1];
    assert stack == below + [top];
    TopFirst(below, top);
    assert Walk(top.prefix, []) == [] && [] + Pending(below) == Pending(below);
    assert forall i :: 0 <= i < |below| ==> below[i] == stack[i];
    hide Walk, Pending, StackWeight, Weight, Depth;
  }

  /** What one turn of the loop does to the stack. */
  function NextStack(stack: seq<Listing>): seq<Listing>
    requires stack != []
  {
    var top := stack[|stack| - 1];
    if top.left == [] then stack[..|stack| - 1]
    else if top.left[0].DirEntry? then
      Taken(stack) + [Listing(top.prefix + [top.left[0].name], top.left[0].entries)]
    else Taken(stack)
  }

  function StackAfter(entries: seq<Entry>, steps: nat): seq<Listing> {
    if steps == 0 then [Listing([], entries)]
    else
      var stack := StackAfter(entries, steps - 1);
      if stack == [] then [] else NextStack(stack)
  }

  lemma {:induction false} StackSteps(stack: seq<Listing>, depth: nat)
    requires stack != [] && WithinDepth(stack, depth)
    ensures WithinDepth(NextStack(stack), depth) && StackWeight(NextStack(stack)) + 1 == StackWeight(stack)
  {
    var top := stack[|stack| - 1];
    if top.left != [] {
      TakeEntry(stack, depth);
      assert Taken(stack)[..|stack| - 1] == stack[..|stack| - 1];
      if top.left[0].DirEntry? {
        PushDirectory(stack, depth);
        TakenWeight(stack);
        assert NextStack(stack)[..|stack|] == Taken(stack);
      }
    }
  }

  /**
    The stack is never higher than the tree is deep, plus one, and the loop
    ends after one turn per entry and one more per directory, the source
    itself included.
  */
  lemma {:induction false} StackIsShallow(entries: seq<Entry>, steps: nat)
    ensures |StackAfter(entries, steps)| <= Depth(entries) + 1 &&
      WithinDepth(StackAfter(entries, steps), Depth(entries))
    ensures steps <= 1 + Weight(entries) ==> StackWeight(StackAfter(entries, steps)) == 1 + Weight(entries) - steps
    ensures StackAfter(entries, steps) == [] <==> steps > Weight(entries)
  {
    var stack := StackAfter(entries, steps);
    if steps == 0 {
      assert stack[..0] == [];
    } else {
      StackIsShallow(entries, steps - 1);
      var before := StackAfter(entries, steps - 1);
      if before != [] { StackSteps(before, Depth(entries)); }
    }
    if stack != [] {
      assert |stack| - 1 + Depth(stack[|stack| - 1].left) <= Depth(entries);
    }
  }

  // ---- one file --------------------------------------------------------------

  /** The copy loop: exactly `size` bytes, or as many as there are and then failure. */
  method SendContent(file: Source, sink: Sink, size: nat) returns (hashed: Bytes, ok: bool)
    modifies file, sink
    ensures ok == (|old(file.bytes)| >= size)
    ensures hashed == if ok then old(file.bytes)[..size] else old(file.bytes)
    ensures sink.bytes == old(sink.bytes) + hashed
  {
    hashed := [];
    var remaining := size;
    while remaining > 0
      invariant 0 <= remaining == size - |hashed|
      invariant hashed + file.bytes == old(file.bytes) && sink.bytes == old(sink.bytes) + hashed
    {
      var read := file.Read(if remaining < FILE_CHUNK_SIZE then remaining else FILE_CHUNK_SIZE);
      if read == [] {
        assert hashed == old(file.bytes);
        return hashed, false;
      }
      hashed := hashed + read;
      sink.WriteAll(read);
      remaining := remaining - |read|;
    }
    assert hashed == (hashed + file.bytes)[..size];
    ok := true;
  }

  /** What a file adds to the stream. */
  function FileBytes(hash: R.Hasher, opening: seq<Frame>, path: Bytes, size: nat, data: Bytes, checksum: bool): Bytes {
    EncodeAll(hash, opening) +
    if |data| >= size then Encode(hash, FileFrame(path, data[..size], checksum))
    else FileHeaderBytes(path, size, checksum) + data
  }

  lemma {:induction false} FileBytesParts(hash: R.Hasher, opening: seq<Frame>, path: Bytes, size: nat, data: Bytes,
                                          checksum: bool)
    ensures FileBytes(hash, opening, path, size, data, checksum) ==
      if |data| < size then EncodeAll(hash, opening) + FileHeaderBytes(path, size, checksum) + data
      else EncodeAll(hash, opening) + FileHeaderBytes(path, size, checksum) + data[..size] +
           (if checksum then hash(data[..size]) else [])
  {
    hide FileHeaderBytes, EncodeAll;
  }

  /** The same written behind `start`, piece by piece. */
  lemma FileBytesAfter(hash: R.Hasher, start: Bytes, opening: seq<Frame>, path: Bytes, size: nat, data: Bytes,
                       checksum: bool)
    ensures start + FileBytes(hash, opening, path, size, data, checksum) ==
      var header := start + EncodeAll(hash, opening) + FileHeaderBytes(path, size, checksum);
      if |data| < size then header + data
      else if checksum then header + data[..size] + hash(data[..size])
      else header + data[..size]
  {
    hide FileHeaderBytes, EncodeAll, FileBytes;
    FileBytesParts(hash, opening, path, size, data, checksum);
    var e, h := EncodeAll(hash, opening), FileHeaderBytes(path, size, checksum);
    if |data| < size {
      Regroup(start, e, h, data, []);
    } else {
      Regroup(start, e, h, data[..size], if checksum then hash(data[..size]) else []);
    }
  }

  lemma Regroup(a: Bytes, b: Bytes, c: Bytes, d: Bytes, e: Bytes)
    ensures a + (b + c + d + e) == a + b + c + d + e
    ensures a + (b + c + d) == a + b + c + d && a + b + c + d + [] == a + b + c + d && b + c + d + [] == b + c + d
  {
  }

  /** Closes a pack that would overflow, and opens the next one. */
  method OpenPack(hash: R.Hasher, sink: Sink, target: nat, size: nat, packBytes: nat, pack: nat, stats: R.Stats)
    returns (packBytes': nat, pack': nat, stats': R.Stats)
    modifies sink
    ensures sink.bytes == old(sink.bytes) + EncodeAll(hash, Opening(target, packBytes, pack, size))
    ensures (packBytes' + size, pack', stats'.(files := stats'.files + 1, bytes := stats'.bytes + size)) ==
            C.AfterFile(target, size, packBytes, pack, stats)
  {
    hide EncodeAll, Encode, U64;
    packBytes', pack', stats' := packBytes, pack, stats;
    NoMarks(hash);
    if packBytes' > 0 && packBytes' + size > target {
      sink.WriteAll([R.FRAME_PACK_END]);
      pack' := pack' + 1;
      stats' := stats'.(packs := stats'.packs + 1);
      packBytes' := 0;
      sink.WriteAll([R.FRAME_PACK_START] + U64(pack'));
      TwoMarks(hash, pack');
    }
  }

  /** Everything of a file frame before the content. */
  method WriteFileHeader(sink: Sink, path: Bytes, size: nat, checksum: bool)
    modifies sink
    ensures sink.bytes == old(sink.bytes) + FileHeaderBytes(path, size, checksum)
  {
    sink.WriteAll([R.FRAME_FILE]);
    sink.WriteAll(PathBytes(path));
    sink.WriteAll(U64(size));
    sink.WriteAll([if checksum then 1 else 0]);
    hide PathBytes, U64;
  }

  /** Opens a pack if need be and sends one regular file. */
  method SendFile(hash: R.Hasher, sink: Sink, target: nat, checksum: bool, path: Bytes, size: nat, data: Bytes,
                  packBytes: nat, pack: nat, stats: R.Stats)
    returns (ok: bool, packBytes': nat, pack': nat, stats': R.Stats)
    modifies sink
    ensures ok == (|data| >= size)
    ensures sink.bytes ==
      old(sink.bytes) + FileBytes(hash, Opening(target, packBytes, pack, size), path, size, data, checksum)
    ensures ok ==> (packBytes', pack', stats') == C.AfterFile(target, size, packBytes, pack, stats)
  {
    hide Opening, EncodeAll, FileHeaderBytes, C.AfterFile, FileBytes, Overfills;
    ghost var opening := Opening(target, packBytes, pack, size);
    packBytes', pack', stats' := OpenPack(hash, sink, target, size, packBytes, pack, stats);
    WriteFileHeader(sink, path, size, checksum);
    var file := new Source(data);
    var hashed;
    hashed, ok := SendContent(file, sink, size);
    FileBytesAfter(hash, old(sink.bytes), opening, path, size, data, checksum);
    if !ok {
      return;
    }
    if checksum {
      sink.WriteAll(hash(hashed));
    }
    stats' := stats'.(files := stats'.files + 1, bytes := stats'.bytes + size);
    packBytes' := packBytes' + size;
  }

  lemma {:induction false} NoMarks(hash: R.Hasher)
    ensures EncodeAll(hash, []) == []
  {
  }

  lemma {:induction false} TwoMarks(hash: R.Hasher, number: nat)
    ensures EncodeAll(hash, [PackEnd, PackStart(number)]) == [R.FRAME_PACK_END] + ([R.FRAME_PACK_START] + U64(number))
  {
    assert [PackEnd, PackStart(number)][1..] == [PackStart(number)];
    assert EncodeAll(hash, [PackStart(number)]) == Encode(hash, PackStart(number)) + EncodeAll(hash, []);
  }

  // ---- the walk --------------------------------------------------------------

  function PlanBytes(hash: R.Hasher, plan: Plan): Bytes {
    EncodeAll(hash, plan.frames) + plan.cut
  }

  lemma {:induction false} PlanBytesPrepend(hash: R.Hasher, frames: seq<Frame>, plan: Plan)
    ensures PlanBytes(hash, Prepend(frames, plan)) == EncodeAll(hash, frames) + PlanBytes(hash, plan)
  {
    EncodeAllAppend(hash, frames, plan.frames);
  }

  /** The state of the loop: what has been written, and what is left, make up the whole emission. */
  ghost predicate OnTrack(hash: R.Hasher, whole: Plan, start: Bytes, written: Bytes, rest: Plan) {
    rest.ok == whole.ok && rest.stats == whole.stats &&
    written + PlanBytes(hash, rest) == start + PlanBytes(hash, whole)
  }

  lemma {:induction false} Advance(hash: R.Hasher, whole: Plan, start: Bytes, written: Bytes, frames: seq<Frame>,
                                   rest: Plan)
    requires OnTrack(hash, whole, start, written, Prepend(frames, rest))
    ensures OnTrack(hash, whole, start, written + EncodeAll(hash, frames), rest)
  {
    PlanBytesPrepend(hash, frames, rest);
    hide PlanBytes, EncodeAll;
  }

  lemma {:induction false} SingleFrame(hash: R.Hasher, f: Frame)
    ensures EncodeAll(hash, [f]) == Encode(hash, f)
  {
    assert EncodeAll(hash, [f]) == Encode(hash, f) + EncodeAll(hash, []);
  }

  /** One entry: its bytes, and the loop state after it. */
  method SendEntry(hash: R.Hasher, sink: Sink, target: nat, checksum: bool, item: Item, ghost rest: seq<Item>,
                   packBytes: nat, pack: nat, stats: R.Stats, ghost whole: Plan, ghost start: Bytes)
    returns (ok: bool, packBytes': nat, pack': nat, stats': R.Stats)
    requires item.path != []
    requires OnTrack(hash, whole, start, sink.bytes, PlanItems(target, checksum, [item] + rest, packBytes, pack, stats))
    modifies sink
    ensures !ok ==> !whole.ok && sink.bytes == start + PlanBytes(hash, whole)
    ensures ok ==> OnTrack(hash, whole, start, sink.bytes, PlanItems(target, checksum, rest, packBytes', pack', stats'))
  {
    hide EncodeAll, Encode, FileHeaderBytes, Opening, C.AfterFile, PlanBytes;
    ghost var items := [item] + rest;
    assert items[0] == item;
    packBytes', pack', stats' := packBytes, pack, stats;
    var wire := ToWire(item.path);
    if wire.None? {
      NothingLeft(hash, target, checksum, items, packBytes, pack, stats);
      return false, packBytes', pack', stats';
    }
    var path := wire.value;
    if item.FileItem? {
      ok, packBytes', pack', stats' :=
        SendFile(hash, sink, target, checksum, path, item.size, item.data, packBytes, pack, stats);
      FileAdvances(hash, target, checksum, item, rest, packBytes, pack, stats, whole, start, old(sink.bytes));
    } else {
      C.PlanCons(target, checksum, item, rest, packBytes, pack, stats);
      if item.DirItem? {
        Advance(hash, whole, start, sink.bytes, [DirectoryFrame(path)],
                PlanItems(target, checksum, rest, packBytes, pack, stats.(directories := stats.directories + 1)));
        sink.WriteAll([R.FRAME_DIRECTORY]);
        sink.WriteAll(PathBytes(path));
        DirectoryBytes(hash, path);
        assert sink.bytes == old(sink.bytes) + EncodeAll(hash, [DirectoryFrame(path)]);
        stats' := stats'.(directories := stats'.directories + 1);
      }
      ok := true;
    }
  }

  lemma {:induction false} DirectoryBytes(hash: R.Hasher, path: Bytes)
    ensures EncodeAll(hash, [DirectoryFrame(path)]) == [R.FRAME_DIRECTORY] + PathBytes(path)
  {
    SingleFrame(hash, DirectoryFrame(path));
  }

  lemma {:induction false} NothingLeft(hash: R.Hasher, target: nat, checksum: bool, items: seq<Item>, packBytes: nat,
                                       pack: nat, stats: R.Stats)
    requires items != [] && (items[0].path == [] || ToWire(items[0].path).None?)
    ensures var plan := PlanItems(target, checksum, items, packBytes, pack, stats);
      !plan.ok && PlanBytes(hash, plan) == []
  {
  }

  lemma {:induction false} FileAdvances(hash: R.Hasher, target: nat, checksum: bool, item: Item, rest: seq<Item>,
                     packBytes: nat, pack: nat, stats: R.Stats, whole: Plan, start: Bytes, written: Bytes)
    requires item.FileItem? && item.path != [] && ToWire(item.path).Some?
    requires OnTrack(hash, whole, start, written, PlanItems(target, checksum, [item] + rest, packBytes, pack, stats))
    ensures var path := ToWire(item.path).value;
      var opening := Opening(target, packBytes, pack, item.size);
      var bytes := FileBytes(hash, opening, path, item.size, item.data, checksum);
      var (packBytes', pack', stats') := C.AfterFile(target, item.size, packBytes, pack, stats);
      if |item.data| < item.size then !whole.ok && written + bytes == start + PlanBytes(hash, whole)
      else OnTrack(hash, whole, start, written + bytes, PlanItems(target, checksum, rest, packBytes', pack', stats'))
  {
    var path := ToWire(item.path).value;
    var opening := Opening(target, packBytes, pack, item.size);
    var bytes := FileBytes(hash, opening, path, item.size, item.data, checksum);
    if |item.data| < item.size {
      ShortFile(hash, target, checksum, [item] + rest, packBytes, pack, stats);
      hide PlanItems, FileBytes, PlanBytes;
    } else {
      var file := FileFrame(path, item.data[..item.size], checksum);
      var (packBytes', pack', stats') := C.AfterFile(target, item.size, packBytes, pack, stats);
      C.PlanCons(target, checksum, item, rest, packBytes, pack, stats);
      EncodeAllAppend(hash, opening, [file]);
      SingleFrame(hash, file);
      hide PlanItems, EncodeAll, Encode, Opening, ToWire;
      Advance(hash, whole, start, written, opening + [file],
              PlanItems(target, checksum, rest, packBytes', pack', stats'));
    }
  }

  lemma {:induction false} ShortFile(hash: R.Hasher, target: nat, checksum: bool, items: seq<Item>, packBytes: nat,
                                     pack: nat, stats: R.Stats)
    requires items != [] && items[0].FileItem? && items[0].path != [] && ToWire(items[0].path).Some? &&
      |items[0].data| < items[0].size
    ensures var plan := PlanItems(target, checksum, items, packBytes, pack, stats);
      !plan.ok &&
      PlanBytes(hash, plan) ==
        FileBytes(hash, Opening(target, packBytes, pack, items[0].size), ToWire(items[0].path).value,
                                         items[0].size, items[0].data, checksum)
  {
    hide ToWire, EncodeAll, FileHeaderBytes, Opening;
  }

  /** The item that a turn of the loop sends, if any. */
  function TopItem(stack: seq<Listing>): (item: Option<Item>)
    requires stack != []
    ensures item.Some? ==> item.value.path != []
  {
    var top := stack[|stack| - 1];
    if top.left == [] || top.left[0].Symlink? then None
    else Some(ItemOf(top.prefix + [top.left[0].name], top.left[0]))
  }

  lemma {:induction false} PendingSteps(stack: seq<Listing>, depth: nat)
    requires stack != [] && WithinDepth(stack, depth)
    ensures Pending(stack) == (if TopItem(stack).Some? then [TopItem(stack).value] else []) + Pending(NextStack(stack))
  {
    var top := stack[|stack| - 1];
    if top.left == [] {
      PopListing(stack, depth);
    } else {
      TakeEntry(stack, depth);
      if top.left[0].DirEntry? { PushDirectory(stack, depth); }
    }
  }

  lemma {:induction false} Turn(entries: seq<Entry>, steps: nat)
    requires StackAfter(entries, steps) != []
    ensures var stack, next := StackAfter(entries, steps), StackAfter(entries, steps + 1);
      next == NextStack(stack) && StackWeight(next) < StackWeight(stack) &&
      Pending(stack) == (if TopItem(stack).Some? then [TopItem(stack).value] else []) + Pending(next)
  {
    StackIsShallow(entries, steps);
    StackSteps(StackAfter(entries, steps), Depth(entries));
    PendingSteps(StackAfter(entries, steps), Depth(entries));
  }

  /** Takes the next entry of the innermost open directory, or closes it, or opens the directory met. */
  method NextEntry(stack: seq<Listing>) returns (next: seq<Listing>, item: Option<Item>)
    requires stack != []
    ensures next == NextStack(stack) && item == TopItem(stack)
  {
    var n := |stack| - 1;
    if stack[n].left == [] {
      return stack[..n], None;
    }
    var prefix, e := stack[n].prefix, stack[n].left[0];
    next := stack[..n] + [stack[n].(left := stack[n].left[1..])];
    if e.Symlink? {
      return next, None;
    }
    if e.DirEntry? {
      next := next + [Listing(prefix + [e.name], e.entries)];
    }
    item := Some(ItemOf(prefix + [e.name], e));
  }

  /** The loop over the stack of open directories. */
  method WalkTree(hash: R.Hasher, sink: Sink, target: nat, checksum: bool, entries: seq<Entry>)
    returns (ok: bool, stats: R.Stats, ghost steps: nat)
    modifies sink
    ensures var plan := PlanItems(target, checksum, Walk([], entries), 0, 0, InitialStats);
      sink.bytes == old(sink.bytes) + PlanBytes(hash, plan) && ok == plan.ok && (ok ==> stats == plan.stats)
    ensures ok ==> steps == 1 + Weight(entries)
  {
    hide Walk, PlanItems, PlanBytes, EncodeAll, Encode, Depth, Weight, StackWeight, StackAfter, NextStack, TopItem;
    ghost var whole := PlanItems(target, checksum, Walk([], entries), 0, 0, InitialStats);
    stats := InitialStats;
    var packBytes, pack := 0, 0;
    var stack := [Listing([], entries)];
    steps := 0;
    FirstStack(entries);
    while stack != []
      invariant OnTrack(hash, whole, old(sink.bytes), sink.bytes,
                        PlanItems(target, checksum, Pending(stack), packBytes, pack, stats))
      invariant stack == StackAfter(entries, steps) && (steps > 0 ==> StackAfter(entries, steps - 1) != [])
      decreases StackWeight(stack)
    {
      Turn(entries, steps);
      var item;
      stack, item := NextEntry(stack);
      steps := steps + 1;
      if item.Some? {
        ok, packBytes, pack, stats :=
          SendEntry(hash, sink, target, checksum, item.value, Pending(stack), packBytes, pack, stats, whole,
                    old(sink.bytes));
        if !ok {
          return;
        }
      } else {
        assert [] + Pending(stack) == Pending(stack);
      }
    }
    StackIsShallow(entries, steps);
    StackIsShallow(entries, steps - 1);
    FinalFrames(hash, target, checksum, packBytes, pack, stats);
    sink.WriteAll([R.FRAME_PACK_END]);
    sink.WriteAll([R.FRAME_END]);
    sink.WriteAll(U64(stats.files));
    sink.WriteAll(U64(stats.directories));
    sink.WriteAll(U64(stats.bytes));
    ok := true;
  }

  lemma {:induction false} FirstStack(entries: seq<Entry>)
    ensures StackAfter(entries, 0) == [Listing([], entries)] && Pending([Listing([], entries)]) == Walk([], entries)
  {
    assert [Listing([], entries)][..0] == [];
  }

  lemma {:induction false} FinalFrames(hash: R.Hasher, target: nat, checksum: bool, packBytes: nat, pack: nat,
                                       stats: R.Stats)
    ensures var plan := PlanItems(target, checksum, [], packBytes, pack, stats);
      plan.ok && plan.stats == stats &&
      PlanBytes(hash, plan) ==
        [R.FRAME_PACK_END] + [R.FRAME_END] + U64(stats.files) + U64(stats.directories) + U64(stats.bytes)
  {
    var end := End(stats.files, stats.directories, stats.bytes);
    assert [PackEnd, end] == [PackEnd] + [end];
    EncodeAllAppend(hash, [PackEnd], [end]);
    SingleFrame(hash, PackEnd);
    SingleFrame(hash, end);
  }

  lemma {:induction false} EmitBytes(hash: R.Hasher, profile: StorageProfile, checksum: bool, rootName: Name,
                                     entries: seq<Entry>)
    requires ToWire([rootName]).Some?
    ensures Emit(hash, profile, checksum, rootName, entries).bytes ==
      [R.FRAME_START] + PathBytes(ToWire([rootName]).value) + ([R.FRAME_PACK_START] + U64(0)) +
      PlanBytes(hash, PlanItems(PackTarget(profile), checksum, Walk([], entries), 0, 0, InitialStats))
  {
    var plan := PlanItems(PackTarget(profile), checksum, Walk([], entries), 0, 0, InitialStats);
    EncodeAllAppend(hash, [PackStart(0)], plan.frames);
    SingleFrame(hash, PackStart(0));
    hide PlanItems, Walk, EncodeAll, ToWire, PathBytes, U64;
  }

  /**
    `send_directory`, however the reads of the files are cut: the bytes, the
    result and the statistics are those of `Emit`.
  */
  method SendDirectory(hash: R.Hasher, sink: Sink, profile: StorageProfile, checksum: bool, rootName: Name,
                       entries: seq<Entry>)
    returns (r: Option<R.Stats>)
    modifies sink
    ensures var e := Emit(hash, profile, checksum, rootName, entries);
      sink.bytes == old(sink.bytes) + e.bytes && r == (if e.ok then Some(e.stats) else None)
  {
    hide Walk, PlanItems, ToWire, Depth, EncodeAll, PlanBytes, PathBytes, U64;
    var name := ToWire([rootName]);
    if name.None? {
      return None;
    }
    sink.WriteAll([R.FRAME_START]);
    sink.WriteAll(PathBytes(name.value));
    sink.WriteAll([R.FRAME_PACK_START] + U64(0));
    var ok, stats, _ := WalkTree(hash, sink, PackTarget(profile), checksum, entries);
    EmitBytes(hash, profile, checksum, rootName, entries);
    r := if ok then Some(stats) else None;
  }
}
