/**
  `run_pipe` from end to end: the copy loop into one stream, the network, and
  the copy loop out of the stream at the other end, without errors or
  cancellation. A task that a poll left pending runs again only when woken.
*/
module Pipe {
  import opened Common
  import S = StreamAdapter
  import T = StreamRuns

  const PIPE_BUFFER_SIZE: nat := 128 * 1024

  const SEND_TASK: S.Waker := 1
  const RECV_TASK: S.Waker := 2

  /** `Writing` is inside `write_all` of a chunk of `size` bytes, of which `rest` is left. */
  datatype Phase = Reading | Writing(rest: Bytes, size: nat) | Finishing | Finished

  /**
    `near` and `far` are the two ends of the stream. What the network carries is
    what `near` has handed over and `far` has not received.
  */
  datatype State = State(
    input: Bytes,
    phase: Phase,
    bytesSent: nat,
    sentHashed: Bytes,
    near: T.World,
    sendParked: bool,
    far: T.World,
    recvParked: bool,
    recvDone: bool,
    bytesReceived: nat,
    receivedHashed: Bytes,
    output: Bytes)

  function Begin(input: Bytes): State {
    State(input, Reading, 0, [], T.Start, false, T.Start, false, false, 0, [], [])
  }

  function Rest(s: State): Bytes {
    if s.phase.Writing? then s.phase.rest else []
  }

  function Wire(s: State): Bytes {
    if |s.far.received| <= |s.near.handed| then s.near.handed[|s.far.received|..] else []
  }

  datatype Act =
    | ReadInput(n: nat)
    | InputEnds
    | PollWrite
    | CompleteSend(index: nat)
    | PollShutdown
    | Deliver(buffers: seq<Bytes>)
    | DeliverFin
    | PollRead

  predicate Enabled(s: State, a: Act) {
    match a
    case ReadInput(n) => s.phase.Reading? && 1 <= n <= Min(|s.input|, PIPE_BUFFER_SIZE)
    case InputEnds => s.phase.Reading? && s.input == []
    case PollWrite => s.phase.Writing? && !s.sendParked
    case CompleteSend(index) => index < |s.near.outstanding|
    case PollShutdown => s.phase.Finishing? && !s.sendParked
    case Deliver(buffers) => Flatten(buffers) != [] && IsPrefix(Flatten(buffers), Wire(s))
    case DeliverFin => s.near.fins > 0 && Wire(s) == [] && !s.far.shared.closedRead
    case PollRead => !s.recvDone && !s.recvParked
  }

  /** After an event at one end, its task runs again if it was woken. */
  function StillParked(parked: bool, w: T.World, a: T.Act, task: S.Waker): bool
    requires T.Enabled(w, a)
  {
    parked && task !in T.Woken(w, a)
  }

  function DoPollWrite(s: State): State
    requires s.phase.Writing?
  {
    var write := T.Write(SEND_TASK, s.phase.rest, S.Accepts);
    var near := T.Do(s.near, write);
    match S.PollWrite(s.near.shared, SEND_TASK, s.phase.rest, S.Accepts).1
    case Wrote(count) =>
      if count >= |s.phase.rest| then s.(near := near, phase := Reading, bytesSent := s.bytesSent + s.phase.size)
      else s.(near := near, phase := s.phase.(rest := s.phase.rest[count..]))
    case WritePending => s.(near := near, sendParked := true)
    case WriteFailed(_) => s.(near := near, phase := Finishing)
  }

  function DoPollShutdown(s: State): State {
    var near := T.Do(s.near, T.Shutdown(SEND_TASK, S.Accepts));
    if S.PollShutdown(s.near.shared, SEND_TASK, S.Accepts).1.FlushPending? then s.(near := near, sendParked := true)
    else s.(near := near, phase := Finished)
  }

  function DoPollRead(s: State): State {
    var far := T.Do(s.far, T.Read(RECV_TASK, PIPE_BUFFER_SIZE));
    match S.PollRead(s.far.shared, RECV_TASK, PIPE_BUFFER_SIZE).1
    case ReadReady(data) =>
      if data == [] then s.(far := far, recvDone := true)
      else s.(far := far, output := s.output + data, receivedHashed := s.receivedHashed + data,
              bytesReceived := s.bytesReceived + |data|)
    case ReadPending => s.(far := far, recvParked := true)
    case ReadFailed(_) => s.(far := far, recvDone := true)
  }

  function Do(s: State, a: Act): State
    requires Enabled(s, a)
  {
    match a
    case ReadInput(n) =>
      s.(input := s.input[n..], phase := Writing(s.input[..n], n), sentHashed := s.sentHashed + s.input[..n])
    case InputEnds => s.(phase := Finishing)
    case PollWrite => DoPollWrite(s)
    case CompleteSend(index) =>
      s.(near := T.Do(s.near, T.Complete(index)),
         sendParked := StillParked(s.sendParked, s.near, T.Complete(index), SEND_TASK))
    case PollShutdown => DoPollShutdown(s)
    case Deliver(buffers) =>
      var event := T.On(S.Receive(buffers));
      s.(far := T.Do(s.far, event), recvParked := StillParked(s.recvParked, s.far, event, RECV_TASK))
    case DeliverFin =>
      var event := T.On(S.PeerSendShutdown);
      s.(far := T.Do(s.far, event), recvParked := StillParked(s.recvParked, s.far, event, RECV_TASK))
    case PollRead => DoPollRead(s)
  }

  predicate Runs(s: State, acts: seq<Act>)
    decreases |acts|
  {
    acts == [] || (Enabled(s, acts[0]) && Runs(Do(s, acts[0]), acts[1..]))
  }

  function After(s: State, acts: seq<Act>): State
    requires Runs(s, acts)
    decreases |acts|
  {
    if acts == [] then s else After(Do(s, acts[0]), acts[1..])
  }

  // ---- what every run keeps ---------------------------------------------------

  predicate NearEnd(s: State, total: Bytes) {
    T.Kept(s.near) && T.Accounted(s.near) && s.near.shared.error.None? &&
    s.sentHashed + s.input == total && s.near.handed + Rest(s) == s.sentHashed &&
    s.bytesSent + (if s.phase.Writing? then s.phase.size else 0) == |s.sentHashed| &&
    (s.phase.Writing? ==> 0 < |s.phase.rest| <= PIPE_BUFFER_SIZE) &&
    (s.phase.Finishing? || s.phase.Finished? ==> s.input == []) &&
    (s.near.shared.closedWrite <==> s.phase.Finished?) && (s.near.fins > 0 <==> s.phase.Finished?) &&
    (s.phase.Finished? ==> s.near.outstanding == []) &&
    (s.sendParked ==> s.near.shared.sendWaker == Some(SEND_TASK) && (s.phase.Writing? || s.phase.Finishing?))
  }

  predicate FarEnd(s: State) {
    T.Kept(s.far) && s.far.shared.error.None? &&
    s.output == s.far.read == s.receivedHashed && s.bytesReceived == |s.output| &&
    (s.recvDone ==> s.far.shared.closedRead && s.far.shared.recvBuf == []) &&
    (s.recvParked ==> s.far.shared.recvWaker == Some(RECV_TASK) && !s.recvDone)
  }

  predicate Between(s: State) {
    IsPrefix(s.far.received, s.near.handed) &&
    (s.far.shared.closedRead ==> s.phase.Finished? && s.far.received == s.near.handed)
  }

  predicate Inv(s: State, total: Bytes) {
    NearEnd(s, total) && FarEnd(s) && Between(s)
  }

  lemma PollWriteKeeps(s: State, total: Bytes)
    requires Inv(s, total) && Enabled(s, PollWrite)
    ensures Inv(Do(s, PollWrite), total)
  {
    PollWriteNear(s, total);
    PollWriteHands(s);
    var s' := Do(s, PollWrite);
    hide Do, NearEnd, T.Kept;
    assert s'.near.handed[..|s.near.handed|][..|s.far.received|] == s'.near.handed[..|s.far.received|];
  }

  /** A write only adds to what has been handed over, and leaves the far end alone. */
  lemma PollWriteHands(s: State)
    requires Enabled(s, PollWrite)
    ensures var s' := Do(s, PollWrite);
      IsPrefix(s.near.handed, s'.near.handed) &&
      s'.far == s.far && s'.output == s.output && s'.receivedHashed == s.receivedHashed &&
      s'.bytesReceived == s.bytesReceived && s'.recvDone == s.recvDone && s'.recvParked == s.recvParked
  {
    hide T.Kept;
  }

  /** A chunk of the pipe is small enough to be described in full. */
  lemma ChunkIsWritten(s: S.Shared, buf: Bytes)
    requires s.error.None? && !s.closedWrite && 0 < |buf| <= PIPE_BUFFER_SIZE
    ensures S.PollWrite(s, SEND_TASK, buf, S.Accepts) ==
      if s.inFlight >= S.MAX_IN_FLIGHT_BYTES then (s.(sendWaker := Some(SEND_TASK)), S.WritePending)
      else (s.(inFlight := s.inFlight + |buf|), S.Wrote(|buf|))
  {
  }

  lemma PollWriteNear(s: State, total: Bytes)
    requires NearEnd(s, total) && Enabled(s, PollWrite)
    ensures NearEnd(Do(s, PollWrite), total)
  {
    hide T.Kept, T.Accounted, S.PollWrite, S.Described;
    var rest, s' := s.phase.rest, Do(s, PollWrite);
    var write := T.Write(SEND_TASK, rest, S.Accepts);
    T.KeptByStep(s.near, write);
    T.AccountedByStep(s.near, write);
    ChunkIsWritten(s.near.shared, rest);
    assert rest[..|rest|] == rest;
    if s.near.shared.inFlight < S.MAX_IN_FLIGHT_BYTES {
      assert s'.near.handed == s.near.handed + rest && Rest(s') == [];
      assert s'.near.handed + [] == s'.sentHashed;
    }
  }

  lemma CompleteKeeps(s: State, total: Bytes, index: nat)
    requires Inv(s, total) && Enabled(s, CompleteSend(index))
    ensures Inv(Do(s, CompleteSend(index)), total)
  {
    T.KeptByStep(s.near, T.Complete(index));
    T.AccountedByStep(s.near, T.Complete(index));
    hide T.Kept, T.Accounted;
  }

  lemma PollShutdownKeeps(s: State, total: Bytes)
    requires Inv(s, total) && Enabled(s, PollShutdown)
    ensures Inv(Do(s, PollShutdown), total)
  {
    T.KeptByStep(s.near, T.Shutdown(SEND_TASK, S.Accepts));
    T.AccountedByStep(s.near, T.Shutdown(SEND_TASK, S.Accepts));
    Drained(s.near);
    hide T.Kept, T.Accounted;
  }

  /** With a right count, nothing in flight means nothing outstanding. */
  lemma Drained(w: T.World)
    requires T.Kept(w) && T.Accounted(w)
    ensures w.shared.inFlight == 0 ==> w.outstanding == []
  {
    if w.outstanding != [] {
      assert w.outstanding[|w.outstanding| - 1] != [];
    }
  }

  lemma DeliverKeeps(s: State, total: Bytes, buffers: seq<Bytes>)
    requires Inv(s, total) && Enabled(s, Deliver(buffers))
    ensures Inv(Do(s, Deliver(buffers)), total)
  {
    T.KeptByStep(s.far, T.On(S.Receive(buffers)));
    assert s.near.handed == s.far.received + Wire(s);
    assert s.far.received + Flatten(buffers) == s.near.handed[..|s.far.received| + |Flatten(buffers)|];
    hide T.Kept, T.Accounted;
    assert Wire(s) != [];
  }

  lemma DeliverFinKeeps(s: State, total: Bytes)
    requires Inv(s, total) && Enabled(s, DeliverFin)
    ensures Inv(Do(s, DeliverFin), total)
  {
    T.KeptByStep(s.far, T.On(S.PeerSendShutdown));
    hide T.Kept, T.Accounted;
  }

  lemma SameNear(s: State, s': State, total: Bytes)
    requires NearEnd(s, total) && s' == s.(far := s'.far, output := s'.output, receivedHashed := s'.receivedHashed,
                                           bytesReceived := s'.bytesReceived, recvDone := s'.recvDone,
                                             recvParked := s'.recvParked)
    ensures NearEnd(s', total)
  {
    hide T.Kept, T.Accounted;
  }

  lemma PollReadKeeps(s: State, total: Bytes)
    requires Inv(s, total) && Enabled(s, PollRead)
    ensures Inv(Do(s, PollRead), total)
  {
    hide T.Kept, T.Accounted, NearEnd;
    T.KeptByStep(s.far, T.Read(RECV_TASK, PIPE_BUFFER_SIZE));
    assert NearEnd(Do(s, PollRead), total) by { SameNear(s, Do(s, PollRead), total); }
  }

  lemma StepKeeps(s: State, total: Bytes, a: Act)
    requires Inv(s, total) && Enabled(s, a)
    ensures Inv(Do(s, a), total)
  {
    match a
    case ReadInput(n) =>
      assert s.input == s.input[..n] + s.input[n..];
      assert s.sentHashed + s.input[..n] + s.input[n..] == total;
      hide T.Kept, T.Accounted, FarEnd;
    case InputEnds => hide T.Kept, T.Accounted, FarEnd;
    case PollWrite => PollWriteKeeps(s, total);
    case CompleteSend(index) => CompleteKeeps(s, total, index);
    case PollShutdown => PollShutdownKeeps(s, total);
    case Deliver(buffers) => DeliverKeeps(s, total, buffers);
    case DeliverFin => DeliverFinKeeps(s, total);
    case PollRead => PollReadKeeps(s, total);
  }

  lemma {:induction false} AlwaysInv(s: State, total: Bytes, acts: seq<Act>)
    requires Inv(s, total) && Runs(s, acts)
    ensures Inv(After(s, acts), total)
    decreases |acts|
  {
    if acts != [] {
      StepKeeps(s, total, acts[0]);
      AlwaysInv(Do(s, acts[0]), total, acts[1..]);
    }
  }

  lemma BeginInv(input: Bytes)
    ensures Inv(Begin(input), input)
  {
  }

  // ---- the main results -------------------------------------------------------

  /**
    At every moment of a run: what was written out, what the far buffer holds,
    what is on the wire, what is left of the chunk and of the input are
    together the input, in order.
  */
  lemma PipeConserves(input: Bytes, acts: seq<Act>)
    requires Runs(Begin(input), acts)
    ensures var s := After(Begin(input), acts);
      s.output + s.far.shared.recvBuf + Wire(s) + Rest(s) + s.input == input && s.bytesReceived == |s.output|
  {
    hide Runs, After, Begin, Inv;
    BeginInv(input);
    AlwaysInv(Begin(input), input, acts);
    NothingIsLost(After(Begin(input), acts), input);
  }

  lemma NothingIsLost(s: State, total: Bytes)
    requires Inv(s, total)
    ensures s.output + s.far.shared.recvBuf + Wire(s) + Rest(s) + s.input == total && s.bytesReceived == |s.output|
  {
    assert s.output + s.far.shared.recvBuf == s.far.received;
    assert s.far.received + Wire(s) == s.near.handed;
    hide Inv, NearEnd, FarEnd, Between, Wire, Rest;
  }

  /** The finish follows the completion of every byte, and end of file the draining of the buffer. */
  lemma FinIsLast(input: Bytes, acts: seq<Act>)
    requires Runs(Begin(input), acts)
    ensures var s := After(Begin(input), acts);
      (s.near.fins > 0 ==> s.near.fins == 1 && s.near.outstanding == [] && s.near.handed == input) &&
      (s.recvDone ==> s.near.fins == 1 && s.far.shared.recvBuf == [] && s.output == input)
  {
    BeginInv(input);
    AlwaysInv(Begin(input), input, acts);
    var s := After(Begin(input), acts);
    if s.near.fins > 0 {
      assert s.near.handed + [] == s.near.handed && s.sentHashed + [] == s.sentHashed;
    }
  }

  predicate Over(s: State) {
    s.phase.Finished? && s.recvDone
  }

  /** A pipe that is over delivered its input; both counts are its length and both digests agree. */
  lemma PipeDelivers(input: Bytes, acts: seq<Act>, hash: Bytes -> Bytes)
    requires Runs(Begin(input), acts) && Over(After(Begin(input), acts))
    ensures var s := After(Begin(input), acts);
      s.output == input && s.bytesSent == s.bytesReceived == |input| &&
      hash(s.sentHashed) == hash(s.receivedHashed) == hash(input)
  {
    BeginInv(input);
    AlwaysInv(Begin(input), input, acts);
    FinIsLast(input, acts);
    var s := After(Begin(input), acts);
    assert s.sentHashed + [] == s.sentHashed;
  }

  // ---- every run ends ---------------------------------------------------------

  /** Although tasks run only when woken, some step is possible until the pipe is over. */
  lemma PipeNoDeadlock(input: Bytes, acts: seq<Act>) returns (a: Act)
    requires Runs(Begin(input), acts) && !Over(After(Begin(input), acts))
    ensures Enabled(After(Begin(input), acts), a)
  {
    BeginInv(input);
    AlwaysInv(Begin(input), input, acts);
    var s := After(Begin(input), acts);
    if s.near.outstanding != [] {
      a := CompleteSend(0);
    } else if Wire(s) != [] {
      a := Deliver([Wire(s)]);
      assert Flatten([Wire(s)]) == Wire(s) + Flatten([]);
    } else {
      match s.phase
      case Reading => a := if s.input == [] then InputEnds else ReadInput(1);
      case Writing(_, _) => a := PollWrite;
      case Finishing => a := PollShutdown;
      case Finished => a := if s.far.shared.closedRead then PollRead else DeliverFin;
    }
  }

  function Measure(s: State): nat {
    8 * |s.input| + 7 * |Rest(s)| + 4 * |Wire(s)| + 2 * |s.near.outstanding| + 2 * |s.far.shared.recvBuf| +
    (if s.far.shared.closedRead then 0 else 2) + (if s.recvDone then 0 else 1) +
    (match s.phase case Reading => 2 case Writing(_, _) => 2 case Finishing => 1 case Finished => 0) +
    (if s.sendParked then 0 else 1) + (if s.recvParked then 0 else 1)
  }

  lemma PollWriteLowers(s: State, total: Bytes)
    requires Inv(s, total) && Enabled(s, PollWrite)
    ensures Measure(Do(s, PollWrite)) < Measure(s)
  {
    var s' := Do(s, PollWrite);
    var r := S.PollWrite(s.near.shared, SEND_TASK, s.phase.rest, S.Accepts).1;
    hide T.Kept, T.Accounted, FarEnd;
    assert s'.far == s.far && s'.input == s.input && s'.recvDone == s.recvDone && s'.recvParked == s.recvParked;
    if r.Wrote? {
      assert r.count == |s.phase.rest| > 0;
      assert |Wire(s')| == |Wire(s)| + r.count;
      assert |s'.near.outstanding| == |s.near.outstanding| + 1;
      assert Rest(s') == [];
    } else {
      assert s'.near.outstanding == s.near.outstanding && s'.near.handed == s.near.handed;
    }
  }

  lemma CompleteLowers(s: State, total: Bytes, index: nat)
    requires Inv(s, total) && Enabled(s, CompleteSend(index))
    ensures Measure(Do(s, CompleteSend(index))) < Measure(s)
  {
    var s' := Do(s, CompleteSend(index));
    hide Inv, NearEnd, FarEnd, Between;
    assert s'.near.handed == s.near.handed && |s'.near.outstanding| == |s.near.outstanding| - 1;
    assert Wire(s') == Wire(s) && Rest(s') == Rest(s);
  }

  lemma PollShutdownLowers(s: State, total: Bytes)
    requires Inv(s, total) && Enabled(s, PollShutdown)
    ensures Measure(Do(s, PollShutdown)) < Measure(s)
  {
    var s' := Do(s, PollShutdown);
    hide Inv, NearEnd, FarEnd, Between;
    assert s'.near.handed == s.near.handed && s'.near.outstanding == s.near.outstanding;
    assert Wire(s') == Wire(s) && Rest(s') == Rest(s) == [];
  }

  lemma DeliverLowers(s: State, total: Bytes, buffers: seq<Bytes>)
    requires Inv(s, total) && Enabled(s, Deliver(buffers))
    ensures Measure(Do(s, Deliver(buffers))) < Measure(s)
  {
    hide NearEnd, T.Kept, FarEnd;
    var s' := Do(s, Deliver(buffers));
    assert |Wire(s')| == |Wire(s)| - |Flatten(buffers)|;
    assert |s'.far.shared.recvBuf| == |s.far.shared.recvBuf| + |Flatten(buffers)|;
  }

  lemma DeliverFinLowers(s: State)
    requires Enabled(s, DeliverFin)
    ensures Measure(Do(s, DeliverFin)) < Measure(s)
  {
    assert Wire(Do(s, DeliverFin)) == Wire(s);
  }

  lemma PollReadLowers(s: State)
    requires Enabled(s, PollRead)
    ensures Measure(Do(s, PollRead)) < Measure(s)
  {
    var s' := Do(s, PollRead);
    assert s'.far.received == s.far.received && Wire(s') == Wire(s);
  }

  lemma StepLowers(s: State, total: Bytes, a: Act)
    requires Inv(s, total) && Enabled(s, a)
    ensures Measure(Do(s, a)) < Measure(s)
  {
    match a
    case PollWrite => PollWriteLowers(s, total);
    case CompleteSend(index) => CompleteLowers(s, total, index);
    case PollShutdown => PollShutdownLowers(s, total);
    case ReadInput(_) => hide Inv;
    case InputEnds => hide Inv;
    case Deliver(buffers) => DeliverLowers(s, total, buffers);
    case DeliverFin => DeliverFinLowers(s);
    case PollRead => PollReadLowers(s);
  }

  lemma {:induction false} RunsAreShort(s: State, total: Bytes, acts: seq<Act>)
    requires Inv(s, total) && Runs(s, acts)
    ensures |acts| + Measure(After(s, acts)) <= Measure(s)
    decreases |acts|
  {
    if acts != [] {
      StepLowers(s, total, acts[0]);
      StepKeeps(s, total, acts[0]);
      RunsAreShort(Do(s, acts[0]), total, acts[1..]);
    }
  }

  /** With `PipeNoDeadlock`: every run of a pipe can only end by being over, and does end. */
  lemma PipeEnds(input: Bytes, acts: seq<Act>)
    requires Runs(Begin(input), acts)
    ensures |acts| <= 8 * |input| + 7
  {
    BeginInv(input);
    RunsAreShort(Begin(input), input, acts);
  }
}
