/**
  Bounds that the two tasks of a transfer keep in every run, and the details of
  writing at a position and of comparing digests.
*/
module TaskLimits {
  import opened Common
  import opened ControlMessages
  import opened Coordination
  import opened Tasks
  import opened Transfer

  // ---- buffers ------------------------------------------------------------

  predicate SmallChunks(queue: seq<Bytes>) {
    |queue| <= 16 && forall i :: 0 <= i < |queue| ==> |queue[i]| <= 2097152
  }

  predicate Bounded(env: Env, d: Direction) {
    (d.s.task.Sending? ==> SmallChunks(d.s.task.queue) && |d.s.task.held| <= 2097152) &&
    (d.r.task.Receiving? ==> SmallChunks(d.r.task.queue)) && |d.stream| <= env.window
  }

  lemma SenderKeepsBounds(env: Env, d: Direction, step: SendStep)
    requires Bounded(env, d) && Enabled(env, d, SenderTask(step))
    ensures Bounded(env, Do(env, d, SenderTask(step)))
  {
  }

  lemma ReceiverKeepsBounds(env: Env, d: Direction, step: ReceiveStep)
    requires Bounded(env, d) && Enabled(env, d, ReceiverTask(step))
    ensures Bounded(env, Do(env, d, ReceiverTask(step)))
  {
    hide WriteAt, HashOk, ReceiverHash, OpenTarget, Target;
    if step.WriteDisk? && d.r.task.Receiving? {
      var queue := d.r.task.queue;
      var rest := queue[0][step.n..];
      assert |(if rest == [] then [] else [rest]) + queue[1..]| <= |queue|;
    }
  }

  lemma StepKeepsBounds(env: Env, d: Direction, a: Action)
    requires Bounded(env, d) && Enabled(env, d, a)
    ensures Bounded(env, Do(env, d, a))
  {
    match a
    case SenderTask(step) => SenderKeepsBounds(env, d, step);
    case ReceiverTask(step) => ReceiverKeepsBounds(env, d, step);
    case _ => hide SmallChunks, PrefixHash, PartPath, DestPath, AlignedOffset;
  }

  lemma {:induction false} AlwaysBounded(env: Env, d: Direction, actions: seq<Action>)
    requires Bounded(env, d) && Runs(env, d, actions)
    ensures Bounded(env, After(env, d, actions))
    decreases |actions|
  {
    hide Do, Enabled, Bounded;
    if actions != [] {
      StepKeepsBounds(env, d, actions[0]);
      AlwaysBounded(env, Do(env, d, actions[0]), actions[1..]);
    }
  }

  lemma {:induction false} ChunkBytes(queue: seq<Bytes>)
    requires forall i :: 0 <= i < |queue| ==> |queue[i]| <= 2097152
    ensures |Flatten(queue)| <= |queue| * 2097152
  {
    if queue != [] {
      ChunkBytes(queue[1..]);
    }
  }

  /**
    However large the files and in any interleaving: the sending task never
    holds more than 17 chunks of 2 MiB that are read and not yet on the stream,
    the receiving task never more than 16 that are not yet on the disk, and the
    stream never more than its window.
  */
  lemma MemoryIsBounded(env: Env, files: map<string, Bytes>, actions: seq<Action>)
    requires Runs(env, Fresh(files), actions)
    ensures var d := After(env, Fresh(files), actions);
      (d.s.task.Sending? ==> |Flatten(d.s.task.queue)| + |d.s.task.held| <= 35651584) &&
      (d.r.task.Receiving? ==> |Flatten(d.r.task.queue)| <= 33554432) && |d.stream| <= env.window
  {
    AlwaysBounded(env, Fresh(files), actions);
    var d := After(env, Fresh(files), actions);
    if d.s.task.Sending? { ChunkBytes(d.s.task.queue); }
    if d.r.task.Receiving? { ChunkBytes(d.r.task.queue); }
  }

  /** Disk and stream are read on exactly while there is room in the queue and something is missing. */
  lemma ReadsWhileThereIsRoom(s: Sender, r: Receiver, stream: Bytes, window: nat)
    ensures (exists n :: CanSend(s, stream, window, ReadSource(n))) <==>
      s.task.Sending? && |s.task.queue| < 16 && s.task.read < |s.task.job.content|
    ensures (exists n :: CanReceive(r, stream, ReadStream(n))) <==>
      r.task.Receiving? && |r.task.queue| < 16 && r.task.received < r.task.ticket.size && stream != []
    ensures CanSend(s, stream, window, ReadSource(2097152)) <==>
      s.task.Sending? && |s.task.queue| < 16 && s.task.read + 2097152 <= |s.task.job.content|
    ensures CanReceive(r, stream, ReadStream(2097152)) <==>
      r.task.Receiving? && |r.task.queue| < 16 && r.task.received + 2097152 <= r.task.ticket.size && |stream| >= 2097152
  {
    if s.task.Sending? && |s.task.queue| < 16 && s.task.read < |s.task.job.content| {
      assert CanSend(s, stream, window, ReadSource(1));
    }
    if r.task.Receiving? && |r.task.queue| < 16 && r.task.received < r.task.ticket.size && stream != [] {
      assert CanReceive(r, stream, ReadStream(1));
    }
  }

  // ---- the target of a reception --------------------------------------------

  /** The file written is there from the start; it keeps what it holds only to be resumed. No other file changes. */
  lemma OpenedMeans(files: map<string, Bytes>, t: Ticket)
    ensures var now, target := OpenTarget(files, t), t.dest + if t.usePart then ".quic-part" else "";
      now.Keys == files.Keys + {target} && now - {target} == files - {target} &&
      now[target] == if t.offset > 0 && target in files then files[target] else []
  {
    assert t.dest + "" == t.dest;
    assert Target(t) == t.dest + if t.usePart then ".quic-part" else "";
  }

  /**
    The one answer to a reception: OK exactly if the digests agree and, of a
    staged file, the part file is there to be renamed. Then the task goes on and
    the destination holds what the part file held; otherwise it stops and every
    file stays.
  */
  lemma AnswerMeans(r: Receiver)
    requires r.task.Judging? && r.hashes != []
    ensures var t, out, part := r.task.ticket, GiveAnswer(r), r.task.ticket.dest + ".quic-part";
      var good := HashOk(r.hashes[0], r.task.actual) && (t.usePart ==> part in r.files);
      out.sent == [if good then ReceivedFileOk else ReceivedFileFailed] &&
      out.state.task == (if good then RecvIdle else Stopped) && out.state.hashes == r.hashes[1..] &&
      out.state.triggers == r.triggers &&
      (!(good && t.usePart) ==> out.state.files == r.files) &&
      (good && t.usePart ==>
         t.dest in out.state.files && out.state.files[t.dest] == r.files[part] && part !in out.state.files &&
         out.state.files - {t.dest, part} == r.files - {t.dest, part})
  {
    hide HashOk;
    var t := r.task.ticket;
    var part := t.dest + ".quic-part";
    assert |part| > |t.dest|;
    assert t.usePart ==> Target(t) == part;
    if t.usePart && part in r.files {
      assert ((r.files - {part})[t.dest := r.files[part]]) - {t.dest, part} == r.files - {t.dest, part};
    }
  }

  /** From the ticket to the answer a reception may fail at any point: with one FAILED, and every file stays. */
  lemma FailsWithOneAnswer(hash: Hasher, r: Receiver, stream: Bytes)
    ensures CanReceive(r, stream, Fail) <==> !r.task.Stopped? && !(r.task.RecvIdle? && r.triggers == [])
    ensures CanReceive(r, stream, Fail) ==> var m := Receive(hash, r, stream, Fail);
      m.sent == [ReceivedFileFailed] && m.stream == stream && m.state.task == Stopped && m.state.files == r.files
  {
  }

  // ---- writing at a position ------------------------------------------------

  /** The data lies at its position, everything else is as before, and a gap reads as zeros. */
  lemma WriteAtMeans(content: Bytes, position: nat, data: Bytes)
    requires data != []
    ensures var w, end := WriteAt(content, position, data), position + |data|;
      |w| == (if |content| > end then |content| else end) && w[position..end] == data &&
      (forall i :: 0 <= i < |content| && !(position <= i < end) ==> w[i] == content[i]) &&
      (forall i :: |content| <= i < position ==> w[i] == 0)
  {
  }

  // ---- digests --------------------------------------------------------------

  /** A reception from 0 is judged by the bytes it wrote, a resumed one by the whole file. */
  lemma JudgedBy(hash: Hasher, t: Ticket, hashed: Bytes, content: Bytes, other: Bytes)
    requires t.checksum
    ensures t.offset == 0 ==>
      ReceiverHash(hash, t, hashed, content) == ReceiverHash(hash, t, hashed, other) == hash(hashed)
    ensures t.offset > 0 ==>
      ReceiverHash(hash, t, hashed, content) == ReceiverHash(hash, t, other, content) == hash(content)
  {
  }

  const UPPER: string := "ABCDEFGHIJKLMNOPQRSTUVWXYZ"
  const LOWER: string := "abcdefghijklmnopqrstuvwxyz"

  predicate SameLetter(a: char, b: char) {
    a == b || exists k :: 0 <= k < 26 && ((a == UPPER[k] && b == LOWER[k]) || (a == LOWER[k] && b == UPPER[k]))
  }

  lemma LetterCase(c: char)
    ensures 'A' <= c <= 'Z' ==> UPPER[c as int - 65] == c && LOWER[c as int - 65] == LowerChar(c)
    ensures forall k :: 0 <= k < 26 ==> LowerChar(UPPER[k]) == LOWER[k] && LowerChar(LOWER[k]) == LOWER[k]
  {
  }

  lemma SameLetterExactly(a: char, b: char)
    ensures SameLetter(a, b) <==> LowerChar(a) == LowerChar(b)
  {
    LetterCase(a);
    LetterCase(b);
  }

  /** No checksum on either side, or the same text but for the case of its letters. */
  lemma HashOkMeans(expected: string, actual: string)
    ensures HashOk(expected, actual) <==>
      expected == ['N', 'O', 'N', 'E'] || expected == ['S', 'K', 'I', 'P'] || actual == ['N', 'O', 'N', 'E'] ||
      (|expected| == |actual| && forall i :: 0 <= i < |actual| ==> SameLetter(expected[i], actual[i]))
  {
    forall i | 0 <= i < |actual| && i < |expected|
      ensures SameLetter(expected[i], actual[i]) <==> LowerChar(actual[i]) == LowerChar(expected[i])
    {
      SameLetterExactly(expected[i], actual[i]);
    }
    hide SameLetter, LowerChar;
  }
}
