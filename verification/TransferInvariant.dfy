/**
  What holds between any two steps of one direction of a transfer, by phase
  of the handshake, and the proof that every step keeps it.
*/
module TransferInvariant {
  import opened Common
  import opened ControlMessages
  import opened Coordination
  import opened Tasks
  import opened Transfer

  // ---- building blocks ----------------------------------------------------

  predicate CalmSender(s: Sender) {
    s.triggers == [] && s.task.SendIdle?
  }

  predicate CalmReceiver(r: Receiver) {
    r.offered.None? && r.parked.None? && r.triggers == [] && r.task.RecvIdle? && r.hashes == []
  }

  predicate NotStarted(h: History) {
    h.sendStart.None? && h.ticket.None? && h.put == 0 && h.took == 0
  }

  function Dest(d: Direction, job: Job): string
    requires d.h.accept.Some?
  {
    DestPath(d.h.accept.value.dir, job.name)
  }

  /** The destination still holds what it held when the offer was accepted. */
  predicate Untouched(d: Direction, job: Job) {
    d.h.accept.Some? && Lookup(d.r.files, Dest(d, job)) == d.h.before
  }

  /** Working on `t` leaves the destination alone: it is staged, or the destination is already as long as announced. */
  predicate Spares(t: Ticket) {
    t.usePart || 0 < t.offset == t.size
  }

  /** `t` is a ticket for `job` under the acceptance of this transfer. */
  predicate Fits(d: Direction, job: Job, t: Ticket) {
    d.h.accept.Some? && t.dest == Dest(d, job) && t.checksum == d.h.accept.value.checksum &&
    t.size == |job.content| && t.offset <= t.size &&
    (t.usePart ==> |job.content| >= RESUME_THRESHOLD_BYTES) &&
    (|job.content| >= RESUME_THRESHOLD_BYTES && !t.usePart ==>
      d.h.part.None? && (Spares(t) || d.h.restarts == 1))
  }

  /** The file a resumed transfer appends to is exactly `offset` bytes long. */
  predicate Staged(d: Direction, t: Ticket) {
    t.offset > 0 ==> Target(t) in d.r.files && |d.r.files[Target(t)]| == t.offset
  }

  predicate NonEmptyChunks(queue: seq<Bytes>) {
    forall i :: 0 <= i < |queue| ==> queue[i] != []
  }

  // ---- phases before any byte moves ---------------------------------------

  predicate Quiet(d: Direction) {
    d.h.job.None? && CalmSender(d.s) && CalmReceiver(d.r) && d.down == [] && d.up == [] && d.stream == [] &&
    d.h.answers == (if d.h.accept.Some? then 1 else 0)
  }

  predicate Offered(d: Direction, job: Job) {
    d.s.pending == Some(job) && CalmSender(d.s) && CalmReceiver(d.r) && NotStarted(d.h) && d.stream == [] &&
    d.h.accept.None? && d.h.restarts == 0 && d.h.answers == 0 && d.up == [] &&
    d.down == [Metadata(job.name, |job.content|, job.resume, job.checksum)]
  }

  predicate Waiting(d: Direction, job: Job) {
    d.s.pending == Some(job) && CalmSender(d.s) && CalmReceiver(d.r.(offered := None)) && NotStarted(d.h) &&
    d.stream == [] && d.h.accept.None? && d.h.restarts == 0 && d.h.answers == 0 && d.up == [] && d.down == [] &&
    d.r.offered == Some(Offer(job.name, |job.content|)) && d.r.offeredResume == job.resume && d.r.accept.None?
  }

  predicate Declined(d: Direction) {
    CalmSender(d.s) && CalmReceiver(d.r) && d.stream == [] && d.down == [] && d.up == [RejectedUnwanted] &&
    NotStarted(d.h) && d.h.accept.None? && d.h.restarts == 0 && d.h.answers == 0
  }

  predicate Parked(d: Direction, job: Job) {
    d.s.pending == Some(job) && CalmSender(d.s) && NotStarted(d.h) && d.stream == [] && d.h.answers == 0 &&
    d.r.parked.Some? && CalmReceiver(d.r.(parked := None)) && Untouched(d, job) &&
    var t := d.r.parked.value;
    Fits(d, job, t) && t.offset > 0 && Staged(d, t) && d.r.partPath == Some(PartPath(t.dest)) &&
    (if t.usePart then t.offset >= FILE_CHUNK_SIZE else t.offset == t.size) &&
    job.resume && d.h.accept.value.resume && |job.content| >= RESUME_THRESHOLD_BYTES && (t.usePart <==> d.h.part.Some?)
  }

  predicate Asked(hash: Hasher, d: Direction, job: Job) {
    Parked(d, job) && d.h.restarts == 0 && d.down == [] &&
    var t := d.r.parked.value;
    d.up == [ResumeReady(t.offset, Some(PrefixHash(hash, d.r.files[Target(t)])))]
  }

  predicate Refused(d: Direction, job: Job) {
    Parked(d, job) && d.h.restarts == 1 && d.up == [] && d.down == [RestartFromZero]
  }

  // ---- bytes on the move --------------------------------------------------

  /** How much of the content has been put on the file stream, as a position in it. */
  function Sent(d: Direction, job: Job, offset: nat): int {
    match d.s.task
    case Sending(_, _, read, queue, held) => read - |held| - |Flatten(queue)|
    case SendIdle => if d.h.sendStart.Some? then |job.content| else offset
  }

  /** How much of the content has been taken off the file stream. */
  function Taken(d: Direction, job: Job, offset: nat): nat {
    match d.r.task
    case Receiving(_, received, _, _, _) => received
    case Judging(_, _) => |job.content|
    case _ => offset
  }

  predicate SenderMoves(d: Direction, job: Job, offset: nat) {
    offset <= |job.content| && 0 <= Sent(d, job, offset) <= |job.content| &&
    match d.s.task
    case SendIdle =>
      if d.h.sendStart.Some? then d.s.pending.None? && d.s.triggers == [] && d.h.sendStart == Some(offset)
      else if d.s.pending.Some? then
        d.s.pending == Some(job) && d.s.triggers == [] && offset == 0
      else d.s.triggers == [(job, offset)]
    case Sending(j, start, read, queue, held) =>
      j == job && start == offset && d.h.sendStart == Some(offset) && d.s.pending.None? && d.s.triggers == [] &&
      offset <= read - |held| - |Flatten(queue)| && read <= |job.content| &&
      held + Flatten(queue) == job.content[Sent(d, job, offset)..read] && NonEmptyChunks(queue)
  }

  predicate SendDone(d: Direction) {
    d.s.task.SendIdle? && d.h.sendStart.Some?
  }

  /** The `FILE_SENT` text is sent once, after the last byte, and is on its way or in the hash queue. */
  predicate HashTravels(hash: Hasher, d: Direction, job: Job) {
    var ahead := if d.r.parked.Some? then [ResumeOk] else [];
    var text := SenderHash(hash, job);
    if SendDone(d) then
      (d.down == ahead + [FileSent(text)] && d.r.hashes == []) ||
      (ahead == [] && d.down == [] && d.r.hashes == [text])
    else d.down == ahead && d.r.hashes == []
  }

  /** What has been written so far: everything past the offset is the source's. */
  predicate Written(content: Bytes, job: Job, offset: nat, position: nat) {
    offset <= position <= |job.content| && |content| == position && content[offset..] == job.content[offset..position]
  }

  /** The ticket waits for `RESUME_OK` or in the trigger queue. */
  predicate HoldsTicket(d: Direction, job: Job, offset: nat) {
    d.h.ticket.None? && Untouched(d, job) &&
    var waiting := if d.r.parked.Some? then [d.r.parked.value] else [];
    |waiting + d.r.triggers| == 1 &&
    var t := (waiting + d.r.triggers)[0];
    Fits(d, job, t) && t.offset == offset && Staged(d, t)
  }

  /** The ticket is being worked on. */
  predicate Works(d: Direction, job: Job, offset: nat, t: Ticket) {
    d.r.parked.None? && d.r.triggers == [] && d.h.ticket == Some(t) && Fits(d, job, t) && t.offset == offset &&
    (Spares(t) ==> Untouched(d, job))
  }

  predicate OnDisk(d: Direction, job: Job, offset: nat, t: Ticket, position: nat) {
    Target(t) in d.r.files && Written(d.r.files[Target(t)], job, offset, position)
  }

  /** Bytes taken off the stream are queued for the disk writer in order. */
  predicate Queued(job: Job, offset: nat, received: nat, queue: seq<Bytes>, position: nat, hashed: Bytes) {
    offset <= position <= received <= |job.content| &&
    Flatten(queue) == job.content[position..received] && NonEmptyChunks(queue) &&
    hashed == job.content[offset..position]
  }

  predicate ReceiverMoves(hash: Hasher, d: Direction, job: Job, offset: nat) {
    d.r.offered.None? && HashTravels(hash, d, job) && d.h.answers == 0 && AtWork(hash, d, job, offset)
  }

  /** What the receive task and the files are up to. */
  predicate AtWork(hash: Hasher, d: Direction, job: Job, offset: nat) {
    match d.r.task
    case RecvIdle => HoldsTicket(d, job, offset)
    case Receiving(t, received, queue, position, hashed) =>
      Works(d, job, offset, t) && Queued(job, offset, received, queue, position, hashed) &&
      OnDisk(d, job, offset, t, position)
    case Judging(t, actual) =>
      Works(d, job, offset, t) && OnDisk(d, job, offset, t, |job.content|) &&
      actual == (if t.checksum then hash(d.r.files[Target(t)]) else "NONE")
    case Stopped => false
  }

  predicate Moving(hash: Hasher, d: Direction, job: Job, offset: nat) {
    SenderMoves(d, job, offset) && ReceiverMoves(hash, d, job, offset) && d.h.restarts <= 1 &&
    d.up == (if d.s.pending.Some? then [Ready] else []) &&
    Taken(d, job, offset) <= Sent(d, job, offset) && d.h.took == Taken(d, job, offset) - offset &&
    d.h.put == Sent(d, job, offset) - offset &&
    d.stream == job.content[Taken(d, job, offset)..Sent(d, job, offset)]
  }

  /** The receive task has given up; the sending side may still be running. */
  predicate Broken(d: Direction, job: Job, offset: nat) {
    d.r.task.Stopped? && SenderMoves(d, job, offset) && d.h.put == Sent(d, job, offset) - offset && d.r.offered.None? &&
    d.r.parked.None? &&
    d.h.restarts <= 1 && d.h.answers == 1 && d.h.accept.Some? &&
    (d.h.ticket.Some? ==> d.h.ticket.value.offset == offset && Fits(d, job, d.h.ticket.value)) &&
    (d.h.ticket.None? || Spares(d.h.ticket.value) ==> Untouched(d, job)) &&
    (forall i :: 0 <= i < |d.down| ==> d.down[i].FileSent?) &&
    (SendDone(d) ==> |d.down| <= 1) && (!SendDone(d) ==> d.down == [] && d.r.hashes == []) &&
    var ready := if d.s.pending.Some? then [Ready] else [];
    (d.up == ready + [ReceivedFileFailed] || (ready == [] && d.up == []))
  }

  /** The receiver has said OK: this is what its destination holds. */
  predicate Complete(hash: Hasher, d: Direction, job: Job) {
    d.h.accept.Some? && d.h.ticket.Some? && d.h.sendStart == Some(d.h.ticket.value.offset) &&
    Fits(d, job, d.h.ticket.value) && d.h.put == d.h.took == |job.content| - d.h.ticket.value.offset &&
    var dest := Dest(d, job);
    dest in d.r.files && Written(d.r.files[dest], job, d.h.ticket.value.offset, |job.content|) &&
    (job.checksum && d.h.accept.value.checksum ==> HashOk(hash(job.content), hash(d.r.files[dest])))
  }

  predicate Answered(hash: Hasher, d: Direction, job: Job) {
    d.s.pending.None? && CalmSender(d.s) && CalmReceiver(d.r) && d.stream == [] && d.down == [] &&
    d.h.restarts <= 1 && d.h.answers == 1 &&
    d.up == [ReceivedFileOk] && Complete(hash, d, job)
  }

  /** The offset both sides of a moving transfer work with. */
  function AgreedOffset(d: Direction): nat {
    if d.h.sendStart.Some? then d.h.sendStart.value
    else if d.s.triggers != [] then d.s.triggers[0].1
    else 0
  }

  predicate InTransfer(hash: Hasher, d: Direction, job: Job) {
    Offered(d, job) || Waiting(d, job) || Declined(d) || Asked(hash, d, job) || Refused(d, job) ||
    Moving(hash, d, job, AgreedOffset(d)) || Broken(d, job, AgreedOffset(d)) || Answered(hash, d, job)
  }

  predicate Inv(hash: Hasher, d: Direction) {
    if d.h.job.None? then Quiet(d) else InTransfer(hash, d, d.h.job.value)
  }

  // ---- every step keeps it ------------------------------------------------

  lemma Establish(hash: Hasher, files: map<string, Bytes>)
    ensures Inv(hash, Fresh(files))
  {
  }

  /** The two ways an acceptance can go, seen from the receiver's loop. */
  lemma AcceptOutcome(hash: Hasher, r: Receiver, a: Accept, o: Offer)
    ensures var out := HandleAccept(hash, r, a, o);
      var dest := DestPath(a.dir, o.name);
      Lookup(out.state.files, dest) == Lookup(r.files, dest) &&
      (StartsAtZero(r, a, o, out) || ParksAtOffset(hash, r, a, o, out))
  {
    var dest := DestPath(a.dir, o.name);
    var part := PartPath(dest);
    var out := HandleAccept(hash, r, a, o);
    hide ParksAtOffset, AlignedOffset, PrefixHash, DestPath;
    assert |part| != |dest|;
    if o.size >= RESUME_THRESHOLD_BYTES && r.offeredResume && a.resume {
      if part in r.files {
        var offset := AlignedOffset(|r.files[part]|, o.size);
        if offset > 0 {
          var files := r.files[part := r.files[part][..offset]];
          var parked := r.(partPath := Some(part), files := files);
          assert out == Park(hash, parked, Ticket(dest, o.size, a.checksum, offset, true));
          hide HandleAccept;
          ParkOutcome(hash, r, parked, a, o, Ticket(dest, o.size, a.checksum, offset, true));
        }
      } else if dest in r.files && |r.files[dest]| == o.size {
        var parked := r.(partPath := Some(part));
        assert out == Park(hash, parked, Ticket(dest, o.size, a.checksum, o.size, false));
        hide HandleAccept;
        ParkOutcome(hash, r, parked, a, o, Ticket(dest, o.size, a.checksum, o.size, false));
      }
    }
  }

  lemma ParkOutcome(hash: Hasher, r: Receiver, parked: Receiver, a: Accept, o: Offer, t: Ticket)
    requires parked == r.(partPath := Some(PartPath(DestPath(a.dir, o.name))), files := parked.files)
    requires t == Ticket(DestPath(a.dir, o.name), o.size, a.checksum, t.offset, t.usePart) && 0 < t.offset <= o.size
    requires o.size >= RESUME_THRESHOLD_BYTES && (if t.usePart then t.offset >= FILE_CHUNK_SIZE else t.offset == t.size)
    requires Target(t) in parked.files && |parked.files[Target(t)]| == t.offset
    requires r.offeredResume && a.resume && (t.usePart <==> PartPath(DestPath(a.dir, o.name)) in r.files)
    ensures ParksAtOffset(hash, r, a, o, Park(hash, parked, t))
  {
    hide PrefixHash, DestPath, PartPath;
  }

  predicate StartsAtZero(r: Receiver, a: Accept, o: Offer, out: Out<Receiver>) {
    out.sent == [Ready] &&
    var t := Ticket(DestPath(a.dir, o.name), o.size, a.checksum, 0, o.size >= RESUME_THRESHOLD_BYTES);
    out.state == r.(partPath := out.state.partPath, triggers := r.triggers + [t])
  }

  predicate ParksAtOffset(hash: Hasher, r: Receiver, a: Accept, o: Offer, out: Out<Receiver>) {
    out.state.parked.Some? &&
    var t := out.state.parked.value;
    var dest := DestPath(a.dir, o.name);
    t == Ticket(dest, o.size, a.checksum, t.offset, t.usePart) && 0 < t.offset <= t.size &&
    o.size >= RESUME_THRESHOLD_BYTES && (if t.usePart then t.offset >= FILE_CHUNK_SIZE else t.offset == t.size) &&
    r.offeredResume && a.resume && (t.usePart <==> PartPath(dest) in r.files) &&
    Target(t) in out.state.files && |out.state.files[Target(t)]| == t.offset &&
    out.state == r.(partPath := Some(PartPath(dest)), parked := Some(t), files := out.state.files) &&
    out.sent == [ResumeReady(t.offset, Some(PrefixHash(hash, out.state.files[Target(t)])))]
  }

  lemma KeepMeeting(env: Env, d: Direction, a: Action, job: Job, accept: Accept)
    requires d.h.job == Some(job) && Enabled(env, d, a)
    requires (Waiting(d, job) && a == AcceptOffer(accept)) ||
      (Offered(d, job) && a == DeliverDown && d.r.accept == Some(accept))
    ensures var d' := Do(env, d, a); Asked(env.hash, d', job) || Moving(env.hash, d', job, 0)
  {
    hide HandleAccept;
    var d' := Do(env, d, a);
    var offer := Offer(job.name, |job.content|);
    var r := d.r.(accept := None, offered := None, offeredResume := job.resume);
    var out := HandleAccept(env.hash, r, accept, offer);
    var dest := DestPath(accept.dir, job.name);
    assert d' == d.(r := out.state, up := out.sent, down := [],
                    h := d.h.(accept := Some(accept), before := Lookup(d.r.files, dest),
                              part := Lookup(d.r.files, PartPath(dest))));
    hide Do, Enabled;
    AcceptOutcome(env.hash, r, accept, offer);
    if StartsAtZero(r, accept, offer, out) {
      hide ParksAtOffset;
      StartedMoves(env.hash, d, d', job, accept);
    } else {
      hide StartsAtZero;
      ParkedIsAsked(env.hash, d, d', job, accept);
    }
  }

  /** The offer and the acceptance have met and nothing else has happened. */
  predicate JustMet(d: Direction, d': Direction, job: Job, accept: Accept) {
    d.s.pending == Some(job) && CalmSender(d.s) && NotStarted(d.h) && d.stream == [] && d.h.restarts == 0 &&
    d.h.answers == 0 &&
    var dest := DestPath(accept.dir, job.name);
    d' == d.(r := d'.r, up := d'.up, down := [],
             h := d.h.(accept := Some(accept), before := Lookup(d.r.files, dest),
                       part := Lookup(d.r.files, PartPath(dest)))) &&
    Lookup(d'.r.files, dest) == d'.h.before
  }

  lemma StartedMoves(hash: Hasher, d: Direction, d': Direction, job: Job, accept: Accept)
    requires JustMet(d, d', job, accept) && d'.up == [Ready]
    requires CalmReceiver(d'.r.(triggers := [])) &&
      d'.r.triggers == [Ticket(DestPath(accept.dir, job.name), |job.content|, accept.checksum, 0,
                               |job.content| >= RESUME_THRESHOLD_BYTES)]
    ensures Moving(hash, d', job, 0)
  {
  }

  lemma ParkedIsAsked(hash: Hasher, d: Direction, d': Direction, job: Job, accept: Accept)
    requires JustMet(d, d', job, accept)
    requires CalmReceiver(d.r.(offered := None)) &&
      ParksAtOffset(hash, d.r.(accept := None, offered := None, offeredResume := job.resume), accept,
                    Offer(job.name, |job.content|), Out(d'.r, d'.up))
    ensures Asked(hash, d', job)
  {
  }

  // ---- the send task ------------------------------------------------------

  /** What a step of the send task does: bytes move to the stream in order, and FILE_SENT follows the last of them. */
  predicate SenderMoved(hash: Hasher, d: Direction, d': Direction, done: bool, job: Job, offset: nat) {
    SenderMoves(d', job, offset) && d'.r == d.r && d'.up == d.up && d'.s.pending == d.s.pending == None &&
    Sent(d, job, offset) <= Sent(d', job, offset) &&
    d'.h == d.h.(sendStart := Some(offset), put := d.h.put + (Sent(d', job, offset) - Sent(d, job, offset))) &&
    d'.down == d.down + (if done then [FileSent(SenderHash(hash, job))] else []) &&
    SendDone(d') == done && !SendDone(d) &&
    0 <= Sent(d, job, offset) && Sent(d', job, offset) <= |job.content| &&
    d'.stream == d.stream + job.content[Sent(d, job, offset)..Sent(d', job, offset)]
  }

  lemma DoReadSource(env: Env, d: Direction, n: nat)
    requires Enabled(env, d, SenderTask(ReadSource(n)))
    ensures var t := d.s.task;
      Do(env, d, SenderTask(ReadSource(n))) ==
      d.(s := d.s.(task := t.(read := t.read + n, queue := t.queue + [t.job.content[t.read..t.read + n]])))
  {
    assert d.down + [] == d.down;
  }

  /** Reading ahead and taking a chunk rearrange what is between the source and the stream. */
  lemma Rearranged(hash: Hasher, d: Direction, d': Direction, job: Job, offset: nat, more: nat)
    requires SenderMoves(d, job, offset) && d.s.task.Sending? && d'.s.task.Sending?
    requires var t := d.s.task;
      d' == d.(s := d.s.(task := t.(read := t.read + more, queue := d'.s.task.queue, held := d'.s.task.held)))
    requires d.s.task.read + more <= |job.content| && NonEmptyChunks(d'.s.task.queue)
    requires var t := d.s.task;
      d'.s.task.held + Flatten(d'.s.task.queue) == t.held + Flatten(t.queue) + job.content[t.read..t.read + more]
    ensures SenderMoved(hash, d, d', false, job, offset)
  {
    hide Flatten;
    var t, t' := d.s.task, d'.s.task;
    assert |t'.held + Flatten(t'.queue)| == |t.held + Flatten(t.queue)| + more;
    Join(job.content, Sent(d, job, offset), t.read, t.read + more);
    assert d'.down == d.down + [];
    assert d'.stream == d.stream + [];
  }

  lemma KeepSenderRead(env: Env, d: Direction, n: nat, job: Job, offset: nat)
    requires SenderMoves(d, job, offset) && Enabled(env, d, SenderTask(ReadSource(n)))
    ensures SenderMoved(env.hash, d, Do(env, d, SenderTask(ReadSource(n))), false, job, offset)
  {
    var t := d.s.task;
    assert t.Sending? && t.job == job && 1 <= n && t.read + n <= |job.content| && NonEmptyChunks(t.queue) by {
      hide Flatten;
    }
    hide SenderMoves, SenderMoved, Do, Flatten;
    DoReadSource(env, d, n);
    hide Enabled;
    FlattenAppend(t.queue, job.content[t.read..t.read + n]);
    Rearranged(env.hash, d, Do(env, d, SenderTask(ReadSource(n))), job, offset, n);
  }

  lemma DoTakeChunk(env: Env, d: Direction)
    requires Enabled(env, d, SenderTask(TakeChunk))
    ensures var t := d.s.task;
      Do(env, d, SenderTask(TakeChunk)) == d.(s := d.s.(task := t.(held := t.queue[0], queue := t.queue[1..])))
  {
    assert d.down + [] == d.down;
  }

  lemma KeepSenderTake(env: Env, d: Direction, job: Job, offset: nat)
    requires SenderMoves(d, job, offset) && Enabled(env, d, SenderTask(TakeChunk))
    ensures SenderMoved(env.hash, d, Do(env, d, SenderTask(TakeChunk)), false, job, offset)
  {
    var t := d.s.task;
    assert t.Sending? && t.held == [] && t.queue != [] && t.read <= |job.content| && NonEmptyChunks(t.queue) by {
      hide Flatten;
    }
    assert t.held + Flatten(t.queue) == t.queue[0] + Flatten(t.queue[1..]);
    hide SenderMoves, SenderMoved, Do, Flatten;
    DoTakeChunk(env, d);
    hide Enabled;
    assert job.content[t.read..t.read + 0] == [];
    Rearranged(env.hash, d, Do(env, d, SenderTask(TakeChunk)), job, offset, 0);
  }

  lemma KeepSenderWrite(env: Env, d: Direction, n: nat, job: Job, offset: nat)
    requires SenderMoves(d, job, offset) && Enabled(env, d, SenderTask(WriteStream(n)))
    ensures SenderMoved(env.hash, d, Do(env, d, SenderTask(WriteStream(n))), false, job, offset)
  {
    hide Flatten;
    var t := d.s.task;
    var from := Sent(d, job, offset);
    var whole := t.held + Flatten(t.queue);
    CutSlice(job.content, from, t.read, n);
    assert t.held[..n] == whole[..n];
    assert t.held[n..] + Flatten(t.queue) == whole[n..];
  }

  lemma KeepSenderStart(env: Env, d: Direction, job: Job, offset: nat)
    requires SenderMoves(d, job, offset) && Enabled(env, d, SenderTask(StartSend))
    ensures SenderMoved(env.hash, d, Do(env, d, SenderTask(StartSend)), false, job, offset)
  {
  }

  lemma KeepSenderFinish(env: Env, d: Direction, job: Job, offset: nat)
    requires SenderMoves(d, job, offset) && Enabled(env, d, SenderTask(FinishSend))
    ensures SenderMoved(env.hash, d, Do(env, d, SenderTask(FinishSend)), true, job, offset)
  {
    assert Flatten(d.s.task.queue) == [];
    assert Sent(d, job, offset) == d.s.task.read;
    hide Flatten;
  }

  /** Steps of the send task move bytes from the source to the stream, in order and without loss. */
  lemma KeepSender(env: Env, d: Direction, a: Action, job: Job, offset: nat)
    requires SenderMoves(d, job, offset) && Enabled(env, d, a) && a.SenderTask?
    ensures SenderMoved(env.hash, d, Do(env, d, a), a.send.FinishSend?, job, offset)
  {
    hide Do, Enabled, SenderMoves, SenderMoved;
    match a.send {
      case StartSend => KeepSenderStart(env, d, job, offset);
      case ReadSource(n) => KeepSenderRead(env, d, n, job, offset);
      case TakeChunk => KeepSenderTake(env, d, job, offset);
      case WriteStream(n) => KeepSenderWrite(env, d, n, job, offset);
      case FinishSend => KeepSenderFinish(env, d, job, offset);
    }
  }

  /** A half-open piece of `content` followed by the next one. */
  lemma Join(content: Bytes, i: nat, j: nat, k: nat)
    requires i <= j <= k <= |content|
    ensures content[i..j] + content[j..k] == content[i..k]
  {
  }

  /** What the send task does reaches the receiving half only as the `FILE_SENT` message. */
  lemma SameReceiver(hash: Hasher, d: Direction, d': Direction, job: Job, offset: nat)
    requires ReceiverMoves(hash, d, job, offset) && !SendDone(d) && d'.r == d.r
    requires d'.h == d.h.(sendStart := d'.h.sendStart, put := d'.h.put)
    requires d'.down == d.down + (if SendDone(d') then [FileSent(SenderHash(hash, job))] else [])
    ensures ReceiverMoves(hash, d', job, offset) && Taken(d', job, offset) == Taken(d, job, offset)
  {
    assert HashTravels(hash, d', job);
  }

  lemma MoveSender(env: Env, d: Direction, a: Action, job: Job, offset: nat)
    requires Moving(env.hash, d, job, offset) && Enabled(env, d, a) && a.SenderTask?
    ensures Moving(env.hash, Do(env, d, a), job, offset)
  {
    hide Do, Enabled;
    var d' := Do(env, d, a);
    KeepSender(env, d, a, job, offset);
    SameReceiver(env.hash, d, d', job, offset);
    hide SenderMoves, ReceiverMoves, Sent, Taken, SendDone;
    Join(job.content, Taken(d, job, offset), Sent(d, job, offset), Sent(d', job, offset));
  }

  lemma BreakSender(env: Env, d: Direction, a: Action, job: Job, offset: nat)
    requires Broken(d, job, offset) && Enabled(env, d, a) && a.SenderTask?
    ensures Broken(Do(env, d, a), job, offset)
  {
    hide Do, Enabled;
    KeepSender(env, d, a, job, offset);
  }

  // ---- the receive task ---------------------------------------------------

  lemma DoStartReceive(env: Env, d: Direction)
    requires Enabled(env, d, ReceiverTask(StartReceive))
    ensures var t := d.r.triggers[0];
      Do(env, d, ReceiverTask(StartReceive)) ==
      d.(r := d.r.(triggers := d.r.triggers[1..], task := Receiving(t, t.offset, [], t.offset, []),
                   files := OpenTarget(d.r.files, t)),
         h := d.h.(ticket := Some(t)))
  {
    assert d.up + [] == d.up;
  }

  /** A ticket is taken up: its target holds what comes before the offset. */
  lemma OpensTarget(d: Direction, d': Direction, job: Job, offset: nat, t: Ticket)
    requires HoldsTicket(d, job, offset) && d.r.parked.None? && d.r.triggers == [t]
    requires d'.h == d.h.(ticket := Some(t)) && d'.r.parked.None? && d'.r.triggers == []
    requires d'.r.files == OpenTarget(d.r.files, t)
    ensures Works(d', job, offset, t) && OnDisk(d', job, offset, t, offset)
  {
    assert [] + d.r.triggers == [t];
    assert |PartPath(t.dest)| != |t.dest|;
  }

  lemma StartFacts(env: Env, d: Direction, job: Job, offset: nat)
    requires Moving(env.hash, d, job, offset) && Enabled(env, d, ReceiverTask(StartReceive))
    ensures HoldsTicket(d, job, offset) && d.r.task.RecvIdle? && d.r.parked.None?
    ensures d.r.triggers == [d.r.triggers[0]] && d.r.triggers[0].offset == offset <= |job.content|
  {
    hide SenderMoves, Sent, Do, Untouched, Staged;
    assert [] + d.r.triggers == d.r.triggers;
  }

  lemma MoveStartReceive(env: Env, d: Direction, job: Job, offset: nat)
    requires Moving(env.hash, d, job, offset) && Enabled(env, d, ReceiverTask(StartReceive))
    ensures Moving(env.hash, Do(env, d, ReceiverTask(StartReceive)), job, offset)
  {
    StartFacts(env, d, job, offset);
    hide Do, Enabled, SenderMoves, Sent, HoldsTicket, Works, OnDisk, OpenTarget;
    var d' := Do(env, d, ReceiverTask(StartReceive));
    DoStartReceive(env, d);
    OpensTarget(d, d', job, offset, d.r.triggers[0]);
    SameSender(d, d', job, offset);
    assert Queued(job, offset, offset, [], offset, []);
    hide Queued;
    assert HashTravels(env.hash, d', job);
  }

  /** `SenderMoves` and `Sent` look at the sending half and its start offset only. */
  lemma SameSender(d: Direction, d': Direction, job: Job, offset: nat)
    requires d'.s == d.s && d'.h.sendStart == d.h.sendStart
    ensures SenderMoves(d', job, offset) == SenderMoves(d, job, offset) && Sent(d', job, offset) == Sent(d, job, offset)
    ensures SendDone(d') == SendDone(d)
  {
  }

  lemma QueueMore(job: Job, offset: nat, received: nat, queue: seq<Bytes>, position: nat, hashed: Bytes, n: nat)
    requires Queued(job, offset, received, queue, position, hashed) && 1 <= n && received + n <= |job.content|
    ensures Queued(job, offset, received + n, queue + [job.content[received..received + n]], position, hashed)
  {
    FlattenAppend(queue, job.content[received..received + n]);
    Join(job.content, position, received, received + n);
  }

  lemma DoReadStream(env: Env, d: Direction, n: nat)
    requires Enabled(env, d, ReceiverTask(ReadStream(n)))
    ensures var t := d.r.task;
      Do(env, d, ReceiverTask(ReadStream(n))) ==
      d.(r := d.r.(task := t.(received := t.received + n, queue := t.queue + [d.stream[..n]])), stream := d.stream[n..],
         h := d.h.(took := d.h.took + n))
  {
    assert d.up + [] == d.up;
  }

  /** What the network reader relies on. */
  lemma ReaderFacts(env: Env, d: Direction, n: nat, job: Job, offset: nat)
    requires Moving(env.hash, d, job, offset) && Enabled(env, d, ReceiverTask(ReadStream(n)))
    ensures var t := d.r.task;
      t.Receiving? && 1 <= n && t.received + n <= Sent(d, job, offset) <= |job.content| &&
      Works(d, job, offset, t.ticket) && OnDisk(d, job, offset, t.ticket, t.position) &&
      Queued(job, offset, t.received, t.queue, t.position, t.hashed)
    ensures d.stream == job.content[d.r.task.received..Sent(d, job, offset)]
  {
    hide HashTravels, Queued, Works, OnDisk, Do, Sent;
  }

  lemma MoveReadStream(env: Env, d: Direction, n: nat, job: Job, offset: nat)
    requires Moving(env.hash, d, job, offset) && Enabled(env, d, ReceiverTask(ReadStream(n)))
    ensures Moving(env.hash, Do(env, d, ReceiverTask(ReadStream(n))), job, offset)
  {
    hide Do, Enabled, SenderMoves, Sent, Queued, OnDisk, Works;
    var d' := Do(env, d, ReceiverTask(ReadStream(n)));
    ReaderFacts(env, d, n, job, offset);
    var t := d.r.task;
    DoReadStream(env, d, n);
    SameSender(d, d', job, offset);
    CutSlice(job.content, t.received, Sent(d, job, offset), n);
    QueueMore(job, offset, t.received, t.queue, t.position, t.hashed, n);
    SameWork(d, d', job, offset, t.ticket);
    SameDisk(d, d', job, offset, t.ticket, t.position);
    hide HoldsTicket;
    assert HashTravels(env.hash, d', job);
    assert ReceiverMoves(env.hash, d', job, offset);
  }

  lemma SameDisk(d: Direction, d': Direction, job: Job, offset: nat, t: Ticket, position: nat)
    requires OnDisk(d, job, offset, t, position) && d'.r.files == d.r.files
    ensures OnDisk(d', job, offset, t, position)
  {
  }

  /** Cutting a slice of `content` after `n` bytes gives two slices of `content`. */
  lemma CutSlice(content: Bytes, i: nat, k: nat, n: nat)
    requires i <= k <= |content| && n <= k - i
    ensures content[i..k][..n] == content[i..i + n] && content[i..k][n..] == content[i + n..k]
  {
  }

  lemma AppendToFile(content: Bytes, job: Job, offset: nat, position: nat, data: Bytes)
    requires Written(content, job, offset, position) && position + |data| <= |job.content|
    requires data == job.content[position..position + |data|]
    ensures WriteAt(content, position, data) == content + data
    ensures Written(content + data, job, offset, position + |data|)
  {
    assert (content + data)[offset..] == content[offset..] + data;
    Join(job.content, offset, position, position + |data|);
  }

  lemma QueueLess(job: Job, offset: nat, received: nat, queue: seq<Bytes>, position: nat, hashed: Bytes, n: nat)
    requires Queued(job, offset, received, queue, position, hashed) && queue != [] && 1 <= n <= |queue[0]|
    ensures position + n <= received && queue[0][..n] == job.content[position..position + n]
    ensures var rest := queue[0][n..];
      Queued(job, offset, received, (if rest == [] then [] else [rest]) + queue[1..], position + n,
             hashed + queue[0][..n])
  {
    WriteQueue(queue, n);
    CutSlice(job.content, position, received, n);
    Join(job.content, offset, position, position + n);
  }

  lemma DoWriteDisk(env: Env, d: Direction, n: nat, content: Bytes)
    requires Enabled(env, d, ReceiverTask(WriteDisk(n)))
    requires Lookup(d.r.files, Target(d.r.task.ticket)) == Some(content)
    ensures var t := d.r.task;
      var data, rest := t.queue[0][..n], t.queue[0][n..];
      var queue := (if rest == [] then [] else [rest]) + t.queue[1..];
      Do(env, d, ReceiverTask(WriteDisk(n))) ==
      d.(r := d.r.(task := t.(queue := queue, position := t.position + n, hashed := t.hashed + data),
                   files := d.r.files[Target(t.ticket) := WriteAt(content, t.position, data)]))
  {
    assert d.up + [] == d.up;
  }

  lemma WriteKeepsWork(d: Direction, d': Direction, job: Job, offset: nat, t: Ticket, content: Bytes, position: nat)
    requires Works(d, job, offset, t) && Written(content, job, offset, position) && offset < position
    requires d'.h == d.h && d'.r == d.r.(task := d'.r.task, files := d.r.files[Target(t) := content])
    ensures Works(d', job, offset, t) && OnDisk(d', job, offset, t, position)
  {
    assert |PartPath(t.dest)| != |t.dest|;
  }

  /** What the disk writer relies on. */
  lemma WriterFacts(env: Env, d: Direction, n: nat, job: Job, offset: nat)
    requires Moving(env.hash, d, job, offset) && Enabled(env, d, ReceiverTask(WriteDisk(n)))
    ensures var t := d.r.task;
      t.Receiving? && t.queue != [] && 1 <= n <= |t.queue[0]| && t.ticket.offset == offset &&
      Works(d, job, offset, t.ticket) &&
      Queued(job, offset, t.received, t.queue, t.position, t.hashed) &&
      Lookup(d.r.files, Target(t.ticket)).Some? &&
      Written(Lookup(d.r.files, Target(t.ticket)).value, job, offset, t.position)
  {
    hide SenderMoves, HashTravels, Queued, Written, Do;
  }

  lemma MoveWriteDisk(env: Env, d: Direction, n: nat, job: Job, offset: nat)
    requires Moving(env.hash, d, job, offset) && Enabled(env, d, ReceiverTask(WriteDisk(n)))
    ensures Moving(env.hash, Do(env, d, ReceiverTask(WriteDisk(n))), job, offset)
  {
    hide Do, Enabled, SenderMoves, Sent, Queued, WriteAt, Written, Target;
    var d' := Do(env, d, ReceiverTask(WriteDisk(n)));
    WriterFacts(env, d, n, job, offset);
    var t := d.r.task;
    var content := Lookup(d.r.files, Target(t.ticket)).value;
    DoWriteDisk(env, d, n, content);
    SameSender(d, d', job, offset);
    QueueLess(job, offset, t.received, t.queue, t.position, t.hashed, n);
    QueuedWithin(job, offset, t.received, t.queue, t.position, t.hashed);
    AppendToFile(content, job, offset, t.position, t.queue[0][..n]);
    WriteKeepsWork(d, d', job, offset, t.ticket, content + t.queue[0][..n], t.position + n);
    hide OnDisk, Works, HoldsTicket, Lookup;
    assert HashTravels(env.hash, d', job);
    assert ReceiverMoves(env.hash, d', job, offset);
  }

  lemma QueuedWithin(job: Job, offset: nat, received: nat, queue: seq<Bytes>, position: nat, hashed: Bytes)
    requires Queued(job, offset, received, queue, position, hashed)
    ensures offset <= position <= received <= |job.content|
  {
  }

  lemma WriteQueue(queue: seq<Bytes>, n: nat)
    requires queue != [] && 1 <= n <= |queue[0]| && NonEmptyChunks(queue)
    ensures var rest := queue[0][n..];
      var queue' := (if rest == [] then [] else [rest]) + queue[1..];
      n <= |Flatten(queue)| && queue[0][..n] == Flatten(queue)[..n] && Flatten(queue') == Flatten(queue)[n..] &&
      NonEmptyChunks(queue')
  {
    var rest := queue[0][n..];
    if rest == [] {
      assert [] + queue[1..] == queue[1..];
    } else {
      assert ([rest] + queue[1..])[1..] == queue[1..];
    }
  }

  lemma DoCloseFile(env: Env, d: Direction, content: Bytes)
    requires Enabled(env, d, ReceiverTask(CloseFile))
    requires Lookup(d.r.files, Target(d.r.task.ticket)) == Some(content)
    ensures var t := d.r.task;
      Do(env, d, ReceiverTask(CloseFile)) ==
      d.(r := d.r.(task := Judging(t.ticket, ReceiverHash(env.hash, t.ticket, t.hashed, content))))
  {
    assert d.up + [] == d.up;
  }

  lemma MoveClose(env: Env, d: Direction, job: Job, offset: nat)
    requires Moving(env.hash, d, job, offset) && Enabled(env, d, ReceiverTask(CloseFile))
    ensures Moving(env.hash, Do(env, d, ReceiverTask(CloseFile)), job, offset)
  {
    hide Do, Enabled, SenderMoves, Sent, Queued, Written, Target, Works;
    var d' := Do(env, d, ReceiverTask(CloseFile));
    CloserFacts(env, d, job, offset);
    var t := d.r.task;
    var content := Lookup(d.r.files, Target(t.ticket)).value;
    DoCloseFile(env, d, content);
    SameSender(d, d', job, offset);
    AllWritten(job, offset, t.received, t.position, t.hashed, content);
    assert Works(d', job, offset, t.ticket) by { SameWork(d, d', job, offset, t.ticket); }
    hide Lookup, HoldsTicket;
    assert HashTravels(env.hash, d', job);
    assert ReceiverMoves(env.hash, d', job, offset);
  }

  lemma SameWork(d: Direction, d': Direction, job: Job, offset: nat, t: Ticket)
    requires Works(d, job, offset, t) && d'.h == d.h.(took := d'.h.took) && d'.r == d.r.(task := d'.r.task)
    ensures Works(d', job, offset, t)
  {
  }

  /** What closing the file relies on. */
  lemma CloserFacts(env: Env, d: Direction, job: Job, offset: nat)
    requires Moving(env.hash, d, job, offset) && Enabled(env, d, ReceiverTask(CloseFile))
    ensures var t := d.r.task;
      t.Receiving? && t.queue == [] && t.ticket.offset == offset && Works(d, job, offset, t.ticket) &&
      Queued(job, offset, t.received, t.queue, t.position, t.hashed) && t.received == |job.content| &&
      Lookup(d.r.files, Target(t.ticket)).Some? &&
      Written(Lookup(d.r.files, Target(t.ticket)).value, job, offset, t.position)
  {
    hide SenderMoves, HashTravels, Written, Do, Flatten;
  }

  /** With everything received and the queue empty, the file on disk is complete and hashed from its start. */
  lemma AllWritten(job: Job, offset: nat, received: nat, position: nat, hashed: Bytes, content: Bytes)
    requires Queued(job, offset, received, [], position, hashed) && Written(content, job, offset, position)
    ensures position == received && (offset == 0 ==> hashed == content)
  {
    assert content[0..] == content;
  }

  /** The files after a commit: a staged file takes the place of the destination. */
  function Committed(files: map<string, Bytes>, t: Ticket): map<string, Bytes>
    requires Target(t) in files
  {
    if t.usePart then (files - {Target(t)})[t.dest := files[Target(t)]] else files
  }

  lemma DoAnswer(env: Env, d: Direction)
    requires Enabled(env, d, ReceiverTask(Answer)) && Target(d.r.task.ticket) in d.r.files
    ensures var popped, h := d.r.(hashes := d.r.hashes[1..]), d.h.(answers := d.h.answers + 1);
      Do(env, d, ReceiverTask(Answer)) ==
      if HashOk(d.r.hashes[0], d.r.task.actual) then
        d.(r := popped.(task := RecvIdle, files := Committed(d.r.files, d.r.task.ticket)),
           up := d.up + [ReceivedFileOk], h := h)
      else d.(r := popped.(task := Stopped), up := d.up + [ReceivedFileFailed], h := h)
  {
    hide HashOk;
  }

  lemma DoFail(env: Env, d: Direction)
    requires Enabled(env, d, ReceiverTask(Fail))
    ensures Do(env, d, ReceiverTask(Fail)) ==
      d.(r := d.r.(task := Stopped), up := d.up + [ReceivedFileFailed], h := d.h.(answers := d.h.answers + 1))
  {
  }

  /** What the answer relies on: everything has arrived and the sender's hash is there. */
  lemma JudgeFacts(env: Env, d: Direction, job: Job, offset: nat)
    requires Moving(env.hash, d, job, offset) && Enabled(env, d, ReceiverTask(Answer))
    ensures d.r.task.Judging? && SendDone(d) && d.r.hashes == [SenderHash(env.hash, job)] && d.down == []
    ensures var t := d.r.task.ticket;
      Works(d, job, offset, t) && OnDisk(d, job, offset, t, |job.content|) &&
      d.r.task.actual == (if t.checksum then env.hash(d.r.files[Target(t)]) else "NONE")
  {
    hide SenderMoves, Sent, Works, Written, Do, SenderHash, Target;
  }

  /** What is common to every state with bytes on the move. */
  lemma Movements(hash: Hasher, d: Direction, job: Job, offset: nat)
    requires Moving(hash, d, job, offset)
    ensures SenderMoves(d, job, offset) && HashTravels(hash, d, job)
    ensures d.r.offered.None? && d.h.answers == 0 && d.h.restarts <= 1
    ensures d.up == (if d.s.pending.Some? then [Ready] else [])
    ensures d.h.took == Taken(d, job, offset) - offset && d.h.put == Sent(d, job, offset) - offset
    ensures Taken(d, job, offset) <= Sent(d, job, offset) <= |job.content|
    ensures d.stream == job.content[Taken(d, job, offset)..Sent(d, job, offset)]
  {
    SentWithin(d, job, offset);
    hide SenderMoves, HashTravels, Sent, Taken, HoldsTicket, Works, Queued, OnDisk;
  }

  lemma SentWithin(d: Direction, job: Job, offset: nat)
    ensures SenderMoves(d, job, offset) ==> 0 <= Sent(d, job, offset) <= |job.content|
  {
    hide Sent, Flatten;
  }

  lemma DoneSender(d: Direction, job: Job, offset: nat)
    requires SenderMoves(d, job, offset) && SendDone(d)
    ensures d.s.pending.None? && CalmSender(d.s) && d.h.sendStart == Some(offset) &&
      Sent(d, job, offset) == |job.content|
  {
  }

  lemma CommittedIsComplete(hash: Hasher, d: Direction, d': Direction, job: Job, offset: nat)
    requires d.r.task.Judging? && SenderMoves(d, job, offset) && SendDone(d)
    requires Works(d, job, offset, d.r.task.ticket) && OnDisk(d, job, offset, d.r.task.ticket, |job.content|)
    requires d.h.put == d.h.took == |job.content| - offset
    requires d'.h == d.h.(answers := d'.h.answers) && d'.r.files == Committed(d.r.files, d.r.task.ticket)
    requires var t := d.r.task.ticket;
      t.checksum && job.checksum ==> HashOk(hash(job.content), hash(d.r.files[Target(t)]))
    ensures Complete(hash, d', job)
  {
    hide HashOk, Sent, Written;
    DoneSender(d, job, offset);
    hide SenderMoves;
    var t := d.r.task.ticket;
    assert d'.r.files[t.dest] == d.r.files[Target(t)];
  }

  lemma MoveAnswer(env: Env, d: Direction, job: Job, offset: nat)
    requires Moving(env.hash, d, job, offset) && Enabled(env, d, ReceiverTask(Answer))
    ensures var d' := Do(env, d, ReceiverTask(Answer)); Answered(env.hash, d', job) || Broken(d', job, offset)
  {
    hide Do, Enabled, Moving, SenderMoves, Sent, HashTravels, Written, HashOk, Committed, Complete, Target, Fits,
      Untouched;
    var d' := Do(env, d, ReceiverTask(Answer));
    JudgeFacts(env, d, job, offset);
    Movements(env.hash, d, job, offset);
    DoneSender(d, job, offset);
    DoAnswer(env, d);
    assert d.stream == [];
    if HashOk(d.r.hashes[0], d.r.task.actual) {
      CommittedIsComplete(env.hash, d, d', job, offset);
    } else {
      SameSender(d, d', job, offset);
      StoppedIsBroken(d, d', job, offset);
    }
  }

  /** A receive task that works on its ticket, or has one waiting, and gives up. */
  lemma StoppedIsBroken(d: Direction, d': Direction, job: Job, offset: nat)
    requires SenderMoves(d', job, offset) && d'.s == d.s && d'.h == d.h.(answers := 1)
    requires d'.h.put == Sent(d', job, offset) - offset
    requires d'.r == d.r.(task := Stopped, hashes := d'.r.hashes) && d'.down == d.down && d.h.restarts <= 1
    requires d.r.offered.None? && d.r.parked.None?
    requires (exists t :: Works(d, job, offset, t)) || HoldsTicket(d, job, offset)
    requires d.down == [] || (SendDone(d) && |d.down| == 1 && d.down[0].FileSent?)
    requires SendDone(d) || d'.r.hashes == []
    requires d'.up == (if d.s.pending.Some? then [Ready] else []) + [ReceivedFileFailed]
    ensures Broken(d', job, offset)
  {
    hide SenderMoves, Sent, Staged;
    assert d.h.accept.Some?;
  }

  lemma FailFacts(env: Env, d: Direction, job: Job, offset: nat)
    requires Moving(env.hash, d, job, offset) && Enabled(env, d, ReceiverTask(Fail))
    ensures d.r.parked.None?
    ensures (exists t :: Works(d, job, offset, t)) || HoldsTicket(d, job, offset)
    ensures d.down == [] || (SendDone(d) && |d.down| == 1 && d.down[0].FileSent?)
    ensures SendDone(d) || d.r.hashes == []
  {
    hide SenderMoves, Sent, Queued, OnDisk, Do, Fits, Staged, Untouched;
  }

  lemma MoveFail(env: Env, d: Direction, job: Job, offset: nat)
    requires Moving(env.hash, d, job, offset) && Enabled(env, d, ReceiverTask(Fail))
    ensures Broken(Do(env, d, ReceiverTask(Fail)), job, offset)
  {
    hide Do, Enabled, Moving, SenderMoves, Sent, HashTravels, Works, HoldsTicket, Broken, SendDone;
    var d' := Do(env, d, ReceiverTask(Fail));
    FailFacts(env, d, job, offset);
    Movements(env.hash, d, job, offset);
    DoFail(env, d);
    SameSender(d, d', job, offset);
    StoppedIsBroken(d, d', job, offset);
  }

  // ---- control messages while bytes move ----------------------------------

  lemma DoReady(env: Env, d: Direction)
    requires Enabled(env, d, DeliverUp) && d.up[0] == Ready && d.s.pending.Some?
    ensures Do(env, d, DeliverUp) == d.(s := Trigger(d.s, 0), up := d.up[1..])
  {
    assert d.down + [] == d.down;
  }

  lemma DoFailedHeard(env: Env, d: Direction)
    requires Enabled(env, d, DeliverUp) && d.up[0] == ReceivedFileFailed
    ensures Do(env, d, DeliverUp) == d.(up := d.up[1..])
  {
    assert d.down + [] == d.down;
  }

  /** READY is heard while nothing has been sent. */
  lemma TriggeredAtZero(d: Direction, d': Direction, job: Job, offset: nat)
    requires SenderMoves(d, job, offset) && d.s.pending.Some?
    requires d'.s == Trigger(d.s, 0) && d'.h == d.h
    ensures SenderMoves(d', job, offset) && Sent(d', job, offset) == Sent(d, job, offset) && SendDone(d') == SendDone(d)
    ensures d'.s.pending.None?
  {
  }

  lemma SameReceiving(hash: Hasher, d: Direction, d': Direction, job: Job, offset: nat)
    requires d'.r == d.r && d'.h == d.h && d'.down == d.down && SendDone(d') == SendDone(d)
    ensures ReceiverMoves(hash, d', job, offset) == ReceiverMoves(hash, d, job, offset) &&
      Taken(d', job, offset) == Taken(d, job, offset)
  {
    hide AtWork;
    SameAtWork(hash, d, d', job, offset);
  }

  lemma SameAtWork(hash: Hasher, d: Direction, d': Direction, job: Job, offset: nat)
    requires d'.r == d.r && d'.h == d.h
    ensures AtWork(hash, d', job, offset) == AtWork(hash, d, job, offset)
  {
    hide Queued, Written;
    SameHolding(d, d', job, offset);
    hide HoldsTicket;
  }

  lemma SameHolding(d: Direction, d': Direction, job: Job, offset: nat)
    requires d'.r == d.r && d'.h == d.h
    ensures HoldsTicket(d', job, offset) == HoldsTicket(d, job, offset)
  {
  }

  lemma MoveDeliverUp(env: Env, d: Direction, job: Job, offset: nat)
    requires Moving(env.hash, d, job, offset) && Enabled(env, d, DeliverUp)
    ensures Moving(env.hash, Do(env, d, DeliverUp), job, offset)
  {
    hide Do, SenderMoves, ReceiverMoves, Sent, Taken, SendDone;
    assert d.up == [Ready] && d.s.pending.Some?;
    hide Enabled;
    var d' := Do(env, d, DeliverUp);
    DoReady(env, d);
    TriggeredAtZero(d, d', job, offset);
    SameReceiving(env.hash, d, d', job, offset);
  }

  lemma DoResumeOk(env: Env, d: Direction)
    requires Enabled(env, d, DeliverDown) && d.down[0] == ResumeOk && d.r.parked.Some?
    ensures Do(env, d, DeliverDown) ==
      d.(r := d.r.(parked := None, triggers := d.r.triggers + [d.r.parked.value]), down := d.down[1..])
  {
    assert d.up + [] == d.up;
  }

  lemma DoFileSent(env: Env, d: Direction, text: string)
    requires Enabled(env, d, DeliverDown) && d.down[0] == FileSent(text)
    ensures Do(env, d, DeliverDown) == d.(r := d.r.(hashes := d.r.hashes + [text]), down := d.down[1..])
  {
    assert d.up + [] == d.up;
  }

  /** The waiting ticket goes to the receive task. */
  lemma Released(hash: Hasher, d: Direction, d': Direction, job: Job, offset: nat)
    requires AtWork(hash, d, job, offset) && d.r.parked.Some? && d'.h == d.h
    requires d'.r == d.r.(parked := None, triggers := d.r.triggers + [d.r.parked.value])
    ensures AtWork(hash, d', job, offset) && Taken(d', job, offset) == Taken(d, job, offset)
  {
    hide Queued, OnDisk;
    assert HoldsTicket(d, job, offset);
    assert [d.r.parked.value] + d.r.triggers == [] + d'.r.triggers;
  }

  lemma MoveResumeOk(env: Env, d: Direction, job: Job, offset: nat)
    requires Moving(env.hash, d, job, offset) && Enabled(env, d, DeliverDown) && d.r.parked.Some?
    ensures Moving(env.hash, Do(env, d, DeliverDown), job, offset)
  {
    hide Do, Enabled, SenderMoves, Sent, Taken, AtWork, SendDone;
    assert d.down[0] == ResumeOk;
    var d' := Do(env, d, DeliverDown);
    DoResumeOk(env, d);
    SameSender(d, d', job, offset);
    Released(env.hash, d, d', job, offset);
    assert HashTravels(env.hash, d', job);
  }

  lemma SameWorkOtherHashes(hash: Hasher, d: Direction, d': Direction, job: Job, offset: nat)
    requires AtWork(hash, d, job, offset) && d'.h == d.h && d'.r == d.r.(hashes := d'.r.hashes)
    ensures AtWork(hash, d', job, offset) && Taken(d', job, offset) == Taken(d, job, offset)
  {
    hide Queued;
  }

  lemma MoveFileSent(env: Env, d: Direction, job: Job, offset: nat)
    requires Moving(env.hash, d, job, offset) && Enabled(env, d, DeliverDown) && d.r.parked.None?
    ensures Moving(env.hash, Do(env, d, DeliverDown), job, offset)
  {
    hide Do, SenderMoves, Sent, Taken, AtWork;
    assert d.down == [FileSent(SenderHash(env.hash, job))];
    hide Enabled, SendDone;
    var d' := Do(env, d, DeliverDown);
    DoFileSent(env, d, SenderHash(env.hash, job));
    SameSender(d, d', job, offset);
    SameWorkOtherHashes(env.hash, d, d', job, offset);
    assert HashTravels(env.hash, d', job);
  }

  lemma BreakDeliver(env: Env, d: Direction, a: Action, job: Job, offset: nat)
    requires Broken(d, job, offset) && Enabled(env, d, a) && (a.DeliverUp? || a.DeliverDown?)
    ensures Broken(Do(env, d, a), job, offset)
  {
    hide Do, SenderMoves, Sent, Fits, Untouched;
    var d' := Do(env, d, a);
    if a.DeliverDown? {
      DoFileSent(env, d, d.down[0].hash);
      SameSender(d, d', job, offset);
    } else if d.up[0] == Ready {
      DoReady(env, d);
      TriggeredAtZero(d, d', job, offset);
    } else {
      DoFailedHeard(env, d);
      SameSender(d, d', job, offset);
    }
    StillBroken(d, d', job, offset);
  }

  lemma StillBroken(d: Direction, d': Direction, job: Job, offset: nat)
    requires Broken(d, job, offset) && d'.h == d.h && d'.r == d.r.(hashes := d'.r.hashes) && SendDone(d') == SendDone(d)
    requires SenderMoves(d', job, offset) && Sent(d', job, offset) == Sent(d, job, offset)
    requires d'.s.pending.Some? ==> d.s.pending.Some?
    requires (d'.down == d.down || d'.down == []) && (d'.up == d.up || (d.up != [] && d'.up == d.up[1..]))
    requires d.s.pending.Some? && d'.s.pending.None? ==> d'.up == [ReceivedFileFailed]
    requires d'.up == d.up ==> d'.s.pending == d.s.pending
    requires d'.s.pending.Some? ==> d'.up == d.up
    requires !SendDone(d) ==> d'.down == d.down && d'.r.hashes == d.r.hashes
    ensures Broken(d', job, offset)
  {
    hide SenderMoves, Sent;
  }

  // ---- all phases together ------------------------------------------------

  lemma EarlyAcceptMoving(hash: Hasher, d: Direction, d': Direction, job: Job, offset: nat)
    requires d' == d.(r := d.r.(accept := d'.r.accept)) && Moving(hash, d, job, offset)
    ensures Moving(hash, d', job, offset)
  {
    hide SenderMoves, Sent, HashTravels, Queued, Works, OnDisk, HoldsTicket;
    SameSender(d, d', job, offset);
    SameHashTravels(hash, d, d', job);
    SameReceipt(d, d', job, offset);
  }

  lemma SameReceipt(d: Direction, d': Direction, job: Job, offset: nat)
    requires d' == d.(r := d.r.(accept := d'.r.accept))
    ensures HoldsTicket(d', job, offset) == HoldsTicket(d, job, offset)
    ensures forall t :: Works(d', job, offset, t) == Works(d, job, offset, t)
    ensures forall t, position :: OnDisk(d', job, offset, t, position) == OnDisk(d, job, offset, t, position)
  {
  }

  lemma SameHashTravels(hash: Hasher, d: Direction, d': Direction, job: Job)
    requires d' == d.(r := d.r.(accept := d'.r.accept))
    ensures HashTravels(hash, d', job) == HashTravels(hash, d, job)
  {
  }

  lemma EarlyAcceptBroken(d: Direction, d': Direction, job: Job, offset: nat)
    requires d' == d.(r := d.r.(accept := d'.r.accept)) && Broken(d, job, offset)
    ensures Broken(d', job, offset)
  {
    SameSender(d, d', job, offset);
    hide SenderMoves, Sent;
  }

  lemma EarlyAcceptOther(hash: Hasher, d: Direction, d': Direction, job: Job)
    requires d' == d.(r := d.r.(accept := d'.r.accept)) && d.r.offered.None?
    ensures Quiet(d) ==> Quiet(d')
    ensures Offered(d, job) ==> Offered(d', job)
    ensures !Waiting(d, job)
    ensures Declined(d) ==> Declined(d')
    ensures Asked(hash, d, job) ==> Asked(hash, d', job)
    ensures Refused(d, job) ==> Refused(d', job)
    ensures Answered(hash, d, job) ==> Answered(hash, d', job)
  {
  }

  /** An `AcceptFile` that comes before its offer only waits in the loop's state. */
  lemma KeepEarlyAccept(env: Env, d: Direction, a: Action)
    requires Inv(env.hash, d) && Enabled(env, d, a) && a.AcceptOffer? && d.r.offered.None?
    ensures Inv(env.hash, Do(env, d, a))
  {
    var d' := Do(env, d, a);
    assert d' == d.(r := d.r.(accept := Some(a.accept)));
    assert AgreedOffset(d') == AgreedOffset(d);
    hide Do, Enabled, Quiet, Offered, Waiting, Declined, Asked, Refused, Moving, Broken, Answered, AgreedOffset;
    if d.h.job.Some? {
      var job, offset := d.h.job.value, AgreedOffset(d);
      EarlyAcceptOther(env.hash, d, d', job);
      if Moving(env.hash, d, job, offset) {
        EarlyAcceptMoving(env.hash, d, d', job, offset);
      } else if Broken(d, job, offset) {
        EarlyAcceptBroken(d, d', job, offset);
      }
    } else {
      EarlyAcceptOther(env.hash, d, d', Job("", [], false, false));
    }
  }

  lemma KeepQuiet(env: Env, d: Direction, a: Action)
    requires d.h.job.None? && Quiet(d) && Enabled(env, d, a) && !a.AcceptOffer?
    ensures Inv(env.hash, Do(env, d, a))
  {
    assert a.OfferFile?;
    assert Offered(Do(env, d, a), a.job);
  }

  lemma KeepBefore(env: Env, d: Direction, a: Action, job: Job)
    requires d.h.job == Some(job) && Enabled(env, d, a) && (a.AcceptOffer? ==> d.r.offered.Some?)
    requires Offered(d, job) || Waiting(d, job) || Declined(d) || Answered(env.hash, d, job)
    ensures var d' := Do(env, d, a);
      (Quiet(d') && d'.h.job.None?) ||
      (d'.h.job == d.h.job &&
       (Waiting(d', job) || Declined(d') || Asked(env.hash, d', job) || Moving(env.hash, d', job, 0)))
  {
    if a.AcceptOffer? {
      KeepMeeting(env, d, a, job, a.accept);
    } else if Offered(d, job) && d.r.accept.Some? {
      KeepMeeting(env, d, a, job, d.r.accept.value);
    } else if a.RejectOffer? {
      assert Declined(Do(env, d, a));
    }
  }

  /** The sender compares fingerprints: both sides go on from the offset, or the offer starts over. */
  lemma AskedGoesOn(env: Env, d: Direction, a: Action, job: Job)
    requires d.h.job == Some(job) && Asked(env.hash, d, job) && Enabled(env, d, a) && !a.AcceptOffer?
    ensures var d' := Do(env, d, a);
      d'.h.job == d.h.job &&
      (Refused(d', job) ||
       d' == d.(s := d.s.(pending := None, triggers := [(job, d.r.parked.value.offset)]), up := [], down := [ResumeOk]))
  {
    assert a == DeliverUp by { hide Fits, Staged, Untouched, PrefixHash; }
    var d' := Do(env, d, a);
    var t := d.r.parked.value;
    if PrefixHash(env.hash, job.content) != PrefixHash(env.hash, d.r.files[Target(t)]) {
      assert d' == d.(up := [], down := [RestartFromZero], h := d.h.(restarts := 1));
      hide Do, Enabled, PrefixHash, Parked;
      StaysParked(d, d', job);
    }
  }

  lemma KeepAsked(env: Env, d: Direction, a: Action, job: Job)
    requires d.h.job == Some(job) && Asked(env.hash, d, job) && Enabled(env, d, a) && !a.AcceptOffer?
    ensures var d' := Do(env, d, a);
      d'.h.job == d.h.job && (Refused(d', job) || Moving(env.hash, d', job, AgreedOffset(d')))
  {
    assert Parked(d, job) && d.r.parked.Some? by { hide Fits, Staged, Untouched; }
    hide Do, Enabled, Refused, Parked, Moving, PrefixHash;
    AskedGoesOn(env, d, a, job);
    var d' := Do(env, d, a);
    if !Refused(d', job) {
      AgreedMoves(env.hash, d, d', job, d.r.parked.value);
    }
  }

  lemma StaysParked(d: Direction, d': Direction, job: Job)
    requires Parked(d, job) && d' == d.(up := d'.up, down := d'.down, h := d.h.(restarts := d'.h.restarts))
    ensures Parked(d', job)
  {
  }

  /** The fingerprints agree: both sides go on from the offered offset. */
  lemma AgreedMoves(hash: Hasher, d: Direction, d': Direction, job: Job, t: Ticket)
    requires Parked(d, job) && d.h.restarts == 0 && d.r.parked == Some(t)
    requires d' == d.(s := d.s.(pending := None, triggers := [(job, t.offset)]), up := [], down := [ResumeOk])
    ensures Moving(hash, d', job, t.offset)
  {
  }

  lemma KeepRefused(env: Env, d: Direction, a: Action, job: Job)
    requires d.h.job == Some(job) && Refused(d, job) && Enabled(env, d, a) && !a.AcceptOffer?
    ensures var d' := Do(env, d, a); d'.h.job == d.h.job && Moving(env.hash, d', job, 0)
  {
    assert a == DeliverDown;
    var t := d.r.parked.value;
    assert |PartPath(t.dest)| != |t.dest|;
  }

  lemma JobStays(env: Env, d: Direction, a: Action)
    requires Enabled(env, d, a) && !a.OfferFile?
    requires a.DeliverUp? ==> !d.up[0].ReceivedFileOk? && !d.up[0].RejectedUnwanted?
    ensures Do(env, d, a).h.job == d.h.job
  {
  }

  /** What a transfer with bytes on the move rules out. */
  lemma MovingFacts(hash: Hasher, d: Direction, job: Job, offset: nat)
    requires Moving(hash, d, job, offset) || Broken(d, job, offset)
    ensures d.r.offered.None?
    ensures d.up != [] ==> d.up[0] == Ready || d.up[0] == ReceivedFileFailed
    ensures Broken(d, job, offset) ==> d.r.task.Stopped?
  {
    hide SenderMoves, ReceiverMoves;
    assert Moving(hash, d, job, offset) ==> d.r.offered.None? by { ReceiverHasNoOffer(hash, d, job, offset); }
  }

  lemma ReceiverHasNoOffer(hash: Hasher, d: Direction, job: Job, offset: nat)
    ensures ReceiverMoves(hash, d, job, offset) ==> d.r.offered.None?
  {
  }

  lemma KeepMoving(env: Env, d: Direction, a: Action, job: Job, offset: nat)
    requires d.h.job == Some(job) && Moving(env.hash, d, job, offset) && Enabled(env, d, a) && !a.AcceptOffer?
    ensures var d' := Do(env, d, a);
      d'.h.job == d.h.job &&
      (Moving(env.hash, d', job, offset) || Answered(env.hash, d', job) || Broken(d', job, offset))
  {
    hide Do, Moving, Answered, Broken;
    MovingFacts(env.hash, d, job, offset);
    JobStays(env, d, a);
    match a {
      case DeliverUp => MoveDeliverUp(env, d, job, offset);
      case DeliverDown =>
        if d.r.parked.Some? { MoveResumeOk(env, d, job, offset); } else { MoveFileSent(env, d, job, offset); }
      case SenderTask(_) => MoveSender(env, d, a, job, offset);
      case ReceiverTask(StartReceive) => MoveStartReceive(env, d, job, offset);
      case ReceiverTask(ReadStream(n)) => MoveReadStream(env, d, n, job, offset);
      case ReceiverTask(WriteDisk(n)) => MoveWriteDisk(env, d, n, job, offset);
      case ReceiverTask(CloseFile) => MoveClose(env, d, job, offset);
      case ReceiverTask(Answer) => MoveAnswer(env, d, job, offset);
      case ReceiverTask(Fail) => MoveFail(env, d, job, offset);
      case _ =>
    }
  }

  lemma KeepBroken(env: Env, d: Direction, a: Action, job: Job, offset: nat)
    requires d.h.job == Some(job) && Broken(d, job, offset) && Enabled(env, d, a) && !a.AcceptOffer?
    ensures var d' := Do(env, d, a); d'.h.job == d.h.job && Broken(d', job, offset)
  {
    hide Do, Broken;
    MovingFacts(env.hash, d, job, offset);
    JobStays(env, d, a);
    if a.SenderTask? {
      BreakSender(env, d, a, job, offset);
    } else {
      BreakDeliver(env, d, a, job, offset);
    }
  }

  lemma Agreed(hash: Hasher, d: Direction, job: Job, offset: nat)
    requires Moving(hash, d, job, offset) || Broken(d, job, offset)
    ensures AgreedOffset(d) == offset
  {
  }

  /** Every step of either peer, in any order, keeps the invariant. */
  lemma Keep(env: Env, d: Direction, a: Action)
    requires Inv(env.hash, d) && Enabled(env, d, a)
    ensures Inv(env.hash, Do(env, d, a))
  {
    hide Do, Enabled, Quiet, Offered, Waiting, Declined, Asked, Refused, Moving, Broken, Answered, AgreedOffset;
    var d' := Do(env, d, a);
    if a.AcceptOffer? && d.r.offered.None? {
      KeepEarlyAccept(env, d, a);
    } else if d.h.job.None? {
      QuietHasNoOffer(d);
      KeepQuiet(env, d, a);
    } else {
      var job, offset := d.h.job.value, AgreedOffset(d);
      if d.r.offered.Some? { OnlyWaitingHasOffer(env.hash, d, job, offset); }
      if Offered(d, job) || Waiting(d, job) || Declined(d) || Answered(env.hash, d, job) {
        KeepBefore(env, d, a, job);
        if Moving(env.hash, d', job, 0) { Agreed(env.hash, d', job, 0); }
      } else if Asked(env.hash, d, job) {
        KeepAsked(env, d, a, job);
      } else if Refused(d, job) {
        KeepRefused(env, d, a, job);
        Agreed(env.hash, d', job, 0);
      } else if Moving(env.hash, d, job, offset) {
        KeepMoving(env, d, a, job, offset);
        if !Answered(env.hash, d', job) { Agreed(env.hash, d', job, offset); }
      } else {
        KeepBroken(env, d, a, job, offset);
        Agreed(env.hash, d', job, offset);
      }
    }
  }

  lemma QuietHasNoOffer(d: Direction)
    requires Quiet(d)
    ensures d.r.offered.None?
  {
  }

  lemma OnlyWaitingHasOffer(hash: Hasher, d: Direction, job: Job, offset: nat)
    requires d.r.offered.Some?
    ensures !Offered(d, job) && !Declined(d) && !Asked(hash, d, job) && !Refused(d, job) &&
      !Moving(hash, d, job, offset) && !Broken(d, job, offset) && !Answered(hash, d, job)
  {
  }

  /** In every reachable state, whatever the interleaving. */
  lemma {:induction false} Always(env: Env, d: Direction, actions: seq<Action>)
    requires Inv(env.hash, d) && Runs(env, d, actions)
    ensures Inv(env.hash, After(env, d, actions))
    decreases |actions|
  {
    hide Do, Enabled, Inv;
    if actions != [] {
      Keep(env, d, actions[0]);
      Always(env, Do(env, d, actions[0]), actions[1..]);
    }
  }
}
