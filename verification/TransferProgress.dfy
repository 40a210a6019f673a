/**
  Termination and freedom from deadlock: as long as no step fails, an offer
  that is accepted or rejected is always answered, however small the chunk
  queues and the stream's window are.
*/
module TransferProgress {
  import opened Common
  import opened ControlMessages
  import opened Coordination
  import opened Tasks
  import opened Transfer
  import opened TransferInvariant

  /** Steps of the protocol itself: no new offer, no acceptance ahead of time, no I/O failure. */
  predicate Productive(d: Direction, a: Action) {
    !a.OfferFile? && a != ReceiverTask(Fail) && (a.AcceptOffer? ==> d.r.offered.Some?)
  }

  /** The offer was answered, or the receiver's FAILED was heard, which cancels the peer. */
  predicate Final(d: Direction) {
    d.h.job.None? || (d.r.task.Stopped? && d.up == [])
  }

  /** A step that is enabled in a state that is not final. */
  function NextAction(d: Direction): Action {
    if d.up != [] then DeliverUp
    else if d.down != [] then DeliverDown
    else if d.r.offered.Some? then RejectOffer
    else NextTaskAction(d)
  }

  function NextTaskAction(d: Direction): Action {
    if d.s.triggers != [] then SenderTask(StartSend)
    else if d.r.triggers != [] then ReceiverTask(StartReceive)
    else if d.r.task.Receiving? && d.r.task.queue != [] then ReceiverTask(WriteDisk(|d.r.task.queue[0]|))
    else if d.r.task.Receiving? && d.stream != [] then ReceiverTask(ReadStream(1))
    else if d.s.task.Sending? && d.s.task.held != [] then SenderTask(WriteStream(1))
    else if d.s.task.Sending? && d.s.task.queue != [] then SenderTask(TakeChunk)
    else if d.s.task.Sending? && d.s.task.read < |d.s.task.job.content| then SenderTask(ReadSource(1))
    else if d.s.task.Sending? then SenderTask(FinishSend)
    else if d.r.task.Receiving? then ReceiverTask(CloseFile)
    else ReceiverTask(Answer)
  }

  /** Where the send task can be while bytes move. */
  lemma SenderShape(d: Direction, job: Job, offset: nat)
    requires SenderMoves(d, job, offset) && d.s.pending.None?
    ensures d.s.triggers != [] ==> d.s.task.SendIdle?
    ensures d.s.task.SendIdle? && d.s.triggers == [] ==> SendDone(d) && Sent(d, job, offset) == |job.content|
    ensures d.s.task.Sending? ==> d.s.task.job == job && d.s.task.read <= |job.content|
  {
    hide Flatten;
  }

  /** Where the receive task can be when nothing waits in the control queues. */
  lemma ReceiverShape(hash: Hasher, d: Direction, job: Job, offset: nat)
    requires Moving(hash, d, job, offset) && d.down == []
    ensures d.r.parked.None? && (d.r.task.RecvIdle? <==> d.r.triggers != []) && !d.r.task.Stopped?
    ensures SendDone(d) ==> d.r.hashes != []
    ensures d.r.task.Receiving? ==> d.r.task.ticket.size == |job.content| && NonEmptyChunks(d.r.task.queue)
  {
    hide SenderMoves, Sent, OnDisk, Staged, Untouched, Flatten, SenderHash;
  }

  lemma TaskCanStep(env: Env, d: Direction, job: Job, offset: nat)
    requires Moving(env.hash, d, job, offset) && d.up == [] && d.down == [] && env.window >= 1
    ensures var a := NextTaskAction(d); Enabled(env, d, a) && Productive(d, a)
  {
    Movements(env.hash, d, job, offset);
    ReceiverShape(env.hash, d, job, offset);
    SenderShape(d, job, offset);
    assert 0 <= Sent(d, job, offset) <= |job.content| by { hide Sent; }
    hide Moving, SenderMoves, HashTravels, Sent, Flatten;
    assert |d.stream| == Sent(d, job, offset) - Taken(d, job, offset);
    if d.s.triggers != [] || d.r.triggers != [] {
    } else if d.r.task.Receiving? && (d.r.task.queue != [] || d.stream != []) {
      ReceiverCanStep(env, d, job);
    } else if d.s.task.Sending? {
      assert d.stream == [];
      SenderCanStep(env, d, job);
    }
  }

  lemma ReceiverCanStep(env: Env, d: Direction, job: Job)
    requires d.r.task.Receiving? && d.r.triggers == [] && d.s.triggers == [] && NonEmptyChunks(d.r.task.queue)
    requires d.r.task.queue != [] || d.stream != []
    requires d.r.task.ticket.size == |job.content| && d.r.task.received + |d.stream| <= |job.content|
    ensures var a := NextTaskAction(d); Enabled(env, d, a) && Productive(d, a)
  {
    if d.r.task.queue != [] { assert d.r.task.queue[0] != []; }
  }

  lemma SenderCanStep(env: Env, d: Direction, job: Job)
    requires d.s.task.Sending? && d.s.task.job == job && d.r.triggers == [] && d.s.triggers == [] && env.window >= 1
    requires d.stream == [] && (d.r.task.Receiving? ==> d.r.task.queue == [])
    ensures var a := NextTaskAction(d); Enabled(env, d, a) && Productive(d, a)
  {
  }

  /** No reachable state is stuck: while an offer is unanswered, some step can be taken. */
  lemma NoDeadlock(env: Env, d: Direction)
    requires Inv(env.hash, d) && !Final(d) && env.window >= 1
    ensures Enabled(env, d, NextAction(d)) && Productive(d, NextAction(d))
  {
    hide SenderMoves, ReceiverMoves, Complete;
    var job, offset := d.h.job.value, AgreedOffset(d);
    if d.up == [] && d.down == [] && d.r.offered.None? {
      assert Moving(env.hash, d, job, offset);
      TaskCanStep(env, d, job, offset);
    }
  }

  // ---- a measure that every step decreases --------------------------------

  /** Work still ahead in the handshake, before bytes can move. */
  function HandshakeWeight(d: Direction, n: nat): nat {
    var all := 5 * n + 30;
    if d.s.pending.None? then 0
    else if d.down != [] && d.down[0].Metadata? then all + 40
    else if d.r.offered.Some? then all + 30
    else if d.up != [] && d.up[0].ResumeReady? then all + 20
    else if d.down != [] && d.down[0].RestartFromZero? then all + 10
    else 0
  }

  /**
    A byte weighs less the further it has come: 5 in the source, 4 and 3 in the
    send task, 2 on the stream, 1 before the disk.
  */
  function SenderWeight(d: Direction, n: nat): int {
    match d.s.task
    case Sending(_, _, read, queue, held) => 5 * (n - read) + 4 * |Flatten(queue)| + 3 * |held| + 3
    case SendIdle =>
      if d.h.sendStart.Some? then 0
      else if d.s.triggers != [] then 5 * (n - d.s.triggers[0].1) + 4
      else if d.up != [] && d.up[0].Ready? then 5 * n + 5
      else 0
  }

  function ReceiverWeight(r: Receiver): nat {
    (if r.parked.Some? then 5 else 0) +
    match r.task
    case Receiving(_, _, queue, _, _) => |Flatten(queue)| + 3
    case Judging(_, _) => 2
    case RecvIdle => if r.triggers != [] then 4 else 0
    case Stopped => 0
  }

  function Weight(d: Direction): int {
    if d.h.job.None? then 0
    else
      var n := |d.h.job.value.content|;
      HandshakeWeight(d, n) + SenderWeight(d, n) + 2 * |d.stream| + ReceiverWeight(d.r) +
      2 * |d.down| + |d.up| + |d.r.hashes|
  }

  lemma WeightIsNatural(hash: Hasher, d: Direction)
    requires Inv(hash, d)
    ensures Weight(d) >= 0
  {
    if d.h.job.Some? {
      var job, offset := d.h.job.value, AgreedOffset(d);
      if Moving(hash, d, job, offset) || Broken(d, job, offset) {
        SenderWeightIsNatural(d, job, offset);
      }
    }
    hide SenderMoves, ReceiverMoves, Complete, Sent, Taken;
  }

  lemma SenderWeightIsNatural(d: Direction, job: Job, offset: nat)
    requires SenderMoves(d, job, offset)
    ensures SenderWeight(d, |job.content|) >= 0
  {
  }

  lemma SendLowers(env: Env, d: Direction, a: Action, job: Job, offset: nat)
    requires SenderMoves(d, job, offset) && Enabled(env, d, a) && a.SenderTask?
    ensures var d' := Do(env, d, a); var n := |job.content|;
      SenderWeight(d', n) + 2 * |d'.stream| + 2 * |d'.down| < SenderWeight(d, n) + 2 * |d.stream| + 2 * |d.down| &&
      d'.r == d.r && d'.up == d.up && d'.h.job == d.h.job &&
      d'.s.pending.None?
  {
    match a.send {
      case ReadSource(n) => FlattenAppend(d.s.task.queue, d.s.task.job.content[d.s.task.read..d.s.task.read + n]);
      case TakeChunk => assert |Flatten(d.s.task.queue)| == |d.s.task.queue[0]| + |Flatten(d.s.task.queue[1..])|;
      case _ =>
    }
  }

  predicate MovesBytes(a: Action) {
    a.ReceiverTask? && !a.receive.Answer? && !a.receive.Fail?
  }

  lemma ReceiveLowers(env: Env, d: Direction, a: Action)
    requires Enabled(env, d, a) && MovesBytes(a)
    requires d.r.parked.None?
    requires d.r.task.Receiving? ==> NonEmptyChunks(d.r.task.queue)
    ensures var d' := Do(env, d, a);
      2 * |d'.stream| + ReceiverWeight(d'.r) < 2 * |d.stream| + ReceiverWeight(d.r) &&
      d'.s == d.s && d'.up == d.up && d'.down == d.down && d'.r.hashes == d.r.hashes && d'.r.offered == d.r.offered &&
      d'.h == d.h.(ticket := d'.h.ticket, took := d'.h.took)
  {
    match a.receive {
      case ReadStream(n) => FlattenAppend(d.r.task.queue, d.stream[..n]);
      case WriteDisk(n) =>
        WriteQueue(d.r.task.queue, n);
        hide WriteAt;
      case _ =>
    }
  }

  /** Every productive step lowers the weight. */
  lemma Lowers(env: Env, d: Direction, a: Action)
    requires Inv(env.hash, d) && d.h.job.Some? && Enabled(env, d, a) && Productive(d, a)
    ensures Weight(Do(env, d, a)) < Weight(d)
  {
    var job, offset := d.h.job.value, AgreedOffset(d);
    if Moving(env.hash, d, job, offset) || Broken(d, job, offset) {
      MovingFacts(env.hash, d, job, offset);
      if a.SenderTask? {
        MovingSendLowers(env, d, a, job, offset);
      } else if MovesBytes(a) {
        MovingReceiveLowers(env, d, a, job, offset);
      } else {
        MovingMessageLowers(env, d, a, job, offset);
      }
    } else {
      HandshakeLowers(env, d, a, job);
    }
  }

  lemma MovingSendLowers(env: Env, d: Direction, a: Action, job: Job, offset: nat)
    requires d.h.job == Some(job) && a.SenderTask? && Enabled(env, d, a)
    requires Moving(env.hash, d, job, offset) || Broken(d, job, offset)
    ensures Weight(Do(env, d, a)) < Weight(d)
  {
    hide Do, Enabled;
    SendLowers(env, d, a, job, offset);
    KeepSender(env, d, a, job, offset);
    hide SenderMoves, ReceiverMoves, SenderWeight, ReceiverWeight, Sent, Taken;
  }

  lemma MovingReceiveLowers(env: Env, d: Direction, a: Action, job: Job, offset: nat)
    requires d.h.job == Some(job) && MovesBytes(a) && Enabled(env, d, a)
    requires Moving(env.hash, d, job, offset) || Broken(d, job, offset)
    ensures Weight(Do(env, d, a)) < Weight(d)
  {
    hide Do, Enabled, Moving, Broken;
    var d' := Do(env, d, a);
    BytesCanMove(env, d, a, job, offset);
    ReceiveLowers(env, d, a);
    SenderWeightLooksAt(d, d', |job.content|);
    hide SenderWeight, ReceiverWeight, MovesBytes, Flatten;
  }

  /** What a step of the receive task that moves bytes finds. */
  lemma BytesCanMove(env: Env, d: Direction, a: Action, job: Job, offset: nat)
    requires MovesBytes(a) && Enabled(env, d, a) && (Moving(env.hash, d, job, offset) || Broken(d, job, offset))
    ensures d.r.parked.None? && (d.r.task.Receiving? ==> NonEmptyChunks(d.r.task.queue))
  {
    hide SenderMoves, HashTravels, OnDisk, Do, Fits, Staged, Untouched, Flatten, Sent;
  }

  lemma MovingMessageLowers(env: Env, d: Direction, a: Action, job: Job, offset: nat)
    requires d.h.job == Some(job) && (a.DeliverUp? || a.DeliverDown? || a == ReceiverTask(Answer)) && Enabled(env, d, a)
    requires Moving(env.hash, d, job, offset) || Broken(d, job, offset)
    ensures Weight(Do(env, d, a)) < Weight(d)
  {
    match a {
      case DeliverUp => UpLowers(env, d, job, offset);
      case DeliverDown => DownLowers(env, d, job, offset);
      case ReceiverTask(_) => AnswerLowers(env, d, job, offset);
    }
  }

  lemma AnswerLowers(env: Env, d: Direction, job: Job, offset: nat)
    requires d.h.job == Some(job) && Enabled(env, d, ReceiverTask(Answer))
    requires Moving(env.hash, d, job, offset) || Broken(d, job, offset)
    ensures Weight(Do(env, d, ReceiverTask(Answer))) < Weight(d)
  {
    MovingFacts(env.hash, d, job, offset);
    hide Do, Broken, Moving, Flatten, SenderWeight;
    assert !Broken(d, job, offset);
    JudgeFacts(env, d, job, offset);
    Movements(env.hash, d, job, offset);
    DoneSender(d, job, offset);
    hide SenderMoves, HashTravels, Works, OnDisk, HashOk, Sent;
    var d' := Do(env, d, ReceiverTask(Answer));
    assert d'.s == d.s && d'.h.sendStart == d.h.sendStart && d'.stream == d.stream && d'.down == d.down &&
      d'.h.job == d.h.job by {
      DoAnswer(env, d);
    }
    assert SenderWeight(d', |job.content|) == SenderWeight(d, |job.content|) by {
      SameSenderWeight(d, d', |job.content|);
    }
    assert |d'.up| == |d.up| + 1 && ReceiverWeight(d'.r) + 2 <= ReceiverWeight(d.r) &&
      |d'.r.hashes| + 1 == |d.r.hashes| by {
      DoAnswer(env, d);
    }
  }

  lemma SameSenderWeight(d: Direction, d': Direction, n: nat)
    requires d'.s == d.s && d'.h.sendStart == d.h.sendStart && d.h.sendStart.Some?
    ensures SenderWeight(d', n) == SenderWeight(d, n)
  {
  }

  lemma UpLowers(env: Env, d: Direction, job: Job, offset: nat)
    requires d.h.job == Some(job) && Enabled(env, d, DeliverUp)
    requires Moving(env.hash, d, job, offset) || Broken(d, job, offset)
    ensures Weight(Do(env, d, DeliverUp)) < Weight(d)
  {
    assert d.up != [];
    hide Do, Enabled, Moving, Broken;
    var d' := Do(env, d, DeliverUp);
    UpFacts(env.hash, d, job, offset);
    if d.up[0] == Ready {
      DoReady(env, d);
    } else {
      DoFailedHeard(env, d);
    }
    hide ReceiverWeight, Flatten;
  }

  lemma UpFacts(hash: Hasher, d: Direction, job: Job, offset: nat)
    requires d.up != [] && (Moving(hash, d, job, offset) || Broken(d, job, offset))
    ensures d.r.offered.None? && (d.down != [] ==> !d.down[0].Metadata? && !d.down[0].RestartFromZero?)
    ensures if d.up[0] == Ready then
        d.s.pending.Some? && d.s.triggers == [] && d.s.task.SendIdle? && d.h.sendStart.None? &&
        (d.up == [Ready] || d.up == [Ready, ReceivedFileFailed])
      else d.up == [ReceivedFileFailed] && d.s.pending.None?
  {
    hide Flatten, AtWork, Fits, Untouched, SenderHash, Sent, Taken;
  }

  lemma DownLowers(env: Env, d: Direction, job: Job, offset: nat)
    requires d.h.job == Some(job) && Enabled(env, d, DeliverDown)
    requires Moving(env.hash, d, job, offset) || Broken(d, job, offset)
    ensures Weight(Do(env, d, DeliverDown)) < Weight(d)
  {
    assert d.down != [];
    hide Do, Enabled, Moving, Broken, Weight;
    var d' := Do(env, d, DeliverDown);
    DownFacts(env.hash, d, job, offset);
    if d.down[0] == ResumeOk {
      DoResumeOk(env, d);
      ReleaseLowers(d, d');
    } else {
      DoFileSent(env, d, d.down[0].hash);
      HashLowers(d, d');
    }
  }

  lemma ReleaseLowers(d: Direction, d': Direction)
    requires d.h.job.Some? && d.down != [] && d.down[0] == ResumeOk && d.r.parked.Some? && d.r.task.RecvIdle? &&
      d.r.triggers == []
    requires d.r.offered.None? && (d.down == [ResumeOk] || (|d.down| == 2 && d.down[1].FileSent?))
    requires d' == d.(r := d.r.(parked := None, triggers := d.r.triggers + [d.r.parked.value]), down := d.down[1..])
    ensures Weight(d') < Weight(d)
  {
    SenderWeightLooksAt(d, d', |d.h.job.value.content|);
    hide SenderWeight;
  }

  lemma HashLowers(d: Direction, d': Direction)
    requires d.h.job.Some? && |d.down| == 1 && d.down[0].FileSent? && d.r.offered.None?
    requires d' == d.(r := d.r.(hashes := d.r.hashes + [d.down[0].hash]), down := d.down[1..])
    ensures Weight(d') < Weight(d)
  {
    SenderWeightLooksAt(d, d', |d.h.job.value.content|);
    hide SenderWeight, ReceiverWeight;
    assert ReceiverWeight(d'.r) == ReceiverWeight(d.r) by { SameReceiverWeight(d.r, d'.r); }
  }

  lemma SameReceiverWeight(r: Receiver, r': Receiver)
    requires r' == r.(hashes := r'.hashes)
    ensures ReceiverWeight(r') == ReceiverWeight(r)
  {
  }

  lemma DownFacts(hash: Hasher, d: Direction, job: Job, offset: nat)
    requires d.down != [] && (Moving(hash, d, job, offset) || Broken(d, job, offset))
    ensures d.r.offered.None?
    ensures (d.down[0] == ResumeOk && d.r.parked.Some? && d.r.task.RecvIdle? && d.r.triggers == []) ||
      (d.down[0].FileSent? && |d.down| == 1)
    ensures d.down[0] == ResumeOk ==> d.down == [ResumeOk] || (|d.down| == 2 && d.down[1].FileSent?)
  {
    hide SenderMoves, Sent, Queued, OnDisk, Staged, Untouched, Fits, SenderHash;
  }

  lemma SenderWeightLooksAt(d: Direction, d': Direction, n: nat)
    requires d'.s == d.s && d'.h.sendStart == d.h.sendStart && d'.up == d.up
    ensures SenderWeight(d', n) == SenderWeight(d, n)
  {
  }

  lemma HandshakeLowers(env: Env, d: Direction, a: Action, job: Job)
    requires d.h.job == Some(job) && Enabled(env, d, a) && Productive(d, a)
    requires Offered(d, job) || Waiting(d, job) || Declined(d) || Asked(env.hash, d, job) || Refused(d, job) ||
      Answered(env.hash, d, job)
    ensures Weight(Do(env, d, a)) < Weight(d)
  {
    if a.AcceptOffer? {
      MeetingLowers(env, d, a, job, a.accept);
    } else if Offered(d, job) && d.r.accept.Some? {
      MeetingLowers(env, d, a, job, d.r.accept.value);
    } else if Asked(env.hash, d, job) || Refused(d, job) {
      ParkedLowers(env, d, a, job);
    } else {
      hide Complete, HandleAccept;
    }
  }

  // The weights of the states before the first byte, for a source of n bytes.

  lemma MeetingWeight(d: Direction, job: Job)
    requires d.h.job == Some(job) && (Offered(d, job) || Waiting(d, job))
    ensures Weight(d) >= 5 * |job.content| + 60
  {
  }

  lemma AskedWeight(hash: Hasher, d: Direction, job: Job)
    requires d.h.job == Some(job) && Asked(hash, d, job)
    ensures Weight(d) == 5 * |job.content| + 56
  {
    hide Fits, Staged, Untouched, PrefixHash;
  }

  lemma RefusedWeight(d: Direction, job: Job)
    requires d.h.job == Some(job) && Refused(d, job)
    ensures Weight(d) == 5 * |job.content| + 47
  {
    hide Fits, Staged, Untouched;
  }

  /** READY has been sent and nothing has moved yet. */
  lemma MovingAtReady(hash: Hasher, d: Direction, job: Job)
    requires d.h.job == Some(job) && Moving(hash, d, job, 0) && d.s.pending == Some(job) && CalmSender(d.s) &&
      d.h.sendStart.None?
    ensures Weight(d) <= 5 * |job.content| + 30
  {
    hide OnDisk, Staged, Untouched, Fits, SenderHash;
  }

  lemma MeetingKeepsSender(env: Env, d: Direction, a: Action)
    requires Enabled(env, d, a) && (a.AcceptOffer? || a == DeliverDown)
    ensures var d' := Do(env, d, a); d'.h.job == d.h.job && d'.s == d.s && d'.h.sendStart == d.h.sendStart
  {
    hide HandleAccept, OnReceiverMessage;
  }

  lemma MeetingLowers(env: Env, d: Direction, a: Action, job: Job, accept: Accept)
    requires d.h.job == Some(job) && Enabled(env, d, a)
    requires (Waiting(d, job) && a == AcceptOffer(accept)) ||
      (Offered(d, job) && a == DeliverDown && d.r.accept == Some(accept))
    ensures Weight(Do(env, d, a)) < Weight(d)
  {
    hide Do, Enabled, Weight, Asked, Moving;
    var d' := Do(env, d, a);
    KeepMeeting(env, d, a, job, accept);
    MeetingKeepsSender(env, d, a);
    MeetingWeight(d, job);
    if Asked(env.hash, d', job) {
      AskedWeight(env.hash, d', job);
    } else {
      MovingAtReady(env.hash, d', job);
    }
  }

  lemma AgreedLowers(hash: Hasher, d: Direction, d': Direction, job: Job)
    requires d.h.job == Some(job) && Asked(hash, d, job)
    requires d' == d.(s := d.s.(pending := None, triggers := [(job, d.r.parked.value.offset)]), up := [],
                      down := [ResumeOk])
    ensures Weight(d') <= 5 * |job.content| + 11
  {
    hide Staged, Untouched, PrefixHash;
  }

  lemma ParkedLowers(env: Env, d: Direction, a: Action, job: Job)
    requires d.h.job == Some(job) && Enabled(env, d, a) && !a.AcceptOffer?
    requires Asked(env.hash, d, job) || Refused(d, job)
    ensures Weight(Do(env, d, a)) < Weight(d)
  {
    hide Do, Weight, HandshakeWeight, SenderWeight, ReceiverWeight;
    var d' := Do(env, d, a);
    if Asked(env.hash, d, job) {
      AskedWeight(env.hash, d, job);
      AskedGoesOn(env, d, a, job);
      if Refused(d', job) {
        RefusedWeight(d', job);
      } else {
        AgreedLowers(env.hash, d, d', job);
      }
    } else {
      RefusedWeight(d, job);
      assert a == DeliverDown by { hide Fits, Staged, Untouched; }
      KeepRefused(env, d, a, job);
      MeetingKeepsSender(env, d, a);
      hide Moving, Enabled;
      MovingAtReady(env.hash, d', job);
    }
  }

  ghost predicate ProductiveRun(env: Env, d: Direction, actions: seq<Action>)
    requires Runs(env, d, actions)
    decreases |actions|
  {
    actions == [] || (Productive(d, actions[0]) && ProductiveRun(env, Do(env, d, actions[0]), actions[1..]))
  }

  lemma NothingProductiveWhenQuiet(env: Env, d: Direction, a: Action)
    requires Quiet(d) && Enabled(env, d, a)
    ensures !Productive(d, a)
  {
  }

  /** An accepted offer has exactly one RECEIVED_FILE answer when the run is over, a rejected one none. */
  lemma FinalAnswers(hash: Hasher, d: Direction)
    requires Inv(hash, d) && Final(d)
    ensures d.h.answers == if d.h.accept.Some? then 1 else 0
  {
    hide SenderMoves, ReceiverMoves, Complete;
    if d.h.job.Some? {
      StoppedMeansBroken(hash, d);
    }
  }

  lemma StoppedMeansBroken(hash: Hasher, d: Direction)
    requires Inv(hash, d) && d.r.task.Stopped?
    ensures d.h.job.Some? && Broken(d, d.h.job.value, AgreedOffset(d))
  {
    hide SenderMoves, Complete, HashTravels;
  }

  /**
    A run of productive steps is no longer than its weight; where it cannot be
    extended it is final, and the offer has been answered exactly once.
  */
  lemma {:induction false} EveryRunEnds(env: Env, d: Direction, actions: seq<Action>)
    requires Inv(env.hash, d) && env.window >= 1 && Runs(env, d, actions) && ProductiveRun(env, d, actions)
    ensures var d' := After(env, d, actions);
      |actions| <= Weight(d) - Weight(d') <= Weight(d) &&
      (Final(d') || (Enabled(env, d', NextAction(d')) && Productive(d', NextAction(d')))) &&
      (Final(d') ==> d'.h.answers == if d'.h.accept.Some? then 1 else 0)
    decreases |actions|
  {
    hide Do, Enabled, Inv, Final, Productive, Weight, NextAction;
    if actions == [] {
      WeightIsNatural(env.hash, d);
      if Final(d) {
        FinalAnswers(env.hash, d);
      } else {
        NoDeadlock(env, d);
      }
    } else {
      if d.h.job.None? {
        QuietWithoutJob(env.hash, d);
        NothingProductiveWhenQuiet(env, d, actions[0]);
      }
      Lowers(env, d, actions[0]);
      Keep(env, d, actions[0]);
      EveryRunEnds(env, Do(env, d, actions[0]), actions[1..]);
    }
  }

  lemma QuietWithoutJob(hash: Hasher, d: Direction)
    requires Inv(hash, d) && d.h.job.None?
    ensures Quiet(d)
  {
  }
}
