/**
  Interruption and cold resumption: both processes may be killed between any
  two steps, only the receiver's files survive, and the same file is offered
  and accepted again with `--resume`. A disk write is a step per byte range
  of any length, so a kill may fall inside a chunk.
*/
module TransferResume {
  import opened Common
  import opened ControlMessages
  import opened Coordination
  import opened Tasks
  import opened Transfer
  import opened TransferInvariant

  /** The one file that is being sent, and where it is saved. */
  datatype Errand = Errand(name: string, content: Bytes, dir: string)

  datatype Event = Step(action: Action) | Kill

  predicate ForErrand(e: Errand, ev: Event) {
    ev.Kill? ||
    match ev.action
    case OfferFile(job) => job.name == e.name && job.content == e.content && job.resume
    case AcceptOffer(accept) => accept.dir == e.dir && accept.resume
    case _ => true
  }

  predicate Possible(env: Env, d: Direction, ev: Event) {
    ev.Kill? || Enabled(env, d, ev.action)
  }

  function Happen(env: Env, d: Direction, ev: Event): Direction
    requires Possible(env, d, ev)
  {
    if ev.Kill? then Fresh(d.r.files) else Do(env, d, ev.action)
  }

  ghost predicate Unfolds(env: Env, e: Errand, d: Direction, events: seq<Event>)
    decreases |events|
  {
    events == [] ||
    (ForErrand(e, events[0]) && Possible(env, d, events[0]) && Unfolds(env, e, Happen(env, d, events[0]), events[1..]))
  }

  ghost function Outcome(env: Env, e: Errand, d: Direction, events: seq<Event>): Direction
    requires Unfolds(env, e, d, events)
    decreases |events|
  {
    if events == [] then d else Outcome(env, e, Happen(env, d, events[0]), events[1..])
  }

  function DestOf(e: Errand): string {
    DestPath(e.dir, e.name)
  }

  function PartOf(e: Errand): string {
    PartPath(DestOf(e))
  }

  predicate Large(e: Errand) {
    |e.content| >= RESUME_THRESHOLD_BYTES
  }

  /** A staged file never holds anything but a prefix of the source. */
  predicate GoodFiles(e: Errand, files: map<string, Bytes>) {
    (PartOf(e) in files ==> Large(e) && IsPrefix(files[PartOf(e)], e.content)) &&
    (DestOf(e) in files ==> if Large(e) then files[DestOf(e)] == e.content else IsPrefix(files[DestOf(e)], e.content))
  }

  predicate GoodTicket(e: Errand, t: Ticket) {
    t.dest == DestOf(e) && (if Large(e) then !t.usePart ==> t.offset == |e.content| else !t.usePart)
  }

  predicate GoodTickets(e: Errand, r: Receiver) {
    (r.parked.Some? ==> GoodTicket(e, r.parked.value)) &&
    (forall i :: 0 <= i < |r.triggers| ==> GoodTicket(e, r.triggers[i])) &&
    (r.task.Receiving? || r.task.Judging? ==> GoodTicket(e, r.task.ticket))
  }

  predicate SameErrand(e: Errand, d: Direction) {
    (d.h.job.Some? ==> d.h.job.value.name == e.name && d.h.job.value.content == e.content && d.h.job.value.resume) &&
    (d.r.accept.Some? ==> d.r.accept.value.dir == e.dir && d.r.accept.value.resume) &&
    (d.h.accept.Some? ==> d.h.accept.value.dir == e.dir)
  }

  predicate ResumeInv(hash: Hasher, e: Errand, d: Direction) {
    Inv(hash, d) && SameErrand(e, d) && GoodFiles(e, d.r.files) && GoodTickets(e, d.r) && d.h.restarts == 0
  }

  lemma PathsDiffer(e: Errand)
    ensures PartOf(e) != DestOf(e)
  {
    assert |PartOf(e)| != |DestOf(e)|;
  }

  /** What an acceptance does to good files: it only shortens the part file. */
  lemma AcceptKeepsGood(hash: Hasher, e: Errand, r: Receiver, a: Accept)
    requires GoodFiles(e, r.files) && GoodTickets(e, r) && a.dir == e.dir && a.resume && r.offeredResume
    ensures var out := HandleAccept(hash, r, a, Offer(e.name, |e.content|));
      GoodFiles(e, out.state.files) && GoodTickets(e, out.state)
  {
    PathsDiffer(e);
  }

  lemma Meetings(env: Env, d: Direction, a: Action)
    requires Inv(env.hash, d) && Enabled(env, d, a)
    ensures Meeting(d, a).Some? ==>
      d.h.job.Some? && var job := d.h.job.value;
      Meeting(d, a).value.1 == Offer(job.name, |job.content|) && (Offered(d, job) || Waiting(d, job)) &&
      Meeting(d, a).value.0 == (if a.AcceptOffer? then a.accept else d.r.accept.value) &&
      (a.AcceptOffer? || d.r.accept.Some?)
  {
    hide SenderMoves, ReceiverMoves, Complete;
    if Meeting(d, a).Some? {
      if a.AcceptOffer? {
        if d.h.job.Some? { OnlyWaitingHasOffer(env.hash, d, d.h.job.value, AgreedOffset(d)); }
      } else {
        MetadataMeansOffered(env.hash, d);
      }
    }
  }

  lemma MetadataMeansOffered(hash: Hasher, d: Direction)
    requires Inv(hash, d) && d.down != [] && d.down[0].Metadata?
    ensures d.h.job.Some? && Offered(d, d.h.job.value)
  {
    hide SenderMoves, Complete, Queued, OnDisk, Works, HoldsTicket;
  }

  lemma MeetingKeepsGood(env: Env, e: Errand, d: Direction, a: Action)
    requires ResumeInv(env.hash, e, d) && Enabled(env, d, a) && ForErrand(e, Step(a)) && Meeting(d, a).Some?
    ensures var d' := Do(env, d, a);
      SameErrand(e, d') && GoodFiles(e, d'.r.files) && GoodTickets(e, d'.r) && d'.h.restarts == d.h.restarts
  {
    hide Inv, HandleAccept, GoodFiles;
    Meetings(env, d, a);
    var (accept, offer) := Meeting(d, a).value;
    var job := d.h.job.value;
    var r := d.r.(accept := None, offered := None, offeredResume := true);
    assert r == (if a.AcceptOffer? then d.r.(offered := None)
                 else d.r.(accept := None, offered := None, offeredResume := d.down[0].resume));
    AcceptKeepsGood(env.hash, e, r, accept);
    AcceptOutcome(env.hash, r, accept, offer);
    assert Do(env, d, a).r == HandleAccept(env.hash, r, accept, offer).state;
  }

  lemma NoRestartAhead(hash: Hasher, d: Direction)
    requires Inv(hash, d) && d.h.restarts == 0 && d.down != []
    ensures !d.down[0].RestartFromZero?
  {
    hide SenderMoves, Complete, Queued, OnDisk, Works, HoldsTicket;
  }

  /** The fingerprint of a prefix that reaches past 64 KiB is the fingerprint of the whole. */
  lemma FingerprintMatches(hash: Hasher, part: Bytes, content: Bytes)
    requires IsPrefix(part, content) && (part == content || |part| >= 65536)
    ensures PrefixHash(hash, part) == PrefixHash(hash, content)
  {
    assert |part| >= 65536 ==> part[..65536] == content[..65536];
  }

  /** The receiver's question about its stored bytes is always answered RESUME_OK. */
  lemma NeverRefused(env: Env, e: Errand, d: Direction)
    requires ResumeInv(env.hash, e, d) && d.up != []
    ensures Do(env, d, DeliverUp).h.restarts == 0
  {
    hide Moving, Broken, Complete, GoodTickets;
    if d.up[0].ResumeReady? && d.s.pending.Some? {
      AskedWhenResumeReady(env.hash, d);
      var t := d.r.parked.value;
      assert GoodTicket(e, t) by { ParkedIsGood(e, d.r); }
      FingerprintMatches(env.hash, d.r.files[Target(t)], e.content);
    }
  }

  lemma ParkedIsGood(e: Errand, r: Receiver)
    requires GoodTickets(e, r) && r.parked.Some?
    ensures GoodTicket(e, r.parked.value)
  {
  }

  lemma AskedWhenResumeReady(hash: Hasher, d: Direction)
    requires Inv(hash, d) && d.up != [] && d.up[0].ResumeReady?
    ensures d.h.job.Some? && Asked(hash, d, d.h.job.value)
  {
    hide SenderMoves, ReceiverMoves, Complete;
  }

  /** A receive task at work belongs to a transfer whose bytes are on the move. */
  lemma WorkMeansMoving(hash: Hasher, d: Direction)
    requires Inv(hash, d) && !d.r.task.Stopped? && (d.r.task.Receiving? || d.r.task.Judging? || d.r.triggers != [])
    ensures d.h.job.Some? && Moving(hash, d, d.h.job.value, AgreedOffset(d))
  {
    hide SenderMoves, ReceiverMoves, Complete;
  }

  lemma TaskKeepsTickets(hash: Hasher, e: Errand, r: Receiver, stream: Bytes, a: ReceiveStep)
    requires GoodTickets(e, r) && CanReceive(r, stream, a)
    ensures var r' := Receive(hash, r, stream, a).state;
      GoodTickets(e, r') && r'.accept == r.accept && (a.ReadStream? || a.CloseFile? || a.Fail? ==> r'.files == r.files)
  {
    hide WriteAt, OpenTarget, ReceiverHash;
  }

  lemma ReceiveKeepsTickets(env: Env, e: Errand, d: Direction, a: Action)
    requires SameErrand(e, d) && GoodTickets(e, d.r) && Enabled(env, d, a) && a.ReceiverTask?
    ensures var d' := Do(env, d, a);
      SameErrand(e, d') && GoodTickets(e, d'.r) && d'.h.restarts == d.h.restarts &&
      (a.receive.ReadStream? || a.receive.CloseFile? || a.receive.Fail? ==> d'.r.files == d.r.files)
  {
    TaskKeepsTickets(env.hash, e, d.r, d.stream, a.receive);
    hide Receive, GoodTickets;
  }

  lemma AnswerKeepsGood(env: Env, e: Errand, d: Direction, job: Job, offset: nat)
    requires ResumeInv(env.hash, e, d) && Enabled(env, d, ReceiverTask(Answer)) && Moving(env.hash, d, job, offset) &&
      d.h.job == Some(job)
    ensures GoodFiles(e, Do(env, d, ReceiverTask(Answer)).r.files)
  {
    hide Inv, SenderMoves, HashTravels, HashOk;
    PathsDiffer(e);
    var t := d.r.task.ticket;
    if Target(t) in d.r.files {
      assert IsPrefix(d.r.files[Target(t)], e.content) ==> d.r.files[Target(t)] == e.content;
    }
  }

  lemma ReceiveKeepsGood(env: Env, e: Errand, d: Direction, a: Action)
    requires ResumeInv(env.hash, e, d) && Enabled(env, d, a) && a.ReceiverTask?
    ensures var d' := Do(env, d, a);
      SameErrand(e, d') && GoodFiles(e, d'.r.files) && GoodTickets(e, d'.r) && d'.h.restarts == d.h.restarts
  {
    WorkMeansMoving(env.hash, d);
    ReceiveKeepsTickets(env, e, d, a);
    var job, offset := d.h.job.value, AgreedOffset(d);
    hide Do, Moving, Inv, SameErrand, GoodFiles, GoodTickets;
    match a.receive {
      case StartReceive => StartKeepsGood(env, e, d, job, offset);
      case WriteDisk(n) => WriteKeepsGood(env, e, d, n, job, offset);
      case Answer => AnswerKeepsGood(env, e, d, job, offset);
      case _ =>
    }
  }

  lemma StartKeepsGood(env: Env, e: Errand, d: Direction, job: Job, offset: nat)
    requires ResumeInv(env.hash, e, d) && Enabled(env, d, ReceiverTask(StartReceive)) &&
      Moving(env.hash, d, job, offset) && d.h.job == Some(job)
    ensures GoodFiles(e, Do(env, d, ReceiverTask(StartReceive)).r.files)
  {
    hide Inv, SenderMoves, HashTravels, Queued, Written;
    PathsDiffer(e);
  }

  lemma WriteKeepsGood(env: Env, e: Errand, d: Direction, n: nat, job: Job, offset: nat)
    requires ResumeInv(env.hash, e, d) && Enabled(env, d, ReceiverTask(WriteDisk(n))) &&
      Moving(env.hash, d, job, offset) && d.h.job == Some(job)
    ensures GoodFiles(e, Do(env, d, ReceiverTask(WriteDisk(n))).r.files)
  {
    hide Inv, Moving, Do, Enabled, Works, Queued, WriteAt, Target, GoodFiles, GoodTicket;
    WriterFacts(env, d, n, job, offset);
    var t := d.r.task;
    var content := Lookup(d.r.files, Target(t.ticket)).value;
    DoWriteDisk(env, d, n, content);
    QueueLess(job, offset, t.received, t.queue, t.position, t.hashed, n);
    QueuedWithin(job, offset, t.received, t.queue, t.position, t.hashed);
    AppendToFile(content, job, offset, t.position, t.queue[0][..n]);
    GoodAfterWrite(e, d.r.files, t.ticket, content, t.position, t.queue[0][..n]);
  }

  lemma GoodAfterWrite(e: Errand, files: map<string, Bytes>, t: Ticket, content: Bytes, position: nat, data: Bytes)
    requires GoodFiles(e, files) && GoodTicket(e, t) && Lookup(files, Target(t)) == Some(content)
    requires t.offset <= position == |content| && data != [] && position + |data| <= |e.content|
    requires data == e.content[position..position + |data|]
    ensures GoodFiles(e, files[Target(t) := content + data])
  {
    PathsDiffer(e);
    assert Target(t) == if Large(e) then PartOf(e) else DestOf(e);
    hide PartOf, DestOf;
    LongerPrefix(content, e.content, position, data);
  }

  lemma LongerPrefix(content: Bytes, whole: Bytes, position: nat, data: Bytes)
    requires IsPrefix(content, whole) && |content| == position && position + |data| <= |whole|
    requires data == whole[position..position + |data|]
    ensures IsPrefix(content + data, whole)
  {
    Join(whole, 0, position, position + |data|);
  }

  /** The remaining steps leave the receiver's files alone. */
  lemma OthersKeepGood(env: Env, e: Errand, d: Direction, a: Action)
    requires ResumeInv(env.hash, e, d) && Enabled(env, d, a) && ForErrand(e, Step(a)) && Meeting(d, a).None?
    requires !a.ReceiverTask? && !a.DeliverUp?
    ensures var d' := Do(env, d, a);
      SameErrand(e, d') && GoodFiles(e, d'.r.files) && GoodTickets(e, d'.r) && d'.h.restarts == 0
  {
    hide GoodFiles, Inv, HandleAccept, GoodTickets, SameErrand;
    if a.DeliverDown? {
      assert d.down != [];
      NoRestartAhead(env.hash, d);
      DeliveryKeepsGood(env, e, d);
    } else {
      AsideKeepsGood(env, e, d, a);
    }
  }

  /** Offers, acceptances ahead of an offer, rejections and the send task do not concern the receiver's files. */
  lemma AsideKeepsGood(env: Env, e: Errand, d: Direction, a: Action)
    requires SameErrand(e, d) && GoodFiles(e, d.r.files) && GoodTickets(e, d.r) && d.h.restarts == 0
    requires Enabled(env, d, a) && ForErrand(e, Step(a)) && Meeting(d, a).None?
    requires a.OfferFile? || a.AcceptOffer? || a.RejectOffer? || a.SenderTask?
    ensures var d' := Do(env, d, a);
      SameErrand(e, d') && GoodFiles(e, d'.r.files) && GoodTickets(e, d'.r) && d'.h.restarts == 0
  {
    hide GoodFiles, HandleAccept, GoodTicket;
  }

  lemma DeliveryKeepsGood(env: Env, e: Errand, d: Direction)
    requires SameErrand(e, d) && GoodFiles(e, d.r.files) && GoodTickets(e, d.r) && d.h.restarts == 0
    requires Enabled(env, d, DeliverDown) && Meeting(d, DeliverDown).None? && d.down[0] != RestartFromZero
    ensures var d' := Do(env, d, DeliverDown);
      SameErrand(e, d') && GoodFiles(e, d'.r.files) && GoodTickets(e, d'.r) && d'.h.restarts == 0
  {
    hide GoodFiles, HandleAccept;
  }

  lemma KeepResume(env: Env, e: Errand, d: Direction, ev: Event)
    requires ResumeInv(env.hash, e, d) && ForErrand(e, ev) && Possible(env, d, ev)
    ensures ResumeInv(env.hash, e, Happen(env, d, ev))
  {
    hide Inv, GoodFiles;
    if ev.Kill? {
      Establish(env.hash, d.r.files);
    } else {
      var a := ev.action;
      Keep(env, d, a);
      if Meeting(d, a).Some? {
        MeetingKeepsGood(env, e, d, a);
      } else if a.ReceiverTask? {
        ReceiveKeepsGood(env, e, d, a);
      } else if a.DeliverUp? {
        NeverRefused(env, e, d);
      } else {
        OthersKeepGood(env, e, d, a);
      }
    }
  }

  lemma {:induction false} AlwaysResume(env: Env, e: Errand, d: Direction, events: seq<Event>)
    requires ResumeInv(env.hash, e, d) && Unfolds(env, e, d, events)
    ensures ResumeInv(env.hash, e, Outcome(env, e, d, events))
    decreases |events|
  {
    hide ResumeInv, Happen, Possible, ForErrand;
    if events != [] {
      KeepResume(env, e, d, events[0]);
      AlwaysResume(env, e, Happen(env, d, events[0]), events[1..]);
    }
  }

  /** Neither the destination nor its part file exists when the first attempt starts. */
  predicate CleanStart(e: Errand, files: map<string, Bytes>) {
    PartOf(e) !in files && DestOf(e) !in files
  }

  /**
    After any number of kills and restarts: the part file is a prefix of the
    source, the fingerprint check has refused nothing, and when the answer is
    OK the destination is the source, with or without a checksum.
  */
  lemma ResumableTransfer(env: Env, e: Errand, files: map<string, Bytes>, events: seq<Event>)
    requires CleanStart(e, files) && Unfolds(env, e, Fresh(files), events)
    ensures var d := Outcome(env, e, Fresh(files), events);
      (PartOf(e) in d.r.files ==> IsPrefix(d.r.files[PartOf(e)], e.content)) &&
      d.h.restarts == 0 &&
      (d.up != [] && d.up[0] == ReceivedFileOk ==> Lookup(d.r.files, DestOf(e)) == Some(e.content))
  {
    hide Unfolds, Outcome, Do, Inv;
    Establish(env.hash, files);
    assert ResumeInv(env.hash, e, Fresh(files));
    AlwaysResume(env, e, Fresh(files), events);
    var d := Outcome(env, e, Fresh(files), events);
    if d.up != [] && d.up[0] == ReceivedFileOk {
      OkNeedsJob(env.hash, d);
      OkMeansSource(env.hash, e, d, d.h.job.value);
    }
  }

  lemma OkNeedsJob(hash: Hasher, d: Direction)
    requires Inv(hash, d) && d.up != [] && d.up[0] == ReceivedFileOk
    ensures d.h.job.Some? && Complete(hash, d, d.h.job.value)
  {
    hide SenderMoves, ReceiverMoves, Complete;
  }

  lemma OkMeansSource(hash: Hasher, e: Errand, d: Direction, job: Job)
    requires Complete(hash, d, job) && SameErrand(e, d) && GoodFiles(e, d.r.files) && d.h.job == Some(job)
    ensures Lookup(d.r.files, DestOf(e)) == Some(e.content)
  {
    assert e.content[..|e.content|] == e.content;
  }

  /** A staged or small file that has arrived in full has the digest of the source. */
  lemma AnswerIsOk(env: Env, e: Errand, d: Direction, job: Job, offset: nat)
    requires ResumeInv(env.hash, e, d) && Enabled(env, d, ReceiverTask(Answer))
    requires Moving(env.hash, d, job, offset) && d.h.job == Some(job)
    ensures !Do(env, d, ReceiverTask(Answer)).r.task.Stopped?
  {
    hide Do, Enabled, Moving, Inv, Committed, Fits, Untouched;
    JudgeFacts(env, d, job, offset);
    DoAnswer(env, d);
    var t := d.r.task.ticket;
    assert d.r.files[Target(t)] == job.content by {
      PathsDiffer(e);
      assert IsPrefix(d.r.files[Target(t)], e.content);
    }
  }

  /** As long as no step fails, the receive task does not give up. */
  lemma StaysUnbroken(env: Env, e: Errand, d: Direction, ev: Event)
    requires ResumeInv(env.hash, e, d) && ForErrand(e, ev) && Possible(env, d, ev)
    requires !d.r.task.Stopped? && ev != Step(ReceiverTask(Fail))
    ensures !Happen(env, d, ev).r.task.Stopped?
  {
    assert ev == Step(ReceiverTask(Answer)) ==> d.r.task.Judging?;
    hide ResumeInv, Do, Enabled;
    if ev == Step(ReceiverTask(Answer)) {
      assert Inv(env.hash, d) by { ResumeMeansInv(env.hash, e, d); }
      WorkMeansMoving(env.hash, d);
      AnswerIsOk(env, e, d, d.h.job.value, AgreedOffset(d));
    } else if ev.Step? {
      OthersGoOn(env, d, ev.action);
    }
  }

  /** Only an answer and a failure can end the receive task. */
  lemma OthersGoOn(env: Env, d: Direction, a: Action)
    requires Enabled(env, d, a) && a != ReceiverTask(Answer) && a != ReceiverTask(Fail)
    ensures Do(env, d, a).r.task.Stopped? ==> d.r.task.Stopped?
  {
    hide CanSend, Send, AlignedOffset, PrefixHash, OnSenderMessage, OpenTarget, WriteAt;
  }

  lemma ResumeMeansInv(hash: Hasher, e: Errand, d: Direction)
    requires ResumeInv(hash, e, d)
    ensures Inv(hash, d)
  {
    hide Inv;
  }

  lemma {:induction false} AlwaysUnbroken(env: Env, e: Errand, d: Direction, events: seq<Event>)
    requires ResumeInv(env.hash, e, d) && Unfolds(env, e, d, events) && Step(ReceiverTask(Fail)) !in events
    requires !d.r.task.Stopped?
    ensures ResumeInv(env.hash, e, Outcome(env, e, d, events)) && !Outcome(env, e, d, events).r.task.Stopped?
    decreases |events|
  {
    hide ResumeInv, Happen, Possible, ForErrand;
    if events != [] {
      KeepResume(env, e, d, events[0]);
      StaysUnbroken(env, e, d, events[0]);
      AlwaysUnbroken(env, e, Happen(env, d, events[0]), events[1..]);
    }
  }

  /**
    From a clean start, after any number of kills and restarts, nothing is ever
    answered FAILED as long as no step of the receive task fails.
  */
  lemma NeverAnsweredFailed(env: Env, e: Errand, files: map<string, Bytes>, events: seq<Event>)
    requires CleanStart(e, files) && Unfolds(env, e, Fresh(files), events) && Step(ReceiverTask(Fail)) !in events
    ensures var d := Outcome(env, e, Fresh(files), events);
      !d.r.task.Stopped? && ReceivedFileFailed !in d.up
  {
    hide Unfolds, Outcome, Do, Inv;
    Establish(env.hash, files);
    assert ResumeInv(env.hash, e, Fresh(files)) by { FreshIsGood(env.hash, e, files); }
    AlwaysUnbroken(env, e, Fresh(files), events);
    var d := Outcome(env, e, Fresh(files), events);
    if ReceivedFileFailed in d.up {
      FailedMeansStopped(env.hash, d);
    }
  }

  lemma FailedMeansStopped(hash: Hasher, d: Direction)
    requires Inv(hash, d) && ReceivedFileFailed in d.up
    ensures d.r.task.Stopped?
  {
    hide SenderMoves, ReceiverMoves, Complete;
  }

  /** The ticket that an acceptance has just issued. */
  function Issued(r: Receiver): Option<Ticket> {
    if r.parked.Some? then r.parked else if r.triggers != [] then Some(r.triggers[0]) else None
  }

  /**
    Each attempt at a file of 20 MiB or more re-sends less than one 2 MiB
    chunk of what is already stored: it starts less than a chunk before the end
    of the part file, and at the end of the file when the destination is already
    complete. Smaller files are never staged and always start at 0.
  */
  lemma LittleIsResent(env: Env, e: Errand, files: map<string, Bytes>, events: seq<Event>, a: Action)
    requires CleanStart(e, files) && Unfolds(env, e, Fresh(files), events)
    requires var d := Outcome(env, e, Fresh(files), events);
      Enabled(env, d, a) && ForErrand(e, Step(a)) && Meeting(d, a).Some?
    ensures var d := Outcome(env, e, Fresh(files), events);
      var d' := Do(env, d, a);
      Issued(d'.r).Some? && var offset := Issued(d'.r).value.offset;
      var dest := e.dir + "/" + e.name;
      var part := dest + ".quic-part";
      if |e.content| < 20971520 then offset == 0 && part !in d.r.files
      else if part in d.r.files then offset <= |d.r.files[part]| < offset + 2097152
      else if dest in d.r.files then offset == |e.content|
      else offset == 0
  {
    hide Unfolds, Outcome, Inv, GoodFiles, HandleAccept;
    Establish(env.hash, files);
    assert ResumeInv(env.hash, e, Fresh(files)) by { FreshIsGood(env.hash, e, files); }
    AlwaysResume(env, e, Fresh(files), events);
    var d := Outcome(env, e, Fresh(files), events);
    Meetings(env, d, a);
    var (accept, offer) := Meeting(d, a).value;
    var r := d.r.(accept := None, offered := None, offeredResume := true);
    assert r == (if a.AcceptOffer? then d.r.(offered := None)
                 else d.r.(accept := None, offered := None, offeredResume := d.down[0].resume));
    assert Do(env, d, a).r == HandleAccept(env.hash, r, accept, offer).state;
    OffsetIssued(env.hash, e, r, accept);
  }

  lemma FreshIsGood(hash: Hasher, e: Errand, files: map<string, Bytes>)
    requires CleanStart(e, files) && Inv(hash, Fresh(files))
    ensures ResumeInv(hash, e, Fresh(files))
  {
    hide Inv;
  }

  lemma OffsetIssued(hash: Hasher, e: Errand, r: Receiver, accept: Accept)
    requires GoodFiles(e, r.files) && r.offeredResume && accept.resume && accept.dir == e.dir
    requires r.parked.None? && r.triggers == []
    ensures var issued := Issued(HandleAccept(hash, r, accept, Offer(e.name, |e.content|)).state);
      issued.Some? && var offset := issued.value.offset;
      if !Large(e) then offset == 0 && PartOf(e) !in r.files
      else if PartOf(e) in r.files then offset <= |r.files[PartOf(e)]| < offset + FILE_CHUNK_SIZE
      else if DestOf(e) in r.files then offset == |e.content|
      else offset == 0
  {
    PathsDiffer(e);
  }
}
