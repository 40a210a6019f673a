/** What every run of one direction guarantees, whatever the interleaving. */
module TransferSafety {
  import opened Common
  import opened ControlMessages
  import opened Coordination
  import opened Tasks
  import opened Transfer
  import opened TransferInvariant

  /** The rendering of a digest: 64 lower-case hexadecimal digits. */
  predicate IsHexDigest(s: string) {
    |s| == 64 && forall i :: 0 <= i < |s| ==> '0' <= s[i] <= '9' || 'a' <= s[i] <= 'f'
  }

  /** Digests are well formed, and no other content has the digest of `content`. */
  ghost predicate Unforged(hash: Hasher, content: Bytes) {
    (forall x :: IsHexDigest(hash(x))) && (forall y :: hash(y) == hash(content) ==> y == content)
  }

  /** For every content there is such a hash, so that nothing is assumed away. */
  lemma SomeHashIsUnforged(content: Bytes) returns (hash: Hasher)
    ensures Unforged(hash, content)
  {
    var zeros, ones := seq(64, _ => '0'), seq(64, _ => '1');
    assert zeros[0] != ones[0];
    hash := x => if x == content then zeros else ones;
  }

  /** Where both digests are given, the check that lets NONE and SKIP through is equality of contents. */
  lemma HashOkIsEquality(hash: Hasher, x: Bytes, y: Bytes)
    requires Unforged(hash, x)
    ensures HashOk(hash(x), hash(y)) <==> x == y
  {
    assert IsHexDigest(hash(x)) && IsHexDigest(hash(y));
    assert |hash(x)| == 64 && |hash(y)| == 64;
    if HashOk(hash(x), hash(y)) {
      assert hash(x) == hash(y);
    }
  }

  /**
    When the sender is about to process RECEIVED_FILE:OK and both sides
    asked for a checksum, the destination is the source, byte for byte,
    whatever the receiver's files held at the start. It is enough that no
    other content has the digest of the file being sent.
  */
  lemma DeliveredIsSource(env: Env, files: map<string, Bytes>, actions: seq<Action>, job: Job)
    requires Unforged(env.hash, job.content) && Runs(env, Fresh(files), actions)
    requires var d := After(env, Fresh(files), actions);
      d.h.job == Some(job) && d.up != [] && d.up[0] == ReceivedFileOk
    ensures var d := After(env, Fresh(files), actions);
      d.h.accept.Some? &&
      (job.checksum && d.h.accept.value.checksum ==>
        Lookup(d.r.files, DestPath(d.h.accept.value.dir, job.name)) == Some(job.content))
  {
    hide Runs, After;
    var d := After(env, Fresh(files), actions);
    Establish(env.hash, files);
    Always(env, Fresh(files), actions);
    OkMeansComplete(env.hash, d, job);
    if job.checksum && d.h.accept.value.checksum {
      HashOkIsEquality(env.hash, job.content, d.r.files[Dest(d, job)]);
    }
  }

  lemma JudgingMeansMoving(hash: Hasher, d: Direction, job: Job)
    requires Inv(hash, d) && d.h.job == Some(job) && d.r.task.Judging?
    ensures Moving(hash, d, job, AgreedOffset(d))
  {
    hide SenderMoves, ReceiverMoves, Complete;
  }

  /**
    The one answer to an accepted offer, unless the receive task gives up: it is
    OK exactly when one side did not ask for a checksum or the received file is
    the source, byte for byte.
  */
  lemma AnswerIsRight(env: Env, files: map<string, Bytes>, actions: seq<Action>, job: Job)
    requires Unforged(env.hash, job.content) && Runs(env, Fresh(files), actions)
    requires var d := After(env, Fresh(files), actions);
      d.h.job == Some(job) && Enabled(env, d, ReceiverTask(Answer))
    ensures var d := After(env, Fresh(files), actions);
      var received := Lookup(d.r.files, Target(d.r.task.ticket));
      d.h.accept.Some? &&
      Do(env, d, ReceiverTask(Answer)).up ==
      if job.checksum && d.h.accept.value.checksum && received != Some(job.content) then [ReceivedFileFailed]
      else [ReceivedFileOk]
  {
    hide Runs, After, Inv;
    var d := After(env, Fresh(files), actions);
    Establish(env.hash, files);
    Always(env, Fresh(files), actions);
    JudgingMeansMoving(env.hash, d, job);
    hide Do, Enabled, Moving, Committed, Target, Written, HashOk;
    JudgeFacts(env, d, job, AgreedOffset(d));
    Movements(env.hash, d, job, AgreedOffset(d));
    DoneSender(d, job, AgreedOffset(d));
    DoAnswer(env, d);
    var t := d.r.task.ticket;
    var received := d.r.files[Target(t)];
    if job.checksum && t.checksum {
      HashOkIsEquality(env.hash, job.content, received);
    } else {
      UnhashedIsOk(d.r.hashes[0], d.r.task.actual);
    }
  }

  lemma UnhashedIsOk(expected: string, actual: string)
    requires expected == "NONE" || actual == "NONE"
    ensures HashOk(expected, actual)
  {
  }

  lemma OkMeansComplete(hash: Hasher, d: Direction, job: Job)
    requires Inv(hash, d) && d.h.job == Some(job) && d.up != [] && d.up[0] == ReceivedFileOk
    ensures Complete(hash, d, job)
  {
    hide SenderMoves, ReceiverMoves, Complete;
  }

  /** Both sides start at the same offset, through READY, RESUME_OK and RESTART_FROM_ZERO alike. */
  lemma SameOffset(env: Env, files: map<string, Bytes>, actions: seq<Action>)
    requires Runs(env, Fresh(files), actions)
    ensures var d := After(env, Fresh(files), actions);
      d.h.job.Some? && d.h.sendStart.Some? && d.h.ticket.Some? ==>
        d.h.sendStart.value == d.h.ticket.value.offset <= |d.h.job.value.content|
  {
    hide Runs, After;
    Establish(env.hash, files);
    Always(env, Fresh(files), actions);
    var d := After(env, Fresh(files), actions);
    if d.h.job.Some? {
      SameOffsetNow(env.hash, d, d.h.job.value);
    }
  }

  lemma SameOffsetNow(hash: Hasher, d: Direction, job: Job)
    requires InTransfer(hash, d, job)
    ensures d.h.sendStart.Some? && d.h.ticket.Some? ==>
      d.h.sendStart.value == d.h.ticket.value.offset <= |job.content|
  {
    hide Written, Untouched, Staged, HashTravels, Queued, OnDisk;
  }

  /** FILE_SENT has been queued: it is on its way, or its text has reached the receive task. */
  predicate FileSentQueued(d: Direction) {
    d.r.hashes != [] || exists i :: 0 <= i < |d.down| && d.down[i].FileSent?
  }

  /**
    The file stream carries exactly the next bytes of the source. `put` and
    `took` count what writes have put on it and reads have taken off. Unless
    the receive task has given up, it holds the source between the two counts;
    once FILE_SENT is queued exactly `size - offset` bytes have been put on it,
    and at an OK exactly as many have been taken off. It is empty at an OK and
    between transfers, so any number of transfers one after another stay framed.
  */
  lemma Framed(env: Env, files: map<string, Bytes>, actions: seq<Action>)
    requires Runs(env, Fresh(files), actions)
    ensures var d := After(env, Fresh(files), actions);
      (d.h.job.None? ==> d.stream == []) &&
      (d.h.job.Some? ==> FramedFor(d, d.h.job.value))
  {
    hide Runs, After, FramedFor;
    Establish(env.hash, files);
    Always(env, Fresh(files), actions);
    var d := After(env, Fresh(files), actions);
    if d.h.job.Some? {
      FramedNow(env.hash, d, d.h.job.value);
    }
  }

  predicate FramedFor(d: Direction, job: Job) {
    (FileSentQueued(d) || SendDone(d) ==>
      d.h.sendStart.Some? && d.h.put == |job.content| - d.h.sendStart.value) &&
    (d.h.sendStart.Some? && !d.r.task.Stopped? ==>
      d.h.sendStart.value + d.h.took <= d.h.sendStart.value + d.h.put <= |job.content| &&
      d.stream == job.content[d.h.sendStart.value + d.h.took..d.h.sendStart.value + d.h.put]) &&
    (d.up != [] && d.up[0] == ReceivedFileOk ==>
      d.stream == [] && d.h.sendStart.Some? && d.h.took == d.h.put == |job.content| - d.h.sendStart.value)
  }

  lemma FramedNow(hash: Hasher, d: Direction, job: Job)
    requires InTransfer(hash, d, job)
    ensures FramedFor(d, job)
  {
    var offset := AgreedOffset(d);
    if Moving(hash, d, job, offset) {
      hide InTransfer, FramedFor;
      MovingIsFramed(hash, d, job, offset);
    } else if Broken(d, job, offset) {
      hide InTransfer, FramedFor;
      BrokenIsFramed(d, job, offset);
    } else {
      hide Moving, Broken, Untouched, Staged, Written, Fits;
    }
  }

  lemma MovingIsFramed(hash: Hasher, d: Direction, job: Job, offset: nat)
    requires Moving(hash, d, job, offset)
    ensures FramedFor(d, job)
  {
    hide Moving, SenderMoves, Sent, HashTravels;
    Movements(hash, d, job, offset);
    StartIsOffset(d, job, offset);
    if FileSentQueued(d) { DoneIfQueued(hash, d, job); }
    if SendDone(d) {
      DoneSender(d, job, offset);
    }
  }

  lemma DoneIfQueued(hash: Hasher, d: Direction, job: Job)
    requires HashTravels(hash, d, job) && FileSentQueued(d)
    ensures SendDone(d)
  {
    hide SenderHash;
  }

  lemma BrokenIsFramed(d: Direction, job: Job, offset: nat)
    requires Broken(d, job, offset)
    ensures FramedFor(d, job)
  {
    StartIsOffset(d, job, offset);
    hide SenderMoves, Sent, Untouched, Fits;
    if FileSentQueued(d) || SendDone(d) {
      assert SendDone(d);
      DoneSender(d, job, offset);
    }
  }

  lemma StartIsOffset(d: Direction, job: Job, offset: nat)
    requires SenderMoves(d, job, offset)
    ensures d.h.sendStart.Some? ==> d.h.sendStart.value == offset
    ensures 0 <= Sent(d, job, offset) <= |job.content|
  {
  }

  /** RESTART_FROM_ZERO is sent at most once per offer, and an offer gets at most one answer. */
  lemma OneRestartOneAnswer(env: Env, files: map<string, Bytes>, actions: seq<Action>)
    requires Runs(env, Fresh(files), actions)
    ensures var d := After(env, Fresh(files), actions);
      d.h.job.Some? ==> d.h.restarts <= 1 && d.h.answers <= 1
  {
    hide Runs, After;
    Establish(env.hash, files);
    Always(env, Fresh(files), actions);
    hide SenderMoves, Complete;
  }

  /**
    An acceptance may come before its offer, while the offer is on its way, or
    after it: in the end both are used up and the state is the same.
  */
  lemma AcceptanceInAnyOrder(env: Env, d: Direction, job: Job, accept: Accept)
    requires Inv(env.hash, d) && d.h.job.None? && d.r.accept.None?
    ensures var offer, answer := OfferFile(job), AcceptOffer(accept);
      Runs(env, d, [answer, offer, DeliverDown]) && Runs(env, d, [offer, answer, DeliverDown]) &&
      Runs(env, d, [offer, DeliverDown, answer]) &&
      var d' := After(env, d, [offer, DeliverDown, answer]);
      After(env, d, [answer, offer, DeliverDown]) == d' && After(env, d, [offer, answer, DeliverDown]) == d' &&
      d'.h.accept == Some(accept) && d'.r.accept.None? && d'.r.offered.None? &&
      (d'.r.parked.Some? || d'.r.triggers != [])
  {
    hide HandleAccept;
    MetBefore(env, d, job, accept);
    MetBetween(env, d, job, accept);
    MetAfter(env, d, job, accept);
    var r := d.r.(offeredResume := job.resume);
    AcceptOutcome(env.hash, r, accept, Offer(job.name, |job.content|));
  }

  /** The state in which offer and acceptance have met and nothing else has happened. */
  function MetState(env: Env, d: Direction, job: Job, accept: Accept): Direction {
    var offer, dest := Offer(job.name, |job.content|), DestPath(accept.dir, job.name);
    var out := HandleAccept(env.hash, d.r.(offeredResume := job.resume), accept, offer);
    d.(s := d.s.(pending := Some(job)), r := out.state, up := out.sent,
       h := NoHistory.(job := Some(job), accept := Some(accept), before := Lookup(d.r.files, dest),
                       part := Lookup(d.r.files, PartPath(dest))))
  }

  lemma MetBefore(env: Env, d: Direction, job: Job, accept: Accept)
    requires Quiet(d) && d.r.accept.None?
    ensures var run := [AcceptOffer(accept), OfferFile(job), DeliverDown];
      Runs(env, d, run) && After(env, d, run) == MetState(env, d, job, accept)
  {
    hide HandleAccept;
    var run := [AcceptOffer(accept), OfferFile(job), DeliverDown];
    var d1 := Do(env, d, run[0]);
    assert d1 == d.(r := d.r.(accept := Some(accept)));
    var d2 := Do(env, d1, run[1]);
    assert d2 == d1.(s := d.s.(pending := Some(job)), h := NoHistory.(job := Some(job)),
                     down := [Metadata(job.name, |job.content|, job.resume, job.checksum)]);
    var d3 := Do(env, d2, run[2]);
    assert d3 == MetState(env, d, job, accept);
    ThreeSteps(env, d, run[0], run[1], run[2]);
  }

  lemma MetBetween(env: Env, d: Direction, job: Job, accept: Accept)
    requires Quiet(d) && d.r.accept.None?
    ensures var run := [OfferFile(job), AcceptOffer(accept), DeliverDown];
      Runs(env, d, run) && After(env, d, run) == MetState(env, d, job, accept)
  {
    hide HandleAccept;
    var run := [OfferFile(job), AcceptOffer(accept), DeliverDown];
    var d1 := Do(env, d, run[0]);
    assert d1 == d.(s := d.s.(pending := Some(job)), h := NoHistory.(job := Some(job)),
                    down := [Metadata(job.name, |job.content|, job.resume, job.checksum)]);
    var d2 := Do(env, d1, run[1]);
    assert d2 == d1.(r := d.r.(accept := Some(accept)));
    var d3 := Do(env, d2, run[2]);
    assert d3 == MetState(env, d, job, accept);
    ThreeSteps(env, d, run[0], run[1], run[2]);
  }

  lemma MetAfter(env: Env, d: Direction, job: Job, accept: Accept)
    requires Quiet(d) && d.r.accept.None?
    ensures var run := [OfferFile(job), DeliverDown, AcceptOffer(accept)];
      Runs(env, d, run) && After(env, d, run) == MetState(env, d, job, accept)
  {
    hide HandleAccept;
    var run := [OfferFile(job), DeliverDown, AcceptOffer(accept)];
    var d1 := Do(env, d, run[0]);
    assert d1 == d.(s := d.s.(pending := Some(job)), h := NoHistory.(job := Some(job)),
                    down := [Metadata(job.name, |job.content|, job.resume, job.checksum)]);
    var d2 := Do(env, d1, run[1]);
    var offer := Offer(job.name, |job.content|);
    assert d2 == d1.(r := d.r.(offered := Some(offer), offeredResume := job.resume), down := []);
    var d3 := Do(env, d2, run[2]);
    assert d3 == MetState(env, d, job, accept);
    ThreeSteps(env, d, run[0], run[1], run[2]);
  }

  lemma ThreeSteps(env: Env, d: Direction, a: Action, b: Action, c: Action)
    requires Enabled(env, d, a) && Enabled(env, Do(env, d, a), b) && Enabled(env, Do(env, Do(env, d, a), b), c)
    ensures Runs(env, d, [a, b, c]) && After(env, d, [a, b, c]) == Do(env, Do(env, Do(env, d, a), b), c)
  {
    hide Do, Enabled;
    assert [a, b, c][1..] == [b, c] && [b, c][1..] == [c] && [c][1..] == [];
    var d2 := Do(env, Do(env, d, a), b);
    assert Runs(env, d2, [c]) && After(env, d2, [c]) == Do(env, d2, c);
  }
}
