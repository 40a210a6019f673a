/**
  Staged commit of files of 20 MiB or more: the destination keeps its old
  content until it is replaced by the complete file. This holds of every
  acceptance but one kind, and of that kind it fails.
*/
module TransferCommit {
  import opened Common
  import opened ControlMessages
  import opened Coordination
  import opened Tasks
  import opened Transfer
  import opened TransferInvariant
  import R = TransferResume

  /**
    Both sides want to resume, there is no part file, and the destination has
    the announced size but another fingerprint than the source.
  */
  predicate RestartsInPlace(hash: Hasher, h: History, job: Job) {
    h.accept.Some? && job.resume && h.accept.value.resume && |job.content| >= RESUME_THRESHOLD_BYTES &&
    h.part.None? && h.before.Some? && |h.before.value| == |job.content| &&
    PrefixHash(hash, h.before.value) != PrefixHash(hash, job.content)
  }

  /** A refusal without a part file is a refusal of the destination. */
  predicate Reasoned(hash: Hasher, d: Direction) {
    d.h.job.Some? && d.h.restarts >= 1 && d.h.part.None? ==> RestartsInPlace(hash, d.h, d.h.job.value)
  }

  /** What is recorded of an acceptance changes only when an offer and an acceptance meet. */
  lemma RecordStays(env: Env, d: Direction, a: Action)
    requires Enabled(env, d, a) && !a.OfferFile? && Meeting(d, a).None?
    ensures var h := Do(env, d, a).h;
      h.accept == d.h.accept && h.before == d.h.before && h.part == d.h.part && (h.job == d.h.job || h.job.None?)
    ensures !a.DeliverUp? ==> Do(env, d, a).h.restarts == d.h.restarts
  {
    hide HandleAccept, Send, Receive, CanSend, CanReceive;
  }

  lemma RefusalHasReason(env: Env, d: Direction)
    requires Inv(env.hash, d) && Reasoned(env.hash, d) && d.up != []
    ensures Reasoned(env.hash, Do(env, d, DeliverUp))
  {
    hide Inv, PrefixHash;
    if d.up[0].ResumeReady? && d.s.pending.Some? {
      R.AskedWhenResumeReady(env.hash, d);
    }
  }

  lemma KeepReasoned(env: Env, d: Direction, a: Action)
    requires Inv(env.hash, d) && Reasoned(env.hash, d) && Enabled(env, d, a)
    ensures Reasoned(env.hash, Do(env, d, a))
  {
    if a.DeliverUp? {
      RefusalHasReason(env, d);
    } else if Meeting(d, a).Some? {
      R.Meetings(env, d, a);
      hide HandleAccept, Inv;
    } else if !a.OfferFile? {
      RecordStays(env, d, a);
      hide Do, Enabled, Inv;
    }
  }

  lemma {:induction false} AlwaysReasoned(env: Env, d: Direction, actions: seq<Action>)
    requires Inv(env.hash, d) && Reasoned(env.hash, d) && Runs(env, d, actions)
    ensures Inv(env.hash, After(env, d, actions)) && Reasoned(env.hash, After(env, d, actions))
    decreases |actions|
  {
    hide Do, Enabled, Inv, Reasoned;
    if actions != [] {
      Keep(env, d, actions[0]);
      KeepReasoned(env, d, actions[0]);
      AlwaysReasoned(env, Do(env, d, actions[0]), actions[1..]);
    }
  }

  lemma StartsReasoned(hash: Hasher, files: map<string, Bytes>)
    ensures Inv(hash, Fresh(files)) && Reasoned(hash, Fresh(files))
  {
  }

  // ---- when the destination is kept ----------------------------------------

  /** The destination is what it was at the acceptance `h`, or the complete file that was answered OK. */
  predicate Kept(hash: Hasher, d: Direction, h: History, job: Job) {
    h.accept.Some? &&
    (Lookup(d.r.files, DestPath(h.accept.value.dir, job.name)) == h.before ||
     (d.up == [ReceivedFileOk] && Complete(hash, d, job)))
  }

  /** The ticket of a transfer that may write to the destination as it goes. */
  predicate WritesInPlace(h: History) {
    h.ticket.Some? && !Spares(h.ticket.value) && h.part.None? && h.restarts == 1
  }

  lemma KeptUnlessInPlace(hash: Hasher, d: Direction, job: Job)
    requires InTransfer(hash, d, job) && d.h.accept.Some? && |job.content| >= RESUME_THRESHOLD_BYTES
    ensures Kept(hash, d, d.h, job) || WritesInPlace(d.h)
  {
    hide SenderMoves, Written, Staged, HashTravels, Queued, OnDisk, Complete;
  }

  /**
    Whatever the interleaving: the destination of a file of 20 MiB or more is
    what it was when the offer was accepted until it is the complete file that
    was answered OK, unless the acceptance restarts in place.
  */
  lemma StagedCommit(env: Env, files: map<string, Bytes>, actions: seq<Action>, job: Job)
    requires Runs(env, Fresh(files), actions) && |job.content| >= RESUME_THRESHOLD_BYTES
    requires var d := After(env, Fresh(files), actions);
      d.h.job == Some(job) && d.h.accept.Some? && !RestartsInPlace(env.hash, d.h, job)
    ensures var d := After(env, Fresh(files), actions); Kept(env.hash, d, d.h, job)
  {
    hide Runs, After;
    StartsReasoned(env.hash, files);
    AlwaysReasoned(env, Fresh(files), actions);
    var d := After(env, Fresh(files), actions);
    hide InTransfer, Kept;
    KeptUnlessInPlace(env.hash, d, job);
  }

  // ---- when it is not --------------------------------------------------------

  const REFUSAL: seq<Action> := [DeliverUp, DeliverDown, ReceiverTask(StartReceive)]

  /** The refused destination is emptied before a new byte has arrived, and an empty part file appears. */
  lemma RefusedIsEmptied(env: Env, d: Direction, job: Job)
    requires Asked(env.hash, d, job) && d.h.job == Some(job) && RestartsInPlace(env.hash, d.h, job)
    ensures Runs(env, d, REFUSAL)
    ensures var d' := After(env, d, REFUSAL);
      d'.h.job == Some(job) && Lookup(d'.r.files, Dest(d, job)) == Some([]) &&
      Lookup(d'.r.files, PartPath(Dest(d, job))) == Some([]) && !Kept(env.hash, d', d.h, job)
  {
    var t := d.r.parked.value;
    assert t.dest == Dest(d, job) && !t.usePart;
    assert |PartPath(t.dest)| != |t.dest|;
    Refusing(env, d, job, t);
  }

  lemma Refusing(env: Env, d: Direction, job: Job, t: Ticket)
    requires Asked(env.hash, d, job) && d.h.job == Some(job) && d.r.parked == Some(t) && !t.usePart
    requires PrefixHash(env.hash, d.r.files[t.dest]) != PrefixHash(env.hash, job.content)
    ensures Runs(env, d, REFUSAL)
    ensures var d' := After(env, d, REFUSAL);
      d'.h.job == Some(job) && d'.r.files == d.r.files[PartPath(t.dest) := []][t.dest := []] && d'.up == [Ready]
  {
    hide Fits, Staged, Untouched, PrefixHash;
    var d1 := Do(env, d, DeliverUp);
    assert d1.r == d.r && d1.up == [] && d1.down == [RestartFromZero] && d1.h.job == Some(job);
    var d2 := Do(env, d1, DeliverDown);
    assert d2.r.triggers == [t.(offset := 0)] && d2.up == [Ready] && d2.h.job == Some(job);
    assert d2.r.files == d.r.files[PartPath(t.dest) := []] && d2.r.task.RecvIdle?;
    hide Asked;
    var d3 := Do(env, d2, ReceiverTask(StartReceive));
    assert d3.r.files == d2.r.files[t.dest := []] && d3.up == [Ready] && d3.h.job == Some(job);
    hide Do, Enabled;
    assert REFUSAL[1..][0] == DeliverDown && REFUSAL[1..][1..] == [ReceiverTask(StartReceive)];
  }

  /** An acceptance of that kind asks whether the destination may be kept. */
  lemma InPlaceAsks(env: Env, d: Direction, a: Action, job: Job)
    requires Inv(env.hash, d) && d.h.job == Some(job) && Enabled(env, d, a) && Meeting(d, a).Some?
    requires RestartsInPlace(env.hash, Do(env, d, a).h, job)
    ensures var d' := Do(env, d, a); d'.h.job == Some(job) && Asked(env.hash, d', job)
  {
    hide Inv;
    R.Meetings(env, d, a);
    var (accept, offer) := Meeting(d, a).value;
    KeepMeeting(env, d, a, job, accept);
    var r := d.r.(accept := None, offered := None, offeredResume := job.resume);
    InPlaceParks(env.hash, r, accept, offer);
    assert Do(env, d, a).r == HandleAccept(env.hash, r, accept, offer).state;
    assert Do(env, d, a).down == [];
  }

  lemma InPlaceParks(hash: Hasher, r: Receiver, a: Accept, o: Offer)
    requires o.size >= RESUME_THRESHOLD_BYTES && r.offeredResume && a.resume
    requires var dest := DestPath(a.dir, o.name);
      PartPath(dest) !in r.files && dest in r.files && |r.files[dest]| == o.size
    ensures HandleAccept(hash, r, a, o).state.parked.Some?
  {
  }

  // ---- both directions ---------------------------------------------------------

  /** No new offer is made. */
  predicate SameOffer(actions: seq<Action>) {
    forall i :: 0 <= i < |actions| ==> !actions[i].OfferFile?
  }

  lemma {:induction false} OfferStays(env: Env, d: Direction, actions: seq<Action>)
    requires Inv(env.hash, d) && Runs(env, d, actions) && SameOffer(actions) && (d.h.job.Some? ==> d.h.accept.Some?)
    ensures var h := After(env, d, actions).h;
      h.accept == d.h.accept && h.before == d.h.before && h.part == d.h.part && (h.job == d.h.job || h.job.None?)
    decreases |actions|
  {
    hide Inv, Do, Enabled;
    if actions != [] {
      R.Meetings(env, d, actions[0]);
      RecordStays(env, d, actions[0]);
      Keep(env, d, actions[0]);
      assert SameOffer(actions[1..]);
      OfferStays(env, Do(env, d, actions[0]), actions[1..]);
    }
  }

  /** Whatever happens from `d` on, the destination is kept as long as the offer is not settled. */
  ghost predicate AlwaysKept(env: Env, d: Direction, job: Job) {
    forall more | Runs(env, d, more) && SameOffer(more) ::
      After(env, d, more).h.job.Some? ==> Kept(env.hash, After(env, d, more), d.h, job)
  }

  lemma AcceptedNow(env: Env, d: Direction, a: Action, job: Job)
    requires Inv(env.hash, d) && d.h.job == Some(job) && Enabled(env, d, a) && Meeting(d, a).Some?
    ensures var h := Do(env, d, a).h; h.accept.Some? && h.job == Some(job)
  {
    hide Inv, HandleAccept;
    R.Meetings(env, d, a);
  }

  lemma KeptLater(hash: Hasher, d: Direction, d': Direction, job: Job)
    requires Inv(hash, d') && Reasoned(hash, d') && d.h.accept.Some? && d'.h.job == Some(job)
    requires d'.h.accept == d.h.accept && d'.h.before == d.h.before && d'.h.part == d.h.part
    requires |job.content| >= RESUME_THRESHOLD_BYTES && !RestartsInPlace(hash, d.h, job)
    ensures Kept(hash, d', d.h, job)
  {
    hide InTransfer, Complete;
    KeptUnlessInPlace(hash, d', job);
  }

  /**
    An acceptance of a file of 20 MiB or more commits in one step, in every
    continuation, if and only if it does not restart in place.
  */
  lemma StagedExactly(env: Env, files: map<string, Bytes>, actions: seq<Action>, a: Action, job: Job)
    requires Runs(env, Fresh(files), actions) && |job.content| >= RESUME_THRESHOLD_BYTES
    requires var d := After(env, Fresh(files), actions);
      d.h.job == Some(job) && Enabled(env, d, a) && Meeting(d, a).Some?
    ensures var d := Do(env, After(env, Fresh(files), actions), a);
      AlwaysKept(env, d, job) <==> !RestartsInPlace(env.hash, d.h, job)
  {
    hide Runs, After, Inv, Reasoned;
    StartsReasoned(env.hash, files);
    AlwaysReasoned(env, Fresh(files), actions);
    var d0 := After(env, Fresh(files), actions);
    Keep(env, d0, a);
    KeepReasoned(env, d0, a);
    R.Meetings(env, d0, a);
    AcceptedNow(env, d0, a, job);
    var d := Do(env, d0, a);
    hide Do, Enabled, Kept, RestartsInPlace, Asked;
    if RestartsInPlace(env.hash, d.h, job) {
      InPlaceAsks(env, d0, a, job);
      RefusedIsEmptied(env, d, job);
      assert SameOffer(REFUSAL);
    } else {
      forall more | Runs(env, d, more) && SameOffer(more) && After(env, d, more).h.job.Some?
        ensures Kept(env.hash, After(env, d, more), d.h, job)
      {
        OfferStays(env, d, more);
        AlwaysReasoned(env, d, more);
        KeptLater(env.hash, d, After(env, d, more), job);
      }
    }
  }

  // ---- the failing input --------------------------------------------------------

  lemma {:induction false} RunsOn(env: Env, d: Direction, first: seq<Action>, more: seq<Action>)
    requires Runs(env, d, first) && Runs(env, After(env, d, first), more)
    ensures Runs(env, d, first + more) && After(env, d, first + more) == After(env, After(env, d, first), more)
    decreases |first|
  {
    hide Do, Enabled;
    if first == [] {
      assert first + more == more;
    } else {
      assert (first + more)[0] == first[0] && (first + more)[1..] == first[1..] + more;
      RunsOn(env, Do(env, d, first[0]), first[1..], more);
    }
  }

  lemma RunsOne(env: Env, d: Direction, a: Action)
    requires Enabled(env, d, a)
    ensures Runs(env, d, [a]) && After(env, d, [a]) == Do(env, d, a)
  {
    hide Do, Enabled;
    assert [a][1..] == [];
    assert Runs(env, Do(env, d, a), []) && After(env, Do(env, d, a), []) == Do(env, d, a);
  }

  function Offering(job: Job): seq<Action> {
    [OfferFile(job), DeliverDown]
  }

  lemma Offers(env: Env, files: map<string, Bytes>, job: Job)
    ensures Runs(env, Fresh(files), Offering(job))
    ensures var d := After(env, Fresh(files), Offering(job));
      Waiting(d, job) && d.h.job == Some(job) && d.r.files == files
  {
    var d0 := Fresh(files);
    var d1 := Do(env, d0, OfferFile(job));
    assert d1 == d0.(s := Sender(Some(job), [], SendIdle), h := NoHistory.(job := Some(job)),
                     down := [Metadata(job.name, |job.content|, job.resume, job.checksum)]);
    var d2 := Do(env, d1, DeliverDown);
    assert d2 == d1.(r := d0.r.(offered := Some(Offer(job.name, |job.content|)), offeredResume := job.resume),
                     down := []);
    assert Enabled(env, d0, OfferFile(job)) && Enabled(env, d1, DeliverDown);
    hide Do, Enabled;
    assert Offering(job)[1..] == [DeliverDown] && [DeliverDown][1..] == [];
    assert Runs(env, d1, [DeliverDown]) && After(env, d1, [DeliverDown]) == d2;
  }

  /**
    A file of 20 MiB or more is offered and accepted with resume. There is no
    part file, and the destination has the same size and another fingerprint:
    six steps later it is empty, and nothing of the new content has arrived.
  */
  lemma OverwritesInPlace(env: Env, files: map<string, Bytes>, job: Job, accept: Accept)
    requires job.resume && accept.resume && |job.content| >= 20971520
    requires var dest := accept.dir + "/" + job.name;
      dest + ".quic-part" !in files && dest in files && |files[dest]| == |job.content| &&
      env.hash(files[dest][..65536]) != env.hash(job.content[..65536])
    ensures var actions := Offering(job) + [AcceptOffer(accept)] + REFUSAL;
      Runs(env, Fresh(files), actions) &&
      var d, dest := After(env, Fresh(files), actions), accept.dir + "/" + job.name;
      d.h.job == Some(job) && Lookup(d.r.files, dest) == Some([]) &&
      Lookup(d.r.files, dest + ".quic-part") == Some([])
  {
    var begin, a := Fresh(files), AcceptOffer(accept);
    assert PrefixHash(env.hash, files[DestPath(accept.dir, job.name)]) != PrefixHash(env.hash, job.content);
    Offers(env, files, job);
    Establish(env.hash, files);
    Always(env, begin, Offering(job));
    var d0 := After(env, begin, Offering(job));
    var d := Do(env, d0, a);
    assert RestartsInPlace(env.hash, d.h, job) && Dest(d, job) == DestPath(accept.dir, job.name) by {
      hide HandleAccept, PrefixHash;
    }
    InPlaceAsks(env, d0, a, job);
    RefusedIsEmptied(env, d, job);
    hide Do, Enabled, Waiting, Inv, RestartsInPlace, Asked, REFUSAL, PrefixHash, Offering;
    RunsOne(env, d0, a);
    RunsOn(env, begin, Offering(job), [a]);
    RunsOn(env, begin, Offering(job) + [a], REFUSAL);
  }
}
