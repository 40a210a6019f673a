/** What holds when both peers send and receive at once, with pause and resume in between. */
module DuplexTheorems {
  import opened Common
  import opened ControlMessages
  import opened Coordination
  import opened Tasks
  import opened Transfer
  import opened TransferInvariant
  import opened TransferSafety
  import opened TransferProgress
  import D = Duplex

  type Step = (D.Side, D.PeerAction)

  // ---- integrity with both sides sending ----------------------------------

  /**
    Whichever peer sends, and whatever the other one is sending meanwhile:
    when RECEIVED_FILE:OK reaches the sending half and both sides asked for a
    checksum, the partner's destination is the source.
  */
  lemma BothWaysDelivered(env: Env, filesA: map<string, Bytes>, filesB: map<string, Bytes>, steps: seq<Step>,
                          side: D.Side, job: Job)
    requires Unforged(env.hash, job.content) && D.Unfolds(env, D.Connected(filesA, filesB), steps)
    requires var w := D.Turn(D.Outcome(env, D.Connected(filesA, filesB), steps), side);
      w.hab.job == Some(job) && D.Only(w.ba, ForSender) != [] && D.Only(w.ba, ForSender)[0] == ReceivedFileOk
    ensures var w := D.Turn(D.Outcome(env, D.Connected(filesA, filesB), steps), side);
      w.hab.accept.Some? &&
      (job.checksum && w.hab.accept.value.checksum ==>
        Lookup(w.b.r.files, DestPath(w.hab.accept.value.dir, job.name)) == Some(job.content))
  {
    var w0 := D.Connected(filesA, filesB);
    var files := if side.A? then filesB else filesA;
    var actions := D.LaneRun(env, w0, steps, side);
    assert D.Lane(D.Turn(w0, side)) == Fresh(files);
    DeliveredIsSource(env, files, actions, job);
  }

  /** Both directions keep their invariant in every reachable state of the two peers. */
  lemma BothInvariant(env: Env, filesA: map<string, Bytes>, filesB: map<string, Bytes>, steps: seq<Step>, side: D.Side)
    requires D.Unfolds(env, D.Connected(filesA, filesB), steps)
    ensures Inv(env.hash, D.Lane(D.Turn(D.Outcome(env, D.Connected(filesA, filesB), steps), side)))
  {
    hide Inv;
    var w0 := D.Connected(filesA, filesB);
    var files := if side.A? then filesB else filesA;
    var actions := D.LaneRun(env, w0, steps, side);
    assert D.Lane(D.Turn(w0, side)) == Fresh(files);
    Establish(env.hash, files);
    Always(env, Fresh(files), actions);
  }

  // ---- pause and resume ---------------------------------------------------

  predicate AboutPause(m: ControlMessage) {
    m.Pause? || m.Resume?
  }

  predicate PauseAction(w: D.World, x: D.PeerAction) {
    x == D.Issue(PauseCommand) || x == D.Issue(ResumeCommand) || (x.Hear? && w.ba != [] && AboutPause(w.ba[0]))
  }

  /** Pausing and resuming, at either end, changes no file, no stream and no transfer state in either direction. */
  lemma PauseIsTransparent(env: Env, w: D.World, x: D.PeerAction)
    requires D.Can(env, w, x) && PauseAction(w, x)
    ensures var w' := D.Act(env, w, x);
      D.Lane(w') == D.Lane(w) && D.Lane(D.Swap(w')) == D.Lane(D.Swap(w)) && w'.fab == w.fab && w'.fba == w.fba &&
      w'.a.r.files == w.a.r.files && w'.b == w.b
  {
    D.Projection(env, w, x);
  }

  /** The flag after all queued messages have been heard. */
  function PauseAfter(flag: bool, q: seq<ControlMessage>): bool
    decreases |q|
  {
    if q == [] then flag
    else PauseAfter(if q[0].Pause? then true else if q[0].Resume? then false else flag, q[1..])
  }

  lemma {:induction false} PauseAfterAppend(flag: bool, q: seq<ControlMessage>, sent: seq<ControlMessage>)
    ensures PauseAfter(flag, q + sent) == PauseAfter(PauseAfter(flag, q), sent)
    decreases |q|
  {
    if q == [] {
      assert q + sent == sent;
    } else {
      assert (q + sent)[0] == q[0] && (q + sent)[1..] == q[1..] + sent;
      PauseAfterAppend(if q[0].Pause? then true else if q[0].Resume? then false else flag, q[1..], sent);
    }
  }

  lemma {:induction false} PauseAfterSilence(flag: bool, sent: seq<ControlMessage>)
    requires NoneAboutPause(sent)
    ensures PauseAfter(flag, sent) == flag
  {
    if sent != [] {
      PauseAfterSilence(flag, sent[1..]);
    }
  }

  predicate NoneAboutPause(q: seq<ControlMessage>) {
    forall i :: 0 <= i < |q| ==> !AboutPause(q[i])
  }

  /** What one action does to the mover's flag and queue. */
  lemma ActOnPause(env: Env, w: D.World, x: D.PeerAction)
    requires D.Can(env, w, x)
    ensures var w' := D.Act(env, w, x);
      w'.b == w.b && |w.ab| <= |w'.ab| && w'.ab[..|w.ab|] == w.ab &&
      var sent := w'.ab[|w.ab|..];
      (if x == D.Issue(PauseCommand) then w'.a.paused && sent == [Pause]
       else if x == D.Issue(ResumeCommand) then !w'.a.paused && sent == [Resume]
       else NoneAboutPause(sent)) &&
      (if x.Hear? then w'.ba == w.ba[1..] && w'.a.paused == PauseAfter(w.a.paused, [w.ba[0]]) else w'.ba == w.ba) &&
      (!x.Hear? && x != D.Issue(PauseCommand) && x != D.Issue(ResumeCommand) ==> w'.a.paused == w.a.paused)
  {
    SentWithoutPause(env, w, x);
    hide HandleAccept, Send, Receive, OnSenderMessage, OnReceiverMessage;
    assert x.Hear? ==>
      PauseAfter(w.a.paused, [w.ba[0]]) == (w.ba[0].Pause? || (!w.ba[0].Resume? && w.a.paused));
  }

  function SentBy(env: Env, w: D.World, x: D.PeerAction): seq<ControlMessage>
    requires D.Can(env, w, x)
  {
    match x
    case Issue(command) => OnCommand(env.hash, w.a, command).sent
    case Hear => OnMessage(env.hash, w.a, w.ba[0]).sent
    case RunSender(step) => Send(env.hash, w.a.s, w.fab, env.window, step).sent
    case RunReceiver(step) => Receive(env.hash, w.a.r, w.fba, step).sent
  }

  lemma SentWithoutPause(env: Env, w: D.World, x: D.PeerAction)
    requires D.Can(env, w, x)
    ensures x != D.Issue(PauseCommand) && x != D.Issue(ResumeCommand) ==> NoneAboutPause(SentBy(env, w, x))
    ensures D.Act(env, w, x).ab == w.ab + SentBy(env, w, x)
  {
    if x != D.Issue(PauseCommand) && x != D.Issue(ResumeCommand) {
      SentIsAddressed(env, w, x);
    }
    hide Send, Receive, OnCommand, OnMessage, D.Noted;
  }

  lemma SentIsAddressed(env: Env, w: D.World, x: D.PeerAction)
    requires D.Can(env, w, x) && x != D.Issue(PauseCommand) && x != D.Issue(ResumeCommand)
    ensures Addressed(SentBy(env, w, x))
  {
    var m := if x.Hear? then w.ba[0] else Ready;
    var a := if x.Issue? && x.command.AcceptFileCommand? then x.command.accept else Accept("", false, false);
    D.SpeaksToPartner(env.hash, w.a.s, w.a.r, m, a, Offer("", 0));
    hide HandleAccept, OnSenderMessage, OnReceiverMessage, AcceptFile, D.Noted, WriteAt, OpenTarget, HashOk;
  }

  /** Only peer `a` issues pause and resume. */
  predicate OnlyAPauses(steps: seq<Step>) {
    forall i :: 0 <= i < |steps| && steps[i].0.B? ==>
      steps[i].1 != D.Issue(PauseCommand) && steps[i].1 != D.Issue(ResumeCommand)
  }

  /** Peer `a`'s last pause or resume command, or `flag` if it gave none. */
  function LastFlag(flag: bool, steps: seq<Step>): bool
    decreases |steps|
  {
    if steps == [] then flag else LastFlag(FlagAfter(flag, steps[0]), steps[1..])
  }

  function FlagAfter(flag: bool, step: Step): bool {
    if step == (D.A, D.Issue(PauseCommand)) then true
    else if step == (D.A, D.Issue(ResumeCommand)) then false
    else flag
  }

  predicate PauseInv(w: D.World) {
    PauseAfter(w.b.paused, w.ab) == w.a.paused && NoneAboutPause(w.ba)
  }

  lemma KeepPauseA(env: Env, w: D.World, x: D.PeerAction)
    requires PauseInv(w) && D.Can(env, w, x)
    ensures var w' := D.Act(env, w, x); PauseInv(w') && w'.a.paused == FlagAfter(w.a.paused, (D.A, x))
  {
    ActOnPause(env, w, x);
    assert x.Hear? ==> w.ba != [];
    hide D.Act, D.Can, PauseAfter;
    var w' := D.Act(env, w, x);
    var sent := w'.ab[|w.ab|..];
    assert w'.ab == w.ab + sent;
    PauseAfterAppend(w.b.paused, w.ab, sent);
    if NoneAboutPause(sent) {
      PauseAfterSilence(w.a.paused, sent);
    } else {
      assert PauseAfter(w.a.paused, sent) == w'.a.paused by { OnePause(w.a.paused, sent[0]); }
    }
    if x.Hear? { PauseAfterSilence(w.a.paused, [w.ba[0]]); }
  }

  lemma OnePause(flag: bool, m: ControlMessage)
    ensures PauseAfter(flag, [m]) == if m.Pause? then true else if m.Resume? then false else flag
  {
    assert [m][1..] == [];
  }

  lemma KeepPauseB(env: Env, w: D.World, x: D.PeerAction)
    requires PauseInv(w) && D.Can(env, D.Swap(w), x) && x != D.Issue(PauseCommand) && x != D.Issue(ResumeCommand)
    ensures var w' := D.Swap(D.Act(env, D.Swap(w), x)); PauseInv(w') && w'.a.paused == w.a.paused
  {
    var v := D.Swap(w);
    ActOnPause(env, v, x);
    assert x.Hear? ==> w.ab != [];
    hide D.Act, D.Can, PauseAfter;
    var v' := D.Act(env, v, x);
    assert v'.ab == v.ab + v'.ab[|v.ab|..];
    if x.Hear? {
      assert w.ab == [w.ab[0]] + w.ab[1..];
      PauseAfterAppend(w.b.paused, [w.ab[0]], w.ab[1..]);
    }
  }

  lemma KeepPause(env: Env, w: D.World, step: Step)
    requires PauseInv(w) && D.Possible(env, w, step) && OnlyAPauses([step])
    ensures var w' := D.Next(env, w, step); PauseInv(w') && w'.a.paused == FlagAfter(w.a.paused, step)
  {
    hide D.Act, D.Can, PauseInv;
    assert [step][0] == step;
    if step.0.A? { KeepPauseA(env, w, step.1); } else { KeepPauseB(env, w, step.1); }
  }

  /**
    When one side alone pauses and resumes, its own flag is its last command,
    and the partner's flag is the same as soon as the queue towards it has
    drained.
  */
  lemma {:induction false} PauseAgreement(env: Env, w: D.World, steps: seq<Step>)
    requires PauseInv(w) && D.Unfolds(env, w, steps) && OnlyAPauses(steps)
    ensures var w' := D.Outcome(env, w, steps);
      PauseInv(w') && w'.a.paused == LastFlag(w.a.paused, steps) && (w'.ab == [] ==> w'.b.paused == w'.a.paused)
    decreases |steps|
  {
    hide D.Next, D.Possible;
    if steps != [] {
      KeepPause(env, w, steps[0]);
      PauseAgreement(env, D.Next(env, w, steps[0]), steps[1..]);
    }
  }

  lemma PauseAgreementFromStart(env: Env, filesA: map<string, Bytes>, filesB: map<string, Bytes>, steps: seq<Step>)
    requires D.Unfolds(env, D.Connected(filesA, filesB), steps) && OnlyAPauses(steps)
    ensures var w := D.Outcome(env, D.Connected(filesA, filesB), steps);
      w.a.paused == LastFlag(false, steps) && (w.ab == [] ==> w.b.paused == LastFlag(false, steps))
  {
    PauseAgreement(env, D.Connected(filesA, filesB), steps);
  }

  // ---- progress of both directions together -------------------------------

  /** No pause, no cancellation: every queued message is a step of one direction. */
  predicate Undisturbed(w: D.World) {
    !w.a.paused && !w.b.paused && !w.a.cancelled && !w.b.cancelled && Addressed(w.ab) && Addressed(w.ba)
  }

  predicate Addressed(q: seq<ControlMessage>) {
    forall i :: 0 <= i < |q| ==> ForSender(q[i]) || ForReceiver(q[i])
  }

  predicate ProductiveStep(w: D.World, step: Step) {
    var v := D.Turn(w, step.0);
    var (out, into) := (D.Outgoing(v, step.1), D.Incoming(v, step.1));
    (out.Some? || into.Some?) &&
    (out.Some? ==> Productive(D.Lane(v), out.value)) && (into.Some? ==> Productive(D.Lane(D.Swap(v)), into.value))
  }

  ghost predicate BothInv(env: Env, w: D.World) {
    Inv(env.hash, D.Lane(w)) && Inv(env.hash, D.Lane(D.Swap(w)))
  }

  /** The step of the two peers that takes the next step of the direction in which `a` sends. */
  function LaneStep(w: D.World): Step {
    match NextAction(D.Lane(w))
    case DeliverUp => (D.A, D.Hear)
    case DeliverDown => (D.B, D.Hear)
    case SenderTask(step) => (D.A, D.RunSender(step))
    case ReceiverTask(step) => (D.B, D.RunReceiver(step))
    case _ => (D.B, D.Issue(RejectFileCommand))
  }

  /** While a direction is unfinished, some productive step is possible, whatever the other direction is doing. */
  lemma WorldNoDeadlock(env: Env, w: D.World)
    requires BothInv(env, w) && Undisturbed(w) && env.window >= 1 && !Final(D.Lane(w))
    ensures D.Possible(env, w, LaneStep(w)) && ProductiveStep(w, LaneStep(w))
  {
    hide Inv, Final;
    NoDeadlock(env, D.Lane(w));
    hide CanSend, CanReceive;
  }

  function TotalWeight(w: D.World): int {
    Weight(D.Lane(w)) + Weight(D.Lane(D.Swap(w)))
  }

  lemma ProductiveNeedsJob(env: Env, d: Direction, a: Action)
    requires Inv(env.hash, d) && Enabled(env, d, a) && Productive(d, a)
    ensures d.h.job.Some?
  {
    if d.h.job.None? {
      QuietWithoutJob(env.hash, d);
      NothingProductiveWhenQuiet(env, d, a);
    }
  }

  /** Every productive step of either peer lowers the weight of the two directions together. */
  lemma WorldLowers(env: Env, w: D.World, step: Step)
    requires BothInv(env, w) && D.Possible(env, w, step) && ProductiveStep(w, step)
    ensures TotalWeight(D.Next(env, w, step)) < TotalWeight(w) && BothInv(env, D.Next(env, w, step))
  {
    hide Inv, Weight, D.Lane, Productive, Enabled, Do;
    var v := D.Turn(w, step.0);
    D.Projection(env, v, step.1);
    hide D.Act, D.Can;
    var (out, into) := (D.Outgoing(v, step.1), D.Incoming(v, step.1));
    hide D.Outgoing, D.Incoming;
    if out.Some? {
      ProductiveNeedsJob(env, D.Lane(v), out.value);
      Lowers(env, D.Lane(v), out.value);
      Keep(env, D.Lane(v), out.value);
    }
    if into.Some? {
      ProductiveNeedsJob(env, D.Lane(D.Swap(v)), into.value);
      Lowers(env, D.Lane(D.Swap(v)), into.value);
      Keep(env, D.Lane(D.Swap(v)), into.value);
    }
  }

  ghost predicate ProductiveRun(env: Env, w: D.World, steps: seq<Step>)
    requires D.Unfolds(env, w, steps)
    decreases |steps|
  {
    steps == [] || (ProductiveStep(w, steps[0]) && ProductiveRun(env, D.Next(env, w, steps[0]), steps[1..]))
  }

  /** So no run of productive steps is longer than the weight it starts with. */
  lemma {:induction false} WorldRunsEnd(env: Env, w: D.World, steps: seq<Step>)
    requires BothInv(env, w) && D.Unfolds(env, w, steps) && ProductiveRun(env, w, steps)
    ensures |steps| <= TotalWeight(w)
    decreases |steps|
  {
    hide D.Next, D.Possible, ProductiveStep, Inv, Weight;
    if steps == [] {
      WeightIsNatural(env.hash, D.Lane(w));
      WeightIsNatural(env.hash, D.Lane(D.Swap(w)));
    } else {
      WorldLowers(env, w, steps[0]);
      WorldRunsEnd(env, D.Next(env, w, steps[0]), steps[1..]);
    }
  }

  // ---- runs that nothing disturbs -----------------------------------------

  /** No pause or resume is issued, and no FAILED is heard, which would cancel the peer that hears it. */
  predicate Undisturbing(w: D.World, step: Step) {
    var v := D.Turn(w, step.0);
    step.1 != D.Issue(PauseCommand) && step.1 != D.Issue(ResumeCommand) &&
    (step.1.Hear? && v.ba != [] ==> !v.ba[0].ReceivedFileFailed?)
  }

  ghost predicate UndisturbedRun(env: Env, w: D.World, steps: seq<Step>)
    requires D.Unfolds(env, w, steps)
    decreases |steps|
  {
    steps == [] || (Undisturbing(w, steps[0]) && UndisturbedRun(env, D.Next(env, w, steps[0]), steps[1..]))
  }

  /** What an action does to the flags and queues of both peers. */
  lemma ActOnFlags(env: Env, w: D.World, x: D.PeerAction)
    requires D.Can(env, w, x) && Undisturbing(w, (D.A, x)) && Addressed(w.ba)
    ensures var w' := D.Act(env, w, x);
      w'.b == w.b && w'.a.paused == w.a.paused && w'.a.cancelled == w.a.cancelled &&
      w'.ab == w.ab + SentBy(env, w, x) && (w'.ba == w.ba || (w.ba != [] && w'.ba == w.ba[1..]))
  {
    hide HandleAccept, OnSenderMessage, OnReceiverMessage, AcceptFile, Send, Receive;
  }

  lemma StaysUndisturbed(env: Env, w: D.World, step: Step)
    requires Undisturbed(w) && D.Possible(env, w, step) && Undisturbing(w, step)
    ensures Undisturbed(D.Next(env, w, step))
  {
    hide D.Act, D.Can, SentBy;
    var v := D.Turn(w, step.0);
    ActOnFlags(env, v, step.1);
    SentIsAddressed(env, v, step.1);
  }

  /** Without pauses and without a heard FAILED, every reachable state is undisturbed. */
  lemma {:induction false} AlwaysUndisturbed(env: Env, w: D.World, steps: seq<Step>)
    requires Undisturbed(w) && D.Unfolds(env, w, steps) && UndisturbedRun(env, w, steps)
    ensures Undisturbed(D.Outcome(env, w, steps))
    decreases |steps|
  {
    hide D.Next, D.Possible, Undisturbing, Undisturbed;
    if steps != [] {
      StaysUndisturbed(env, w, steps[0]);
      AlwaysUndisturbed(env, D.Next(env, w, steps[0]), steps[1..]);
    }
  }

  /** The step with the peers exchanged. */
  function Flip(step: Step): Step {
    (if step.0.A? then D.B else D.A, step.1)
  }

  lemma FlippedStep(env: Env, w: D.World, step: Step)
    ensures D.Possible(env, D.Swap(w), step) == D.Possible(env, w, Flip(step))
    ensures ProductiveStep(D.Swap(w), step) == ProductiveStep(w, Flip(step))
  {
    assert D.Swap(D.Swap(w)) == w;
    hide D.Can, D.Incoming, D.Outgoing, D.Lane, Productive;
  }

  /** No productive step of either peer is left. */
  ghost predicate Stuck(env: Env, w: D.World) {
    forall step :: D.Possible(env, w, step) ==> !ProductiveStep(w, step)
  }

  /** An accepted offer was answered once, a rejected one not at all. */
  predicate AnsweredOnce(d: Direction) {
    d.h.answers == if d.h.accept.Some? then 1 else 0
  }

  lemma StuckIsFinal(env: Env, w: D.World)
    requires BothInv(env, w) && Undisturbed(w) && env.window >= 1 && Stuck(env, w)
    ensures Final(D.Lane(w)) && Final(D.Lane(D.Swap(w)))
  {
    hide Final, Inv, D.Possible, ProductiveStep, LaneStep;
    var v := D.Swap(w);
    assert D.Swap(v) == w;
    assert Undisturbed(v);
    if !Final(D.Lane(w)) {
      WorldNoDeadlock(env, w);
    }
    FlippedStep(env, w, LaneStep(v));
    if !Final(D.Lane(v)) {
      WorldNoDeadlock(env, v);
    }
  }

  /**
    However two connected peers interleave their work, without pauses and
    without a heard FAILED: where no productive step is left, both directions
    are final, and every accepted offer has been answered exactly once. With
    `WorldRunsEnd`, which bounds the productive steps, both offers get there.
  */
  lemma WorldFinishes(env: Env, filesA: map<string, Bytes>, filesB: map<string, Bytes>, steps: seq<Step>)
    requires env.window >= 1 && D.Unfolds(env, D.Connected(filesA, filesB), steps)
    requires UndisturbedRun(env, D.Connected(filesA, filesB), steps)
    ensures var w := D.Outcome(env, D.Connected(filesA, filesB), steps);
      Undisturbed(w) &&
      (Stuck(env, w) ==>
        Final(D.Lane(w)) && Final(D.Lane(D.Swap(w))) && AnsweredOnce(D.Lane(w)) && AnsweredOnce(D.Lane(D.Swap(w))))
  {
    hide D.Next, D.Possible, D.Unfolds, D.Outcome, UndisturbedRun, Stuck, Final, Inv, D.Lane;
    var w0 := D.Connected(filesA, filesB);
    var w := D.Outcome(env, w0, steps);
    AlwaysUndisturbed(env, w0, steps);
    BothInvariant(env, filesA, filesB, steps, D.A);
    BothInvariant(env, filesA, filesB, steps, D.B);
    if Stuck(env, w) {
      StuckIsFinal(env, w);
      FinalAnswers(env.hash, D.Lane(w));
      FinalAnswers(env.hash, D.Lane(D.Swap(w)));
    }
  }
}
