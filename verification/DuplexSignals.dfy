/**
  Cancellation and pause over whole runs of two peers: when exactly a peer is
  cancelled or paused, told from what it has issued and heard, and what such a
  peer no longer does.
*/
module DuplexSignals {
  import opened Common
  import opened ControlMessages
  import opened Coordination
  import opened Tasks
  import opened Transfer
  import D = Duplex

  type Step = (D.Side, D.PeerAction)

  /** What a step lets the peer on `side` hear. */
  function Heard(w: D.World, step: Step, side: D.Side): Option<ControlMessage> {
    if step == (side, D.Hear) && D.Turn(w, side).ba != [] then Some(D.Turn(w, side).ba[0]) else None
  }

  /** A step seen by the peer on `side`: its own action, or an action of its partner. */
  lemma NextFor(env: Env, w: D.World, step: Step, side: D.Side)
    requires D.Possible(env, w, step)
    ensures var v := D.Turn(w, side);
      if step.0 == side then D.Can(env, v, step.1) && D.Turn(D.Next(env, w, step), side) == D.Act(env, v, step.1)
      else
        D.Can(env, D.Swap(v), step.1) &&
        D.Turn(D.Next(env, w, step), side) == D.Swap(D.Act(env, D.Swap(v), step.1))
  {
    hide D.Act, D.Can;
    assert D.Swap(D.Swap(w)) == w;
  }

  // ---- cancellation -------------------------------------------------------

  /** RECEIVED_FILE:FAILED reaches the peer on `side` somewhere in the run. */
  ghost predicate HearsFailed(env: Env, w: D.World, steps: seq<Step>, side: D.Side)
    requires D.Unfolds(env, w, steps)
    decreases |steps|
  {
    steps != [] &&
    (Heard(w, steps[0], side) == Some(ReceivedFileFailed) ||
     HearsFailed(env, D.Next(env, w, steps[0]), steps[1..], side))
  }

  lemma ActOnToken(env: Env, w: D.World, x: D.PeerAction)
    requires D.Can(env, w, x)
    ensures var w' := D.Act(env, w, x);
      w'.b.cancelled == w.b.cancelled &&
      (w'.a.cancelled <==> w.a.cancelled || Heard(w, (D.A, x), D.A) == Some(ReceivedFileFailed))
  {
    hide HandleAccept, OnSenderMessage, OnReceiverMessage, AcceptFile, Send, Receive, D.Noted;
  }

  lemma StepOnToken(env: Env, w: D.World, step: Step, side: D.Side)
    requires D.Possible(env, w, step)
    ensures D.Turn(D.Next(env, w, step), side).a.cancelled <==>
      D.Turn(w, side).a.cancelled || Heard(w, step, side) == Some(ReceivedFileFailed)
  {
    NextFor(env, w, step, side);
    hide D.Next, D.Act, D.Can;
    if step.0 == side {
      ActOnToken(env, D.Turn(w, side), step.1);
    } else {
      ActOnToken(env, D.Swap(D.Turn(w, side)), step.1);
    }
  }

  lemma {:induction false} TokenRecord(env: Env, w: D.World, steps: seq<Step>, side: D.Side)
    requires D.Unfolds(env, w, steps)
    ensures D.Turn(D.Outcome(env, w, steps), side).a.cancelled <==>
      D.Turn(w, side).a.cancelled || HearsFailed(env, w, steps, side)
    decreases |steps|
  {
    hide D.Next, D.Possible, D.Turn, Heard;
    if steps != [] {
      StepOnToken(env, w, steps[0], side);
      TokenRecord(env, D.Next(env, w, steps[0]), steps[1..], side);
    }
  }

  /** In every run from connection on, a peer is cancelled exactly when it has heard RECEIVED_FILE:FAILED. */
  lemma CancelledByFailed(env: Env, filesA: map<string, Bytes>, filesB: map<string, Bytes>, steps: seq<Step>,
                          side: D.Side)
    requires D.Unfolds(env, D.Connected(filesA, filesB), steps)
    ensures D.Turn(D.Outcome(env, D.Connected(filesA, filesB), steps), side).a.cancelled <==>
      HearsFailed(env, D.Connected(filesA, filesB), steps, side)
  {
    TokenRecord(env, D.Connected(filesA, filesB), steps, side);
  }

  /** A command or a control message that the peer on `side` takes up. */
  predicate TakesUp(step: Step, side: D.Side) {
    step.0 == side && (step.1.Issue? || step.1.Hear?)
  }

  lemma {:induction false} CancelledStaysDeaf(env: Env, w: D.World, steps: seq<Step>, side: D.Side)
    requires D.Unfolds(env, w, steps) && D.Turn(w, side).a.cancelled
    ensures forall i :: 0 <= i < |steps| ==> !TakesUp(steps[i], side)
    decreases |steps|
  {
    if steps != [] {
      NextFor(env, w, steps[0], side);
      StepOnToken(env, w, steps[0], side);
      assert !TakesUp(steps[0], side) by { hide D.Next, D.Turn; }
      hide D.Next, D.Possible, D.Turn, TakesUp;
      CancelledStaysDeaf(env, D.Next(env, w, steps[0]), steps[1..], side);
    }
  }

  lemma {:induction false} Continues(env: Env, w: D.World, first: seq<Step>, more: seq<Step>)
    requires D.Unfolds(env, w, first + more)
    ensures D.Unfolds(env, w, first) && D.Unfolds(env, D.Outcome(env, w, first), more)
    ensures D.Outcome(env, w, first + more) == D.Outcome(env, D.Outcome(env, w, first), more)
    decreases |first|
  {
    hide D.Next, D.Possible;
    if first == [] {
      assert first + more == more;
    } else {
      assert (first + more)[0] == first[0] && (first + more)[1..] == first[1..] + more;
      Continues(env, D.Next(env, w, first[0]), first[1..], more);
    }
  }

  /** Once it has, no later step of any run is a command or a control message of that peer. */
  lemma NothingAfterFailed(env: Env, filesA: map<string, Bytes>, filesB: map<string, Bytes>, first: seq<Step>,
                           more: seq<Step>, side: D.Side)
    requires D.Unfolds(env, D.Connected(filesA, filesB), first + more)
    requires D.Unfolds(env, D.Connected(filesA, filesB), first) &&
      HearsFailed(env, D.Connected(filesA, filesB), first, side)
    ensures forall i :: 0 <= i < |more| ==> !TakesUp(more[i], side)
  {
    hide D.Unfolds, D.Outcome, D.Turn, HearsFailed, TakesUp;
    var w0 := D.Connected(filesA, filesB);
    Continues(env, w0, first, more);
    CancelledByFailed(env, filesA, filesB, first, side);
    CancelledStaysDeaf(env, D.Outcome(env, w0, first), more, side);
  }

  // ---- pause --------------------------------------------------------------

  /** The flag of the peer on `side` after a step, told from what it issued or heard. */
  function FlagAfter(flag: bool, w: D.World, step: Step, side: D.Side): bool {
    if step == (side, D.Issue(PauseCommand)) || Heard(w, step, side) == Some(Pause) then true
    else if step == (side, D.Issue(ResumeCommand)) || Heard(w, step, side) == Some(Resume) then false
    else flag
  }

  ghost function LastSignal(env: Env, flag: bool, w: D.World, steps: seq<Step>, side: D.Side): bool
    requires D.Unfolds(env, w, steps)
    decreases |steps|
  {
    if steps == [] then flag
    else LastSignal(env, FlagAfter(flag, w, steps[0], side), D.Next(env, w, steps[0]), steps[1..], side)
  }

  lemma ActOnFlag(env: Env, w: D.World, x: D.PeerAction)
    requires D.Can(env, w, x)
    ensures var w' := D.Act(env, w, x);
      w'.b.paused == w.b.paused && w'.a.paused == FlagAfter(w.a.paused, w, (D.A, x), D.A)
  {
    hide HandleAccept, OnSenderMessage, OnReceiverMessage, AcceptFile, Send, Receive, D.Noted;
  }

  lemma StepOnFlag(env: Env, w: D.World, step: Step, side: D.Side)
    requires D.Possible(env, w, step)
    ensures D.Turn(D.Next(env, w, step), side).a.paused == FlagAfter(D.Turn(w, side).a.paused, w, step, side)
  {
    NextFor(env, w, step, side);
    hide D.Next, D.Act, D.Can;
    if step.0 == side {
      ActOnFlag(env, D.Turn(w, side), step.1);
    } else {
      ActOnFlag(env, D.Swap(D.Turn(w, side)), step.1);
    }
  }

  /** Whoever pauses and resumes: a peer's flag is the last signal that it issued or heard. */
  lemma {:induction false} PausedBySignal(env: Env, w: D.World, steps: seq<Step>, side: D.Side)
    requires D.Unfolds(env, w, steps)
    ensures D.Turn(D.Outcome(env, w, steps), side).a.paused ==
      LastSignal(env, D.Turn(w, side).a.paused, w, steps, side)
    decreases |steps|
  {
    hide D.Next, D.Possible, D.Turn, FlagAfter;
    if steps != [] {
      StepOnFlag(env, w, steps[0], side);
      PausedBySignal(env, D.Next(env, w, steps[0]), steps[1..], side);
    }
  }

  /** The peer on `side` takes up a chunk for the stream, or reads from the stream. */
  predicate MovesOn(step: Step, side: D.Side) {
    step.0 == side &&
    (step.1 == D.RunSender(TakeChunk) || (step.1.RunReceiver? && step.1.receive.ReadStream?))
  }

  /** Nothing in the run resumes the peer on `side`. */
  ghost predicate NeverResumed(env: Env, w: D.World, steps: seq<Step>, side: D.Side)
    requires D.Unfolds(env, w, steps)
    decreases |steps|
  {
    steps == [] ||
    (steps[0] != (side, D.Issue(ResumeCommand)) && Heard(w, steps[0], side) != Some(Resume) &&
     NeverResumed(env, D.Next(env, w, steps[0]), steps[1..], side))
  }

  /** The bytes of the chunk that the peer is writing and has not put on the stream yet. */
  function HeldBytes(p: Peer): nat {
    if p.s.task.Sending? then |p.s.task.held| else 0
  }

  /** The bytes that the peer on `side` puts on the stream in a run. */
  function BytesPut(steps: seq<Step>, side: D.Side): nat {
    if steps == [] then 0
    else
      (if steps[0].0 == side && steps[0].1.RunSender? && steps[0].1.send.WriteStream? then steps[0].1.send.n else 0) +
      BytesPut(steps[1..], side)
  }

  lemma PausedAct(env: Env, w: D.World, x: D.PeerAction)
    requires D.Can(env, w, x) && w.a.paused
    ensures var w' := D.Act(env, w, x);
      !MovesOn((D.A, x), D.A) && w'.fba == w.fba && HeldBytes(w'.a) + BytesPut([(D.A, x)], D.A) == HeldBytes(w.a)
  {
    hide HandleAccept, OnReceiverMessage, AcceptFile, D.Noted, PrefixHash, WriteAt, OpenTarget, HashOk;
    assert [(D.A, x)][1..] == [];
  }

  lemma PartnerAct(env: Env, w: D.World, x: D.PeerAction)
    requires D.Can(env, w, x)
    ensures var w' := D.Act(env, w, x); w'.b == w.b && IsPrefix(w.fab, w'.fab)
  {
    hide HandleAccept, OnSenderMessage, OnReceiverMessage, AcceptFile, Receive, D.Noted;
  }

  lemma PausedStep(env: Env, w: D.World, step: Step, side: D.Side)
    requires D.Possible(env, w, step) && D.Turn(w, side).a.paused
    ensures var v, v' := D.Turn(w, side), D.Turn(D.Next(env, w, step), side);
      !MovesOn(step, side) && IsPrefix(v.fba, v'.fba) && HeldBytes(v'.a) + BytesPut([step], side) == HeldBytes(v.a)
  {
    NextFor(env, w, step, side);
    hide D.Next, D.Act, D.Can, HeldBytes;
    assert [step][1..] == [];
    if step.0 == side {
      PausedAct(env, D.Turn(w, side), step.1);
      assert [(D.A, step.1)][1..] == [];
    } else {
      PartnerAct(env, D.Swap(D.Turn(w, side)), step.1);
    }
  }

  /**
    A paused peer that nothing resumes reads nothing more from the file stream,
    which can only grow, and takes up no further chunk: it puts on its own
    stream no more than was left of the chunk in hand.
  */
  lemma {:induction false} PausedIsStill(env: Env, w: D.World, steps: seq<Step>, side: D.Side)
    requires D.Unfolds(env, w, steps) && D.Turn(w, side).a.paused && NeverResumed(env, w, steps, side)
    ensures var v, v' := D.Turn(w, side), D.Turn(D.Outcome(env, w, steps), side);
      v'.a.paused && (forall i :: 0 <= i < |steps| ==> !MovesOn(steps[i], side)) &&
      IsPrefix(v.fba, v'.fba) && BytesPut(steps, side) + HeldBytes(v'.a) == HeldBytes(v.a)
    decreases |steps|
  {
    hide D.Possible, D.Next, D.Turn, HeldBytes, MovesOn;
    if steps != [] {
      var w1 := D.Next(env, w, steps[0]);
      PausedStep(env, w, steps[0], side);
      StepOnFlag(env, w, steps[0], side);
      PausedIsStill(env, w1, steps[1..], side);
      assert [steps[0]][1..] == [];
      PrefixChain(D.Turn(w, side).fba, D.Turn(w1, side).fba, D.Turn(D.Outcome(env, w, steps), side).fba);
    }
  }

  lemma PrefixChain(a: Bytes, b: Bytes, c: Bytes)
    requires IsPrefix(a, b) && IsPrefix(b, c)
    ensures IsPrefix(a, c)
  {
    assert c[..|a|] == c[..|b|][..|a|];
  }
}
