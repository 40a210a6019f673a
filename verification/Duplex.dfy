/**
  Two peers running the same program against each other, each able to send
  and to receive at the same time. The control queue of each peer carries the
  messages of both directions and of pause and resume, in one FIFO. The main
  result is that every run of the two peers is, seen from either direction, a
  run of that direction alone.
*/
module Duplex {
  import opened Common
  import opened ControlMessages
  import opened Coordination
  import opened Tasks
  import opened Transfer

  datatype World = World(
    a: Peer,
    b: Peer,
    ab: seq<ControlMessage>,
    ba: seq<ControlMessage>,
    fab: Bytes,
    fba: Bytes,
    hab: History,
    hba: History)

  datatype Side = A | B

  datatype PeerAction =
    | Issue(command: Command)
    | Hear
    | RunSender(send: SendStep)
    | RunReceiver(receive: ReceiveStep)

  function Connected(filesA: map<string, Bytes>, filesB: map<string, Bytes>): World {
    World(Peer(Fresh(filesA).s, Fresh(filesA).r, false, false),
          Peer(Fresh(filesB).s, Fresh(filesB).r, false, false),
          [], [], [], [], NoHistory, NoHistory)
  }

  /** The same world with the roles of the two peers exchanged. */
  function Swap(w: World): World {
    World(w.b, w.a, w.ba, w.ab, w.fba, w.fab, w.hba, w.hab)
  }

  function Turn(w: World, side: Side): World {
    if side.A? then w else Swap(w)
  }

  /** The messages of a queue that are addressed to one half of the peer, in order. */
  function Only(q: seq<ControlMessage>, role: ControlMessage -> bool): seq<ControlMessage> {
    if q == [] then []
    else if role(q[0]) then [q[0]] + Only(q[1..], role)
    else Only(q[1..], role)
  }

  /** The direction in which peer `a` sends. */
  function Lane(w: World): Direction {
    Direction(w.a.s, w.b.r, Only(w.ab, ForReceiver), Only(w.ba, ForSender), w.fab, w.hab)
  }

  // ---- what peer a can do -------------------------------------------------

  /** The pause flag holds back taking up a chunk for the stream and reading from the stream. */
  predicate Can(env: Env, w: World, x: PeerAction) {
    match x
    case Issue(SendFileCommand(_)) => !w.a.cancelled && w.hab.job.None?
    case Issue(AcceptFileCommand(_)) => !w.a.cancelled && w.a.r.accept.None?
    case Issue(RejectFileCommand) => !w.a.cancelled && w.a.r.offered.Some?
    case Issue(_) => !w.a.cancelled
    case Hear => !w.a.cancelled && w.ba != []
    case RunSender(step) =>
      CanSend(w.a.s, w.fab, env.window, step) && (step.TakeChunk? ==> !w.a.paused)
    case RunReceiver(step) =>
      CanReceive(w.a.r, w.fba, step) && (step.ReadStream? ==> !w.a.paused)
  }

  /** The step that an action of peer `a` is for the direction in which it sends. */
  function Outgoing(w: World, x: PeerAction): Option<Action> {
    match x
    case Issue(SendFileCommand(job)) => Some(OfferFile(job))
    case Hear => if w.ba != [] && ForSender(w.ba[0]) then Some(DeliverUp) else None
    case RunSender(step) => Some(SenderTask(step))
    case _ => None
  }

  /** The step that an action of peer `a` is for the direction in which it receives. */
  function Incoming(w: World, x: PeerAction): Option<Action> {
    match x
    case Issue(AcceptFileCommand(accept)) => Some(AcceptOffer(accept))
    case Issue(RejectFileCommand) => Some(RejectOffer)
    case Hear => if w.ba != [] && ForReceiver(w.ba[0]) then Some(DeliverDown) else None
    case RunReceiver(step) => Some(ReceiverTask(step))
    case _ => None
  }

  /** History variables follow the direction they belong to. */
  function Noted(env: Env, d: Direction, a: Option<Action>): History {
    if a.Some? && Enabled(env, d, a.value) then Do(env, d, a.value).h else d.h
  }

  function Act(env: Env, w: World, x: PeerAction): World
    requires Can(env, w, x)
  {
    var hab := Noted(env, Lane(w), Outgoing(w, x));
    var hba := Noted(env, Lane(Swap(w)), Incoming(w, x));
    match x
    case Issue(command) =>
      var out := OnCommand(env.hash, w.a, command);
      w.(a := out.state, ab := w.ab + out.sent, hab := hab, hba := hba)
    case Hear =>
      var out := OnMessage(env.hash, w.a, w.ba[0]);
      w.(a := out.state, ab := w.ab + out.sent, ba := w.ba[1..], hab := hab, hba := hba)
    case RunSender(step) =>
      var m := Send(env.hash, w.a.s, w.fab, env.window, step);
      w.(a := w.a.(s := m.state), fab := m.stream, ab := w.ab + m.sent, hab := hab, hba := hba)
    case RunReceiver(step) =>
      var m := Receive(env.hash, w.a.r, w.fba, step);
      w.(a := w.a.(r := m.state), fba := m.stream, ab := w.ab + m.sent, hab := hab, hba := hba)
  }

  // ---- runs of both peers -------------------------------------------------

  predicate Possible(env: Env, w: World, step: (Side, PeerAction)) {
    Can(env, Turn(w, step.0), step.1)
  }

  function Next(env: Env, w: World, step: (Side, PeerAction)): World
    requires Possible(env, w, step)
  {
    Turn(Act(env, Turn(w, step.0), step.1), step.0)
  }

  ghost predicate Unfolds(env: Env, w: World, steps: seq<(Side, PeerAction)>)
    decreases |steps|
  {
    steps == [] || (Possible(env, w, steps[0]) && Unfolds(env, Next(env, w, steps[0]), steps[1..]))
  }

  ghost function Outcome(env: Env, w: World, steps: seq<(Side, PeerAction)>): World
    requires Unfolds(env, w, steps)
    decreases |steps|
  {
    if steps == [] then w else Outcome(env, Next(env, w, steps[0]), steps[1..])
  }

  // ---- queues seen from one direction -------------------------------------

  lemma {:induction false} OnlyAppend(q: seq<ControlMessage>, sent: seq<ControlMessage>, role: ControlMessage -> bool)
    ensures Only(q + sent, role) == Only(q, role) + Only(sent, role)
  {
    if q == [] {
      assert q + sent == sent;
    } else {
      assert (q + sent)[0] == q[0] && (q + sent)[1..] == q[1..] + sent;
      OnlyAppend(q[1..], sent, role);
    }
  }

  predicate AllFor(sent: seq<ControlMessage>, role: ControlMessage -> bool) {
    forall i :: 0 <= i < |sent| ==> role(sent[i])
  }

  lemma {:induction false} OnlyAll(sent: seq<ControlMessage>, role: ControlMessage -> bool)
    requires AllFor(sent, role)
    ensures Only(sent, role) == sent
  {
    if sent != [] {
      OnlyAll(sent[1..], role);
    }
  }

  lemma {:induction false} OnlyNone(sent: seq<ControlMessage>, role: ControlMessage -> bool)
    requires forall i :: 0 <= i < |sent| ==> !role(sent[i])
    ensures Only(sent, role) == []
  {
    if sent != [] {
      OnlyNone(sent[1..], role);
    }
  }

  /** Queueing messages for the partner's receiving half is invisible to its sending half, and adds to the lane. */
  lemma Queueing(q: seq<ControlMessage>, sent: seq<ControlMessage>, role: ControlMessage -> bool,
                 other: ControlMessage -> bool)
    requires AllFor(sent, role) && forall m :: role(m) ==> !other(m)
    ensures Only(q + sent, role) == Only(q, role) + sent && Only(q + sent, other) == Only(q, other)
  {
    OnlyAppend(q, sent, role);
    OnlyAppend(q, sent, other);
    OnlyAll(sent, role);
    OnlyNone(sent, other);
    assert Only(q, other) + [] == Only(q, other);
  }

  /** Each half of a peer speaks to the other half of its partner only. */
  lemma SpeaksToPartner(hash: Hasher, s: Sender, r: Receiver, m: ControlMessage, a: Accept, o: Offer)
    ensures AllFor(OnSenderMessage(hash, s, m).sent, ForReceiver)
    ensures AllFor(HandleAccept(hash, r, a, o).sent, ForSender)
    ensures AllFor(OnReceiverMessage(hash, r, m).sent, ForSender)
    ensures AllFor(AcceptFile(hash, r, a).sent, ForSender)
  {
    AcceptSpeaksToSender(hash, r.(offered := None), a, if r.offered.Some? then r.offered.value else o);
    AcceptSpeaksToSender(hash, r, a, o);
    if m.Metadata? && r.accept.Some? {
      AcceptSpeaksToSender(hash, r.(accept := None, offered := None, offeredResume := m.resume), r.accept.value,
                           Offer(m.fileName, m.fileSize));
    }
    hide HandleAccept, PrefixHash;
  }

  lemma AcceptSpeaksToSender(hash: Hasher, r: Receiver, a: Accept, o: Offer)
    ensures AllFor(HandleAccept(hash, r, a, o).sent, ForSender)
  {
    hide PrefixHash, AlignedOffset, PartPath, DestPath;
  }

  lemma TaskSpeaksToSender(hash: Hasher, r: Receiver, stream: Bytes, step: ReceiveStep)
    requires CanReceive(r, stream, step)
    ensures AllFor(Receive(hash, r, stream, step).sent, ForSender)
  {
  }

  lemma TaskSpeaksToReceiver(env: Env, s: Sender, stream: Bytes, step: SendStep)
    requires CanSend(s, stream, env.window, step)
    ensures AllFor(Send(env.hash, s, stream, env.window, step).sent, ForReceiver)
  {
  }

  // ---- projection ---------------------------------------------------------

  /** `after` is `before` having taken the step `a`, or unchanged when there is none. */
  predicate Follows(env: Env, before: Direction, a: Option<Action>, after: Direction) {
    if a.None? then after == before else Enabled(env, before, a.value) && after == Do(env, before, a.value)
  }

  lemma ProjectIssue(env: Env, w: World, command: Command)
    requires Can(env, w, Issue(command))
    ensures var x := Issue(command); var w' := Act(env, w, x);
      Follows(env, Lane(w), Outgoing(w, x), Lane(w')) && Follows(env, Lane(Swap(w)), Incoming(w, x), Lane(Swap(w')))
  {
    if command.SendFileCommand? {
      ProjectSendFile(env, w, command.job);
    } else if command.PauseCommand? || command.ResumeCommand? {
      ProjectPause(env, w, command);
    } else {
      ProjectAnswer(env, w, command);
    }
  }

  lemma ProjectSendFile(env: Env, w: World, job: Job)
    requires Can(env, w, Issue(SendFileCommand(job)))
    ensures var x := Issue(SendFileCommand(job)); var w' := Act(env, w, x);
      Follows(env, Lane(w), Some(OfferFile(job)), Lane(w')) && Lane(Swap(w')) == Lane(Swap(w))
  {
    hide Only;
    Queueing(w.ab, SendFile(w.a.s, job).sent, ForReceiver, ForSender);
  }

  lemma ProjectPause(env: Env, w: World, command: Command)
    requires Can(env, w, Issue(command)) && (command.PauseCommand? || command.ResumeCommand?)
    ensures var w' := Act(env, w, Issue(command)); Lane(w') == Lane(w) && Lane(Swap(w')) == Lane(Swap(w))
  {
    hide Only;
    var sent := OnCommand(env.hash, w.a, command).sent;
    OnlyNone(sent, ForSender);
    OnlyNone(sent, ForReceiver);
    OnlyAppend(w.ab, sent, ForSender);
    OnlyAppend(w.ab, sent, ForReceiver);
    assert forall q: seq<ControlMessage> :: q + [] == q;
  }

  lemma ProjectAnswer(env: Env, w: World, command: Command)
    requires Can(env, w, Issue(command)) && (command.AcceptFileCommand? || command.RejectFileCommand?)
    ensures var x := Issue(command); var w' := Act(env, w, x);
      Lane(w') == Lane(w) && Follows(env, Lane(Swap(w)), Incoming(w, x), Lane(Swap(w')))
  {
    hide Only, HandleAccept, AcceptFile, Meeting;
    var sent := OnCommand(env.hash, w.a, command).sent;
    if command.AcceptFileCommand? {
      SpeaksToPartner(env.hash, w.a.s, w.a.r, Ready, command.accept, Offer("", 0));
    }
    Queueing(w.ab, sent, ForSender, ForReceiver);
  }

  lemma Head(q: seq<ControlMessage>, role: ControlMessage -> bool)
    requires q != []
    ensures if role(q[0]) then Only(q, role) == [q[0]] + Only(q[1..], role) else Only(q, role) == Only(q[1..], role)
  {
  }

  lemma ProjectHearSender(env: Env, w: World)
    requires Can(env, w, Hear) && ForSender(w.ba[0])
    ensures var w' := Act(env, w, Hear);
      Follows(env, Lane(w), Some(DeliverUp), Lane(w')) && Lane(Swap(w')) == Lane(Swap(w))
  {
    hide Only, OnSenderMessage, AllFor, Settled;
    var m := w.ba[0];
    var out := OnSenderMessage(env.hash, w.a.s, m);
    Head(w.ba, ForSender);
    Head(w.ba, ForReceiver);
    SpeaksToPartner(env.hash, w.a.s, w.a.r, m, Accept("", false, false), Offer("", 0));
    Queueing(w.ab, out.sent, ForReceiver, ForSender);
  }

  lemma ProjectHearReceiver(env: Env, w: World)
    requires Can(env, w, Hear) && ForReceiver(w.ba[0])
    ensures var w' := Act(env, w, Hear);
      Follows(env, Lane(Swap(w)), Some(DeliverDown), Lane(Swap(w'))) && Lane(w') == Lane(w)
  {
    hide Only, OnReceiverMessage, AllFor, Met;
    var m := w.ba[0];
    var out := OnReceiverMessage(env.hash, w.a.r, m);
    Head(w.ba, ForSender);
    Head(w.ba, ForReceiver);
    SpeaksToPartner(env.hash, w.a.s, w.a.r, m, Accept("", false, false), Offer("", 0));
    Queueing(w.ab, out.sent, ForSender, ForReceiver);
  }

  lemma ProjectSender(env: Env, w: World, step: SendStep)
    requires Can(env, w, RunSender(step))
    ensures var w' := Act(env, w, RunSender(step));
      Follows(env, Lane(w), Some(SenderTask(step)), Lane(w')) && Lane(Swap(w')) == Lane(Swap(w))
  {
    hide Send, CanSend;
    TaskSpeaksToReceiver(env, w.a.s, w.fab, step);
    Queueing(w.ab, Send(env.hash, w.a.s, w.fab, env.window, step).sent, ForReceiver, ForSender);
    hide Only;
  }

  lemma ProjectReceiver(env: Env, w: World, step: ReceiveStep)
    requires Can(env, w, RunReceiver(step))
    ensures var w' := Act(env, w, RunReceiver(step));
      Follows(env, Lane(Swap(w)), Some(ReceiverTask(step)), Lane(Swap(w'))) && Lane(w') == Lane(w)
  {
    hide Receive, CanReceive;
    TaskSpeaksToSender(env.hash, w.a.r, w.fba, step);
    Queueing(w.ab, Receive(env.hash, w.a.r, w.fba, step).sent, ForSender, ForReceiver);
    hide Only;
  }

  /**
    Every action of a peer is one step of the direction it concerns and leaves
    the other direction as it is; an action on the pause flag is a step of
    neither.
  */
  lemma Projection(env: Env, w: World, x: PeerAction)
    requires Can(env, w, x)
    ensures var w' := Act(env, w, x);
      Follows(env, Lane(w), Outgoing(w, x), Lane(w')) && Follows(env, Lane(Swap(w)), Incoming(w, x), Lane(Swap(w')))
  {
    match x {
      case Issue(command) => ProjectIssue(env, w, command);
      case Hear =>
        if ForSender(w.ba[0]) {
          ProjectHearSender(env, w);
        } else if ForReceiver(w.ba[0]) {
          ProjectHearReceiver(env, w);
        } else {
          Head(w.ba, ForSender);
          Head(w.ba, ForReceiver);
          OnlyAppend(w.ab, [], ForSender);
          OnlyAppend(w.ab, [], ForReceiver);
        }
      case RunSender(step) => ProjectSender(env, w, step);
      case RunReceiver(step) => ProjectReceiver(env, w, step);
    }
  }

  /** Seen from one direction, a run of both peers is a run of that direction. */
  lemma {:induction false} LaneRun(env: Env, w: World, steps: seq<(Side, PeerAction)>, side: Side)
    returns (actions: seq<Action>)
    requires Unfolds(env, w, steps)
    ensures Runs(env, Lane(Turn(w, side)), actions)
    ensures After(env, Lane(Turn(w, side)), actions) == Lane(Turn(Outcome(env, w, steps), side))
    decreases |steps|
  {
    if steps == [] {
      actions := [];
    } else {
      var (mover, x) := steps[0];
      var w' := Next(env, w, steps[0]);
      Projection(env, Turn(w, mover), x);
      var rest := LaneRun(env, w', steps[1..], side);
      var step := if mover == side then Outgoing(Turn(w, mover), x) else Incoming(Turn(w, mover), x);
      assert Follows(env, Lane(Turn(w, side)), step, Lane(Turn(w', side)));
      hide Act, Can, Lane, Do, Enabled, Outgoing, Incoming;
      actions := if step.Some? then [step.value] + rest else rest;
    }
  }
}
