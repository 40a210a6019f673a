/**
  One direction of a transfer as a step system: the sending half of one peer,
  the receiving half of the other, one FIFO of control messages each way, and
  the FIFO byte stream that carries file contents. Every iteration of a task
  loop and every event of a coordination loop is one step; a run interleaves
  them in any order.
*/
module Transfer {
  import opened Common
  import opened ControlMessages
  import opened Coordination
  import opened Tasks

  datatype Env = Env(hash: Hasher, window: nat)

  /**
    History variables. No step reads them, except that the environment issues
    a new `SendFile` only when the previous one was answered, and one
    `AcceptFile` or `RejectFile` per offer. `before` and `part` are what the
    destination and its part file held when the offer was accepted; `put` and `took` count the bytes
    that writes have put on the file stream and reads have taken off it.
  */
  datatype History = History(
    job: Option<Job>,
    accept: Option<Accept>,
    before: Option<Bytes>,
    part: Option<Bytes>,
    sendStart: Option<nat>,
    ticket: Option<Ticket>,
    restarts: nat,
    answers: nat,
    put: nat,
    took: nat)

  datatype Direction = Direction(
    s: Sender,
    r: Receiver,
    down: seq<ControlMessage>,
    up: seq<ControlMessage>,
    stream: Bytes,
    h: History)

  datatype Action =
    | OfferFile(job: Job)
    | AcceptOffer(accept: Accept)
    | RejectOffer
    | DeliverDown
    | DeliverUp
    | SenderTask(send: SendStep)
    | ReceiverTask(receive: ReceiveStep)

  const NoHistory := History(None, None, None, None, None, None, 0, 0, 0, 0)

  /** Both processes just started; only the receiver's files are given. */
  function Fresh(files: map<string, Bytes>): Direction {
    Direction(
      Sender(None, [], SendIdle),
      Receiver(None, false, None, None, None, [], RecvIdle, [], files),
      [], [], [], NoHistory)
  }

  function Lookup(files: map<string, Bytes>, path: string): Option<Bytes> {
    if path in files then Some(files[path]) else None
  }

  /** The offer and the acceptance that meet in this step, if they do. */
  function Meeting(d: Direction, a: Action): Option<(Accept, Offer)> {
    match a
    case AcceptOffer(accept) =>
      if d.r.offered.Some? then Some((accept, d.r.offered.value)) else None
    case DeliverDown =>
      if d.down != [] && d.down[0].Metadata? && d.r.accept.Some?
      then Some((d.r.accept.value, Offer(d.down[0].fileName, d.down[0].fileSize))) else None
    case _ => None
  }

  predicate Enabled(env: Env, d: Direction, a: Action) {
    match a
    case OfferFile(_) => d.h.job.None?
    case AcceptOffer(_) => d.r.accept.None?
    case RejectOffer => d.r.offered.Some?
    case DeliverDown => d.down != []
    case DeliverUp => d.up != []
    case SenderTask(step) => CanSend(d.s, d.stream, env.window, step)
    case ReceiverTask(step) => CanReceive(d.r, d.stream, step)
  }

  function Met(d: Direction, a: Action): History {
    if Meeting(d, a).None? then d.h
    else
      var (accept, offer) := Meeting(d, a).value;
      var dest := DestPath(accept.dir, offer.name);
      d.h.(accept := Some(accept), before := Lookup(d.r.files, dest), part := Lookup(d.r.files, PartPath(dest)))
  }

  function FromReceiver(d: Direction, a: Action, out: Out<Receiver>): Direction {
    d.(r := out.state, up := d.up + out.sent, h := Met(d, a))
  }

  function FromSender(d: Direction, out: Out<Sender>): Direction {
    d.(s := out.state, down := d.down + out.sent,
       h := if RestartFromZero in out.sent then d.h.(restarts := d.h.restarts + 1) else d.h)
  }

  /** What the sender's loop leaves behind once it has seen an answer. */
  function Settled(h: History, m: ControlMessage): History {
    if m.ReceivedFileOk? || m.RejectedUnwanted? then h.(job := None) else h
  }

  function SendNoted(d: Direction, a: SendStep): History {
    match a
    case StartSend => if d.s.triggers != [] then d.h.(sendStart := Some(d.s.triggers[0].1)) else d.h
    case WriteStream(n) => d.h.(put := d.h.put + n)
    case _ => d.h
  }

  function ReceiveNoted(d: Direction, a: ReceiveStep): History {
    match a
    case StartReceive => if d.r.triggers != [] then d.h.(ticket := Some(d.r.triggers[0])) else d.h
    case ReadStream(n) => d.h.(took := d.h.took + n)
    case Answer | Fail => d.h.(answers := d.h.answers + 1)
    case _ => d.h
  }

  function Do(env: Env, d: Direction, a: Action): Direction
    requires Enabled(env, d, a)
  {
    match a
    case OfferFile(job) =>
      FromSender(d.(h := NoHistory.(job := Some(job))), SendFile(d.s, job))
    case AcceptOffer(accept) =>
      FromReceiver(d, a, AcceptFile(env.hash, d.r, accept))
    case RejectOffer =>
      FromReceiver(d, a, RejectFile(d.r))
    case DeliverDown =>
      FromReceiver(d, a, OnReceiverMessage(env.hash, d.r, d.down[0])).(down := d.down[1..])
    case DeliverUp =>
      var d' := FromSender(d, OnSenderMessage(env.hash, d.s, d.up[0]));
      d'.(up := d.up[1..], h := Settled(d'.h, d.up[0]))
    case SenderTask(step) =>
      var m := Send(env.hash, d.s, d.stream, env.window, step);
      d.(s := m.state, stream := m.stream, down := d.down + m.sent, h := SendNoted(d, step))
    case ReceiverTask(step) =>
      var m := Receive(env.hash, d.r, d.stream, step);
      d.(r := m.state, stream := m.stream, up := d.up + m.sent, h := ReceiveNoted(d, step))
  }

  /** A run: an initial state and the actions taken from it, in order. */
  ghost predicate Runs(env: Env, d: Direction, actions: seq<Action>)
    decreases |actions|
  {
    actions == [] ||
    (Enabled(env, d, actions[0]) && Runs(env, Do(env, d, actions[0]), actions[1..]))
  }

  ghost function After(env: Env, d: Direction, actions: seq<Action>): Direction
    requires Runs(env, d, actions)
    decreases |actions|
  {
    if actions == [] then d else After(env, Do(env, d, actions[0]), actions[1..])
  }
}
