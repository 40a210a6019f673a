/**
  The coordination loop of one peer: the state variables it keeps between
  events, and what it does on each control message and each command.

  A file is identified with its content on the sending side, because the
  protocol assumes that the source does not change during a transfer. A
  path on the receiving side is a key of `files`.
*/
module Coordination {
  import opened Common
  import opened ControlMessages

  const FILE_CHUNK_SIZE: nat := 2 * 1024 * 1024
  const RESUME_THRESHOLD_BYTES: nat := 20 * 1024 * 1024
  const RESUME_FINGERPRINT_SIZE: nat := 64 * 1024
  const PARTIAL_FILE_SUFFIX: string := ".quic-part"

  /** What a peer is run with: a whole-file hash rendered as text. */
  type Hasher = Bytes -> string

  /** One `SendFile` command: the path is represented by what the file holds. */
  datatype Job = Job(name: string, content: Bytes, checksum: bool, resume: bool)

  /** One `AcceptFile` command. */
  datatype Accept = Accept(dir: string, checksum: bool, resume: bool)

  datatype Offer = Offer(name: string, size: nat)

  /** What the receive task is started with. */
  datatype Ticket = Ticket(dest: string, size: nat, checksum: bool, offset: nat, usePart: bool)

  datatype SendTask =
    | SendIdle
    | Sending(job: Job, offset: nat, read: nat, queue: seq<Bytes>, held: Bytes)

  datatype Sender = Sender(pending: Option<Job>, triggers: seq<(Job, nat)>, task: SendTask)

  datatype RecvTask =
    | RecvIdle
    | Receiving(ticket: Ticket, received: nat, queue: seq<Bytes>, position: nat, hashed: Bytes)
    | Judging(ticket: Ticket, actual: string)
    | Stopped

  datatype Receiver = Receiver(
    offered: Option<Offer>,
    offeredResume: bool,
    accept: Option<Accept>,
    parked: Option<Ticket>,
    partPath: Option<string>,
    triggers: seq<Ticket>,
    task: RecvTask,
    hashes: seq<string>,
    files: map<string, Bytes>)

  /** A new state together with the control messages queued on the way. */
  datatype Out<+S> = Out(state: S, sent: seq<ControlMessage>)

  function PartPath(dest: string): string {
    dest + PARTIAL_FILE_SUFFIX
  }

  function DestPath(dir: string, name: string): string {
    dir + "/" + name
  }

  function PrefixHash(hash: Hasher, content: Bytes): string {
    hash(content[..Min(|content|, RESUME_FINGERPRINT_SIZE)])
  }

  /** The file that a ticket writes to. */
  function Target(t: Ticket): string {
    if t.usePart then PartPath(t.dest) else t.dest
  }

  // ---- sending half -------------------------------------------------------

  function SendFile(s: Sender, job: Job): Out<Sender> {
    Out(s.(pending := Some(job)), [Metadata(job.name, |job.content|, job.resume, job.checksum)])
  }

  predicate ForSender(m: ControlMessage) {
    m.Ready? || m.ResumeReady? || m.ReceivedFileOk? || m.ReceivedFileFailed? || m.RejectedUnwanted?
  }

  function Trigger(s: Sender, offset: nat): Sender
    requires s.pending.Some?
  {
    s.(pending := None, triggers := s.triggers + [(s.pending.value, offset)])
  }

  function OnSenderMessage(hash: Hasher, s: Sender, m: ControlMessage): Out<Sender> {
    match m
    case Ready =>
      if s.pending.Some? then Out(Trigger(s, 0), []) else Out(s, [])
    case ResumeReady(offset, prefix) =>
      if s.pending.None? then Out(s, [])
      else if offset == 0 then Out(Trigger(s, 0), [])
      else if prefix == Some(PrefixHash(hash, s.pending.value.content)) then Out(Trigger(s, offset), [ResumeOk])
      else Out(s, [RestartFromZero])
    case _ => Out(s, [])
  }

  // ---- receiving half -----------------------------------------------------

  function AlignedOffset(existing: nat, size: nat): (offset: nat)
    ensures offset <= existing && offset <= size && offset % FILE_CHUNK_SIZE == 0
    ensures if existing - existing % FILE_CHUNK_SIZE <= size then existing < offset + FILE_CHUNK_SIZE else offset == 0
  {
    var aligned := (existing / FILE_CHUNK_SIZE) * FILE_CHUNK_SIZE;
    if aligned > size then 0 else aligned
  }

  function Start(r: Receiver, t: Ticket): Out<Receiver> {
    Out(r.(triggers := r.triggers + [t]), [Ready])
  }

  function Park(hash: Hasher, r: Receiver, t: Ticket): Out<Receiver>
    requires Target(t) in r.files
  {
    Out(r.(parked := Some(t)), [ResumeReady(t.offset, Some(PrefixHash(hash, r.files[Target(t)])))])
  }

  /** A file of 20 MiB or more: staged in the part file, and resumed from what is there if both sides want it. */
  function AcceptStaged(hash: Hasher, r: Receiver, a: Accept, o: Offer): Out<Receiver> {
    var dest := DestPath(a.dir, o.name);
    var part := PartPath(dest);
    var fromZero := Ticket(dest, o.size, a.checksum, 0, true);
    if !(r.offeredResume && a.resume) then
      Start(r, fromZero)
    else if part in r.files then
      var offset := AlignedOffset(|r.files[part]|, o.size);
      if offset > 0 then
        Park(hash, r.(files := r.files[part := r.files[part][..offset]]), fromZero.(offset := offset))
      else
        Start(r, fromZero)
    else if dest in r.files && |r.files[dest]| == o.size then
      Park(hash, r, Ticket(dest, o.size, a.checksum, o.size, false))
    else
      Start(r, fromZero)
  }

  /** The decision taken when an offer and an `AcceptFile` have met. */
  function HandleAccept(hash: Hasher, r: Receiver, a: Accept, o: Offer): Out<Receiver> {
    var dest := DestPath(a.dir, o.name);
    if o.size < RESUME_THRESHOLD_BYTES then
      Start(r.(partPath := None), Ticket(dest, o.size, a.checksum, 0, false))
    else
      AcceptStaged(hash, r.(partPath := Some(PartPath(dest))), a, o)
  }

  function AcceptFile(hash: Hasher, r: Receiver, a: Accept): Out<Receiver> {
    if r.offered.Some? then HandleAccept(hash, r.(offered := None), a, r.offered.value)
    else Out(r.(accept := Some(a)), [])
  }

  function RejectFile(r: Receiver): Out<Receiver> {
    Out(r.(offered := None), [RejectedUnwanted])
  }

  predicate ForReceiver(m: ControlMessage) {
    m.Metadata? || m.ResumeOk? || m.RestartFromZero? || m.FileSent?
  }

  function OnReceiverMessage(hash: Hasher, r: Receiver, m: ControlMessage): Out<Receiver> {
    match m
    case Metadata(name, size, resume, _) =>
      if r.accept.Some? then
        HandleAccept(hash, r.(accept := None, offered := None, offeredResume := resume), r.accept.value,
                     Offer(name, size))
      else
        Out(r.(offered := Some(Offer(name, size)), offeredResume := resume), [])
    case ResumeOk =>
      if r.parked.Some? then Out(r.(parked := None, triggers := r.triggers + [r.parked.value]), [])
      else Out(r, [])
    case RestartFromZero =>
      if r.parked.Some? then
        var files := if r.partPath.Some? then r.files[r.partPath.value := []] else r.files;
        Start(r.(parked := None, files := files), r.parked.value.(offset := 0))
      else Out(r, [])
    case FileSent(text) => Out(r.(hashes := r.hashes + [text]), [])
    case _ => Out(r, [])
  }

  // ---- one peer -----------------------------------------------------------

  /** Both halves of a peer, the pause flag they share, and its cancellation token. */
  datatype Peer = Peer(s: Sender, r: Receiver, paused: bool, cancelled: bool)

  datatype Command =
    | SendFileCommand(job: Job)
    | AcceptFileCommand(accept: Accept)
    | RejectFileCommand
    | PauseCommand
    | ResumeCommand

  function OnMessage(hash: Hasher, p: Peer, m: ControlMessage): Out<Peer> {
    if ForSender(m) then
      var out := OnSenderMessage(hash, p.s, m);
      Out(p.(s := out.state, cancelled := p.cancelled || m.ReceivedFileFailed?), out.sent)
    else if ForReceiver(m) then
      var out := OnReceiverMessage(hash, p.r, m);
      Out(p.(r := out.state), out.sent)
    else if m.Pause? then Out(p.(paused := true), [])
    else if m.Resume? then Out(p.(paused := false), [])
    else Out(p, [])
  }

  function OnCommand(hash: Hasher, p: Peer, c: Command): Out<Peer> {
    match c
    case SendFileCommand(job) =>
      var out := SendFile(p.s, job);
      Out(p.(s := out.state), out.sent)
    case AcceptFileCommand(accept) =>
      var out := AcceptFile(hash, p.r, accept);
      Out(p.(r := out.state), out.sent)
    case RejectFileCommand =>
      var out := RejectFile(p.r);
      Out(p.(r := out.state), out.sent)
    case PauseCommand => Out(p.(paused := true), [Pause])
    case ResumeCommand => Out(p.(paused := false), [Resume])
  }
}
