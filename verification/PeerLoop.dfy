/**
  The program of one peer in the form it is written in: state variables that
  the coordination loop takes and sets, queues that the tasks fill and drain,
  files and a byte stream that are changed in place. Every method is proved
  to do what `Coordination` and `Tasks` say; `PeerRun` connects two such peers
  and carries out whole runs with these methods.
*/
module PeerLoop {
  import opened Common
  import opened ControlMessages
  import C = Coordination
  import T = Tasks

  /** One file stream: `bytes` is what has been written and not yet read. */
  class FileStream {
    const window: nat
    var bytes: Bytes

    constructor (window: nat)
      ensures bytes == [] && this.window == window
    {
      this.window := window;
      bytes := [];
    }
  }

  class Peer {
    const hash: C.Hasher

    var pendingSend: Option<C.Job>
    var sendTriggers: seq<(C.Job, nat)>
    var sendTask: C.SendTask

    var offered: Option<C.Offer>
    var offeredResume: bool
    var pendingAccept: Option<C.Accept>
    var pendingResume: Option<C.Ticket>
    var partPath: Option<string>
    var receiveTriggers: seq<C.Ticket>
    var receiveTask: C.RecvTask
    var hashes: seq<string>
    var files: map<string, Bytes>

    var paused: bool
    var cancelled: bool
    var outbox: seq<ControlMessage>

    constructor (hash: C.Hasher, files: map<string, Bytes>)
      ensures this.hash == hash && outbox == []
      ensures State() == C.Peer(C.Sender(None, [], C.SendIdle),
                                C.Receiver(None, false, None, None, None, [], C.RecvIdle, [], files), false, false)
    {
      this.hash := hash;
      pendingSend, sendTriggers, sendTask := None, [], C.SendIdle;
      offered, offeredResume, pendingAccept, pendingResume := None, false, None, None;
      partPath, receiveTriggers, receiveTask, hashes := None, [], C.RecvIdle, [];
      this.files := files;
      paused, cancelled, outbox := false, false, [];
    }

    function SenderState(): C.Sender
      reads this
    {
      C.Sender(pendingSend, sendTriggers, sendTask)
    }

    function ReceiverState(): C.Receiver
      reads this
    {
      C.Receiver(offered, offeredResume, pendingAccept, pendingResume, partPath, receiveTriggers, receiveTask, hashes,
                 files)
    }

    function State(): C.Peer
      reads this
    {
      C.Peer(SenderState(), ReceiverState(), paused, cancelled)
    }

    /** The state is the one that `out` describes, and its messages have been queued. */
    twostate predicate Became(out: C.Out<C.Peer>)
      reads this
    {
      State() == out.state && outbox == old(outbox) + out.sent
    }

    // ---- coordination loop ------------------------------------------------

    /** Hands a ticket to the receive task and says so. */
    method StartAt(ticket: C.Ticket)
      modifies this
      ensures var out := C.Start(old(ReceiverState()), ticket); Became(C.Out(old(State()).(r := out.state), out.sent))
    {
      receiveTriggers := receiveTriggers + [ticket];
      outbox := outbox + [Ready];
    }

    /** Keeps a ticket until the sender has checked the fingerprint. */
    method ParkAt(ticket: C.Ticket)
      requires C.Target(ticket) in files
      modifies this
      ensures var out := C.Park(hash, old(ReceiverState()), ticket);
        Became(C.Out(old(State()).(r := out.state), out.sent))
    {
      pendingResume := Some(ticket);
      outbox := outbox + [ResumeReady(ticket.offset, Some(C.PrefixHash(hash, files[C.Target(ticket)])))];
    }

    method HandleAccept(accept: C.Accept, offer: C.Offer)
      modifies this
      ensures var out := C.HandleAccept(hash, old(ReceiverState()), accept, offer);
        Became(C.Out(old(State()).(r := out.state), out.sent))
    {
      hide C.DestPath, C.Start, C.AcceptStaged;
      var dest := C.DestPath(accept.dir, offer.name);
      var usePart := offer.size >= C.RESUME_THRESHOLD_BYTES;
      if usePart {
        partPath := Some(C.PartPath(dest));
        AcceptStaged(accept, offer);
      } else {
        partPath := None;
        StartAt(C.Ticket(dest, offer.size, accept.checksum, 0, false));
      }
    }

    /** What can be kept of a part file: whole chunks of it, unless that is more than the file is long. */
    method Aligned(existing: nat, size: nat) returns (aligned: nat)
      ensures aligned == C.AlignedOffset(existing, size)
    {
      aligned := (existing / C.FILE_CHUNK_SIZE) * C.FILE_CHUNK_SIZE;
      if aligned > size {
        aligned := 0;
      }
    }

    /** Large files go through a part file, and may be resumed from it. */
    method AcceptStaged(accept: C.Accept, offer: C.Offer)
      modifies this
      ensures var out := C.AcceptStaged(hash, old(ReceiverState()), accept, offer);
        Became(C.Out(old(State()).(r := out.state), out.sent))
    {
      hide C.PrefixHash, C.DestPath, C.Start, C.Park, C.AlignedOffset;
      var dest := C.DestPath(accept.dir, offer.name);
      var part := C.PartPath(dest);
      if offeredResume && accept.resume {
        if part in files {
          var aligned := Aligned(|files[part]|, offer.size);
          if aligned > 0 {
            files := files[part := files[part][..aligned]];
            ParkAt(C.Ticket(dest, offer.size, accept.checksum, aligned, true));
            return;
          }
        } else if dest in files && |files[dest]| == offer.size {
          ParkAt(C.Ticket(dest, offer.size, accept.checksum, offer.size, false));
          return;
        }
      }
      StartAt(C.Ticket(dest, offer.size, accept.checksum, 0, true));
    }

    method OnReady()
      modifies this
      ensures Became(C.OnMessage(hash, old(State()), Ready))
    {
      hide C.OnReceiverMessage;
      if pendingSend.Some? {
        sendTriggers := sendTriggers + [(pendingSend.value, 0)];
        pendingSend := None;
      }
    }

    method OnResumeReady(offset: nat, prefix: Option<string>)
      modifies this
      ensures Became(C.OnMessage(hash, old(State()), ResumeReady(offset, prefix)))
    {
      hide C.PrefixHash, C.OnReceiverMessage;
      if pendingSend.Some? {
        var job := pendingSend.value;
        pendingSend := None;
        if offset > 0 {
          if prefix == Some(C.PrefixHash(hash, job.content)) {
            outbox := outbox + [ResumeOk];
            sendTriggers := sendTriggers + [(job, offset)];
          } else {
            pendingSend := Some(job);
            outbox := outbox + [RestartFromZero];
          }
        } else {
          sendTriggers := sendTriggers + [(job, 0)];
        }
      }
    }

    /** Messages about the file this peer is sending. */
    method OnSenderMessage(message: ControlMessage)
      requires C.ForSender(message)
      modifies this
      ensures Became(C.OnMessage(hash, old(State()), message))
    {
      hide C.PrefixHash, C.OnReceiverMessage;
      match message {
        case Ready => OnReady();
        case ResumeReady(offset, prefix) => OnResumeReady(offset, prefix);
        case ReceivedFileFailed => cancelled := true;
        case _ =>
      }
    }

    method OnOffer(name: string, size: nat, resume: bool, checksum: bool)
      modifies this
      ensures Became(C.OnMessage(hash, old(State()), Metadata(name, size, resume, checksum)))
    {
      hide C.HandleAccept;
      offered := Some(C.Offer(name, size));
      offeredResume := resume;
      if pendingAccept.Some? {
        var accept := pendingAccept.value;
        pendingAccept, offered := None, None;
        HandleAccept(accept, C.Offer(name, size));
      }
    }

    method OnResumeOk()
      modifies this
      ensures Became(C.OnMessage(hash, old(State()), ResumeOk))
    {
      hide C.HandleAccept, C.OnSenderMessage;
      if pendingResume.Some? {
        receiveTriggers := receiveTriggers + [pendingResume.value];
        pendingResume := None;
      }
    }

    method OnRestartFromZero()
      modifies this
      ensures Became(C.OnMessage(hash, old(State()), RestartFromZero))
    {
      hide C.HandleAccept, C.OnSenderMessage, C.Start;
      if pendingResume.Some? {
        var ticket := pendingResume.value;
        pendingResume := None;
        if partPath.Some? {
          files := files[partPath.value := []];
        }
        StartAt(ticket.(offset := 0));
      }
    }

    /** Messages about the file this peer is receiving. */
    method OnReceiverMessage(message: ControlMessage)
      requires C.ForReceiver(message)
      modifies this
      ensures Became(C.OnMessage(hash, old(State()), message))
    {
      hide C.HandleAccept, C.OnSenderMessage;
      match message {
        case Metadata(name, size, resume, checksum) => OnOffer(name, size, resume, checksum);
        case ResumeOk => OnResumeOk();
        case RestartFromZero => OnRestartFromZero();
        case FileSent(text) => hashes := hashes + [text];
      }
    }

    method OnMessage(message: ControlMessage)
      modifies this
      ensures Became(C.OnMessage(hash, old(State()), message))
    {
      hide C.OnSenderMessage, C.OnReceiverMessage;
      if C.ForSender(message) {
        OnSenderMessage(message);
      } else if C.ForReceiver(message) {
        OnReceiverMessage(message);
      } else if message.Pause? {
        paused := true;
      } else if message.Resume? {
        paused := false;
      }
    }

    method OnCommand(command: C.Command)
      modifies this
      ensures Became(C.OnCommand(hash, old(State()), command))
    {
      hide C.HandleAccept;
      match command {
        case SendFileCommand(job) =>
          pendingSend := Some(job);
          outbox := outbox + [Metadata(job.name, |job.content|, job.resume, job.checksum)];
        case AcceptFileCommand(accept) =>
          if offered.Some? {
            var offer := offered.value;
            offered := None;
            HandleAccept(accept, offer);
          } else {
            pendingAccept := Some(accept);
          }
        case RejectFileCommand =>
          offered := None;
          outbox := outbox + [RejectedUnwanted];
        case PauseCommand =>
          paused := true;
          outbox := outbox + [Pause];
        case ResumeCommand =>
          paused := false;
          outbox := outbox + [Resume];
      }
    }

    // ---- send task --------------------------------------------------------

    /** One step of the send task: its own state, the stream and the outbox change as `Tasks.Send` says. */
    twostate predicate Sent(stream: FileStream, step: T.SendStep)
      requires T.CanSend(old(SenderState()), old(stream.bytes), stream.window, step)
      reads this, stream
    {
      var m := T.Send(hash, old(SenderState()), old(stream.bytes), stream.window, step);
      State() == old(State()).(s := m.state) && stream.bytes == m.stream && outbox == old(outbox) + m.sent
    }

    method OpenSource(stream: FileStream)
      requires T.CanSend(SenderState(), stream.bytes, stream.window, T.StartSend)
      modifies this
      ensures Sent(stream, T.StartSend)
    {
      var (job, offset) := sendTriggers[0];
      sendTriggers := sendTriggers[1..];
      sendTask := C.Sending(job, offset, offset, [], []);
    }

    /** The disk reader: `n` bytes, as many as one read returns, become a chunk. */
    method ReadSource(stream: FileStream, n: nat)
      requires T.CanSend(SenderState(), stream.bytes, stream.window, T.ReadSource(n))
      modifies this
      ensures Sent(stream, T.ReadSource(n))
    {
      var job, read := sendTask.job, sendTask.read;
      var chunk := job.content[read..read + n];
      sendTask := sendTask.(read := read + n, queue := sendTask.queue + [chunk]);
    }

    /** The stream writer: takes the next chunk from the queue. */
    method TakeChunk(stream: FileStream)
      requires T.CanSend(SenderState(), stream.bytes, stream.window, T.TakeChunk)
      modifies this
      ensures Sent(stream, T.TakeChunk)
    {
      sendTask := sendTask.(held := sendTask.queue[0], queue := sendTask.queue[1..]);
    }

    /** One partial write of `write_all`. */
    method WriteStream(stream: FileStream, n: nat)
      requires T.CanSend(SenderState(), stream.bytes, stream.window, T.WriteStream(n))
      modifies this, stream
      ensures Sent(stream, T.WriteStream(n))
    {
      stream.bytes := stream.bytes + sendTask.held[..n];
      sendTask := sendTask.(held := sendTask.held[n..]);
    }

    method FinishSend(stream: FileStream)
      requires T.CanSend(SenderState(), stream.bytes, stream.window, T.FinishSend)
      modifies this
      ensures Sent(stream, T.FinishSend)
    {
      var job := sendTask.job;
      var text := if job.checksum then hash(job.content) else "NONE";
      sendTask := C.SendIdle;
      outbox := outbox + [FileSent(text)];
    }

    // ---- receive task -----------------------------------------------------

    twostate predicate Received(stream: FileStream, step: T.ReceiveStep)
      requires T.CanReceive(old(ReceiverState()), old(stream.bytes), step)
      reads this, stream
    {
      var m := T.Receive(hash, old(ReceiverState()), old(stream.bytes), step);
      State() == old(State()).(r := m.state) && stream.bytes == m.stream && outbox == old(outbox) + m.sent
    }

    method OpenTarget(stream: FileStream)
      requires T.CanReceive(ReceiverState(), stream.bytes, T.StartReceive)
      modifies this
      ensures Received(stream, T.StartReceive)
    {
      var ticket := receiveTriggers[0];
      receiveTriggers := receiveTriggers[1..];
      var path := if ticket.usePart then C.PartPath(ticket.dest) else ticket.dest;
      if ticket.offset > 0 {
        if path !in files {
          files := files[path := []];
        }
      } else {
        files := files[path := []];
      }
      receiveTask := C.Receiving(ticket, ticket.offset, [], ticket.offset, []);
    }

    /** The stream reader: one read of at most the bytes still missing. */
    method ReadStream(stream: FileStream, n: nat)
      requires T.CanReceive(ReceiverState(), stream.bytes, T.ReadStream(n))
      modifies this, stream
      ensures Received(stream, T.ReadStream(n))
    {
      var chunk := stream.bytes[..n];
      stream.bytes := stream.bytes[n..];
      receiveTask := receiveTask.(received := receiveTask.received + n, queue := receiveTask.queue + [chunk]);
    }

    /** The disk writer: `n` bytes of the oldest chunk reach the file. */
    method WriteDisk(stream: FileStream, n: nat)
      requires T.CanReceive(ReceiverState(), stream.bytes, T.WriteDisk(n))
      modifies this
      ensures Received(stream, T.WriteDisk(n))
    {
      var task := receiveTask;
      var chunk := task.queue[0];
      var path := C.Target(task.ticket);
      var content := if path in files then files[path] else [];
      files := files[path := T.WriteAt(content, task.position, chunk[..n])];
      var queue := task.queue[1..];
      if n < |chunk| {
        queue := [chunk[n..]] + queue;
      } else {
        assert [] + queue == queue;
      }
      receiveTask := task.(queue := queue, position := task.position + n, hashed := task.hashed + chunk[..n]);
    }

    method CloseFile(stream: FileStream)
      requires T.CanReceive(ReceiverState(), stream.bytes, T.CloseFile)
      modifies this
      ensures Received(stream, T.CloseFile)
    {
      var task := receiveTask;
      var actual := "NONE";
      if task.ticket.checksum {
        if task.ticket.offset > 0 {
          var path := C.Target(task.ticket);
          actual := hash(if path in files then files[path] else []);
        } else {
          actual := hash(task.hashed);
        }
      }
      receiveTask := C.Judging(task.ticket, actual);
    }

    method Answer(stream: FileStream)
      requires T.CanReceive(ReceiverState(), stream.bytes, T.Answer)
      modifies this
      ensures Received(stream, T.Answer)
    {
      hide T.HashOk, C.PartPath;
      var ticket, expected := receiveTask.ticket, hashes[0];
      var ok := T.HashOk(expected, receiveTask.actual);
      hashes := hashes[1..];
      if ok && ticket.usePart {
        var part := C.PartPath(ticket.dest);
        if part in files {
          files := (files - {part})[ticket.dest := files[part]];
        } else {
          ok := false;
        }
      }
      receiveTask := if ok then C.RecvIdle else C.Stopped;
      outbox := outbox + [if ok then ReceivedFileOk else ReceivedFileFailed];
    }

    method GiveUp(stream: FileStream)
      requires T.CanReceive(ReceiverState(), stream.bytes, T.Fail)
      modifies this
      ensures Received(stream, T.Fail)
    {
      receiveTask := C.Stopped;
      outbox := outbox + [ReceivedFileFailed];
    }
  }
}
