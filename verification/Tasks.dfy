/**
  The send task and the receive task of one peer. Each iteration of their
  loops is one step on the task's own state and on the file stream.
*/
module Tasks {
  import opened Common
  import opened ControlMessages
  import opened Coordination

  const CHUNK_QUEUE_SLOTS: nat := 16

  datatype SendStep =
    | StartSend
    | ReadSource(n: nat)
    | TakeChunk
    | WriteStream(n: nat)
    | FinishSend

  datatype ReceiveStep =
    | StartReceive
    | ReadStream(n: nat)
    | WriteDisk(n: nat)
    | CloseFile
    | Answer
    | Fail

  /** A new task state, what the file stream holds now, and the control messages queued. */
  datatype Moved<+S> = Moved(state: S, stream: Bytes, sent: seq<ControlMessage>)

  /** Writing `data` at `position`, zero-filling a gap as a sparse file does. */
  function WriteAt(content: Bytes, position: nat, data: Bytes): Bytes {
    var padded := if |content| < position then content + seq(position - |content|, _ => 0) else content;
    if position + |data| <= |padded| then padded[..position] + data + padded[position + |data|..]
    else padded[..position] + data
  }

  function SenderHash(hash: Hasher, job: Job): string {
    if job.checksum then hash(job.content) else "NONE"
  }

  function ReceiverHash(hash: Hasher, t: Ticket, hashed: Bytes, content: Bytes): string {
    if !t.checksum then "NONE" else if t.offset > 0 then hash(content) else hash(hashed)
  }

  function LowerChar(c: char): char {
    if 'A' <= c <= 'Z' then (c as int + 32) as char else c
  }

  predicate EqIgnoreCase(a: string, b: string) {
    |a| == |b| && forall i :: 0 <= i < |a| ==> LowerChar(a[i]) == LowerChar(b[i])
  }

  predicate HashOk(expected: string, actual: string) {
    expected == "NONE" || expected == "SKIP" || actual == "NONE" || EqIgnoreCase(actual, expected)
  }

  // ---- send task ----------------------------------------------------------

  /** `window` bounds the bytes that the file stream holds unread. */
  predicate CanSend(s: Sender, stream: Bytes, window: nat, a: SendStep) {
    match a
    case StartSend => s.task.SendIdle? && s.triggers != []
    case ReadSource(n) =>
      s.task.Sending? && |s.task.queue| < CHUNK_QUEUE_SLOTS &&
      1 <= n <= FILE_CHUNK_SIZE && s.task.read + n <= |s.task.job.content|
    case TakeChunk => s.task.Sending? && s.task.held == [] && s.task.queue != []
    case WriteStream(n) => s.task.Sending? && 1 <= n <= |s.task.held| && |stream| + n <= window
    case FinishSend =>
      s.task.Sending? && s.task.held == [] && s.task.queue == [] && s.task.read >= |s.task.job.content|
  }

  function Send(hash: Hasher, s: Sender, stream: Bytes, window: nat, a: SendStep): Moved<Sender>
    requires CanSend(s, stream, window, a)
  {
    var t := s.task;
    match a
    case StartSend =>
      var (job, offset) := s.triggers[0];
      Moved(s.(triggers := s.triggers[1..], task := Sending(job, offset, offset, [], [])), stream, [])
    case ReadSource(n) =>
      Moved(s.(task := t.(read := t.read + n, queue := t.queue + [t.job.content[t.read..t.read + n]])), stream, [])
    case TakeChunk =>
      Moved(s.(task := t.(held := t.queue[0], queue := t.queue[1..])), stream, [])
    case WriteStream(n) =>
      Moved(s.(task := t.(held := t.held[n..])), stream + t.held[..n], [])
    case FinishSend =>
      Moved(s.(task := SendIdle), stream, [FileSent(SenderHash(hash, t.job))])
  }

  // ---- receive task -------------------------------------------------------

  function OpenTarget(files: map<string, Bytes>, t: Ticket): map<string, Bytes> {
    if t.offset > 0 && Target(t) in files then files else files[Target(t) := []]
  }

  function GiveAnswer(r: Receiver): Out<Receiver>
    requires r.task.Judging? && r.hashes != []
  {
    var t := r.task.ticket;
    var popped := r.(hashes := r.hashes[1..]);
    if !HashOk(r.hashes[0], r.task.actual) then
      Out(popped.(task := Stopped), [ReceivedFileFailed])
    else if !t.usePart then
      Out(popped.(task := RecvIdle), [ReceivedFileOk])
    else if Target(t) !in r.files then
      Out(popped.(task := Stopped), [ReceivedFileFailed])
    else
      Out(popped.(task := RecvIdle, files := (r.files - {Target(t)})[t.dest := r.files[Target(t)]]), [ReceivedFileOk])
  }

  predicate CanReceive(r: Receiver, stream: Bytes, a: ReceiveStep) {
    match a
    case StartReceive => r.task.RecvIdle? && r.triggers != []
    case ReadStream(n) =>
      r.task.Receiving? && |r.task.queue| < CHUNK_QUEUE_SLOTS &&
      1 <= n <= FILE_CHUNK_SIZE && n <= |stream| && r.task.received + n <= r.task.ticket.size
    case WriteDisk(n) => r.task.Receiving? && r.task.queue != [] && 1 <= n <= |r.task.queue[0]|
    case CloseFile => r.task.Receiving? && r.task.received >= r.task.ticket.size && r.task.queue == []
    case Answer => r.task.Judging? && r.hashes != []
    case Fail => r.task.Receiving? || r.task.Judging? || (r.task.RecvIdle? && r.triggers != [])
  }

  function Receive(hash: Hasher, r: Receiver, stream: Bytes, a: ReceiveStep): Moved<Receiver>
    requires CanReceive(r, stream, a)
  {
    match a
    case StartReceive =>
      var t := r.triggers[0];
      Moved(r.(triggers := r.triggers[1..], task := Receiving(t, t.offset, [], t.offset, []),
               files := OpenTarget(r.files, t)), stream, [])
    case ReadStream(n) =>
      var t := r.task;
      Moved(r.(task := t.(received := t.received + n, queue := t.queue + [stream[..n]])), stream[n..], [])
    case WriteDisk(n) =>
      var t := r.task;
      var data, rest := t.queue[0][..n], t.queue[0][n..];
      var path := Target(t.ticket);
      var content := if path in r.files then r.files[path] else [];
      Moved(r.(task := t.(queue := (if rest == [] then [] else [rest]) + t.queue[1..],
                          position := t.position + n, hashed := t.hashed + data),
               files := r.files[path := WriteAt(content, t.position, data)]), stream, [])
    case CloseFile =>
      var t := r.task;
      var path := Target(t.ticket);
      var content := if path in r.files then r.files[path] else [];
      Moved(r.(task := Judging(t.ticket, ReceiverHash(hash, t.ticket, t.hashed, content))), stream, [])
    case Answer =>
      var out := GiveAnswer(r);
      Moved(out.state, stream, out.sent)
    case Fail =>
      Moved(r.(task := Stopped), stream, [ReceivedFileFailed])
  }
}
