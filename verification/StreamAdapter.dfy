/**
  The state that the MsQuic callback and the poll functions of a stream share,
  and what each of them does to it.
*/
module StreamAdapter {
  import opened Common

  const MAX_IN_FLIGHT_BYTES: nat := 16 * 1024 * 1024

  const U32_LIMIT: nat := 0x1_0000_0000

  /** Identifies the task that a waker wakes. */
  type Waker = nat

  datatype Error = PeerAbortedReceive | PeerAbortedSend

  datatype Shared = Shared(
    recvBuf: Bytes,
    recvWaker: Option<Waker>,
    sendWaker: Option<Waker>,
    closedRead: bool,
    closedWrite: bool,
    inFlight: nat,
    error: Option<Error>)

  const Fresh := Shared([], None, None, false, false, 0, None)

  /** `SendComplete` carries the data of the send it completes, unless its context is null. */
  datatype Event =
    | Receive(buffers: seq<Bytes>)
    | SendComplete(data: Option<Bytes>)
    | PeerSendShutdown
    | PeerReceiveAborted
    | PeerSendAborted
    | ShutdownComplete
    | Unhandled

  function Listed(w: Option<Waker>): seq<Waker> {
    if w.Some? then [w.value] else []
  }

  function SaturatingSub(a: nat, b: nat): nat {
    if a >= b then a - b else 0
  }

  /** `msquic_stream_callback`: the new state, and the wakers that are woken. */
  function Callback(s: Shared, e: Event): (Shared, seq<Waker>) {
    match e
    case Receive(buffers) =>
      (s.(recvBuf := s.recvBuf + Flatten(buffers), recvWaker := None), Listed(s.recvWaker))
    case SendComplete(data) =>
      (s.(inFlight := if data.Some? then SaturatingSub(s.inFlight, |data.value|) else s.inFlight, sendWaker := None),
       Listed(s.sendWaker))
    case PeerSendShutdown => (s.(closedRead := true, recvWaker := None), Listed(s.recvWaker))
    case PeerReceiveAborted =>
      (s.(closedWrite := true, error := Some(Error.PeerAbortedReceive), sendWaker := None), Listed(s.sendWaker))
    case PeerSendAborted =>
      (s.(closedRead := true, error := Some(Error.PeerAbortedSend), recvWaker := None), Listed(s.recvWaker))
    case ShutdownComplete =>
      (s.(closedRead := true, closedWrite := true, recvWaker := None, sendWaker := None),
       Listed(s.recvWaker) + Listed(s.sendWaker))
    case Unhandled => (s, [])
  }

  /** `Ready([])` from a buffer with room means end of stream. */
  datatype ReadPoll = ReadPending | ReadReady(data: Bytes) | ReadFailed(error: Error)

  function PollRead(s: Shared, waker: Waker, room: nat): (Shared, ReadPoll) {
    if s.error.Some? then (s, ReadFailed(s.error.value))
    else if s.recvBuf != [] then
      var n := Min(room, |s.recvBuf|);
      (s.(recvBuf := s.recvBuf[n..]), ReadReady(s.recvBuf[..n]))
    else if s.closedRead then (s, ReadReady([]))
    else (s.(recvWaker := Some(waker)), ReadPending)
  }

  /** What the library answers: it cannot be loaded, lacks the entry, fails the call, or performs it. */
  datatype Library = Unavailable | NoEntry | Refuses | Accepts

  datatype WriteError = StreamError(error: Error) | ClosedForWriting | LibraryMissing | SendFailed

  datatype WritePoll = WritePending | Wrote(count: nat) | WriteFailed(error: WriteError)

  /** The length that the 32-bit field of a buffer descriptor holds. */
  function Described(buf: Bytes): (n: nat)
    ensures n <= |buf| && n < U32_LIMIT
  {
    |buf| % U32_LIMIT
  }

  function PollWrite(s: Shared, waker: Waker, buf: Bytes, library: Library): (Shared, WritePoll) {
    if s.error.Some? then (s, WriteFailed(StreamError(s.error.value)))
    else if s.closedWrite then (s, WriteFailed(ClosedForWriting))
    else if s.inFlight >= MAX_IN_FLIGHT_BYTES then (s.(sendWaker := Some(waker)), WritePending)
    else if buf == [] then (s, Wrote(0))
    else
      match library
      case Unavailable | NoEntry => (s, WriteFailed(LibraryMissing))
      case Refuses =>
        (s.(inFlight := SaturatingSub(s.inFlight + Described(buf), Described(buf))), WriteFailed(SendFailed))
      case Accepts => (s.(inFlight := s.inFlight + Described(buf)), Wrote(Described(buf)))
  }

  datatype FlushPoll = FlushPending | FlushReady | FlushFailed

  function PollFlush(s: Shared, waker: Waker): (Shared, FlushPoll) {
    if s.inFlight > 0 then (s.(sendWaker := Some(waker)), FlushPending) else (s, FlushReady)
  }

  /** The third part says whether the stream is told to finish. The status of that call is ignored. */
  function PollShutdown(s: Shared, waker: Waker, library: Library): (Shared, FlushPoll, bool) {
    if s.inFlight > 0 then (s.(sendWaker := Some(waker)), FlushPending, false)
    else if s.closedWrite then (s, FlushReady, false)
    else if library.Unavailable? then (s, FlushFailed, false)
    else (s.(closedWrite := true), FlushReady, library.Accepts?)
  }

  // ---- the state in place -----------------------------------------------------

  class StreamShared {
    var recvBuf: Bytes
    var recvWaker: Option<Waker>
    var sendWaker: Option<Waker>
    var closedRead: bool
    var closedWrite: bool
    var inFlight: nat
    var error: Option<Error>

    function State(): Shared
      reads this
    {
      Shared(recvBuf, recvWaker, sendWaker, closedRead, closedWrite, inFlight, error)
    }

    constructor ()
      ensures State() == Fresh
    {
      recvBuf, recvWaker, sendWaker := [], None, None;
      closedRead, closedWrite, inFlight, error := false, false, 0, None;
    }

    method TakeRecvWaker() returns (woken: seq<Waker>)
      modifies this`recvWaker
      ensures recvWaker == None && woken == Listed(old(recvWaker))
    {
      woken := Listed(recvWaker);
      recvWaker := None;
    }

    method TakeSendWaker() returns (woken: seq<Waker>)
      modifies this`sendWaker
      ensures sendWaker == None && woken == Listed(old(sendWaker))
    {
      woken := Listed(sendWaker);
      sendWaker := None;
    }

    method OnEvent(e: Event) returns (woken: seq<Waker>)
      modifies this
      ensures (State(), woken) == Callback(old(State()), e)
    {
      woken := [];
      match e {
        case Receive(buffers) =>
          var i := 0;
          assert buffers[..0] == [];
          while i < |buffers|
            invariant i <= |buffers|
            invariant recvBuf == old(recvBuf) + Flatten(buffers[..i])
            invariant State() == old(State()).(recvBuf := recvBuf)
          {
            recvBuf := recvBuf + buffers[i];
            FlattenAppend(buffers[..i], buffers[i]);
            assert buffers[..i + 1] == buffers[..i] + [buffers[i]];
            i := i + 1;
          }
          assert buffers[..i] == buffers;
          woken := TakeRecvWaker();
        case SendComplete(data) =>
          if data.Some? {
            inFlight := SaturatingSub(inFlight, |data.value|);
          }
          woken := TakeSendWaker();
        case PeerSendShutdown =>
          closedRead := true;
          woken := TakeRecvWaker();
        case PeerReceiveAborted =>
          closedWrite := true;
          error := Some(Error.PeerAbortedReceive);
          woken := TakeSendWaker();
        case PeerSendAborted =>
          closedRead := true;
          error := Some(Error.PeerAbortedSend);
          woken := TakeRecvWaker();
        case ShutdownComplete =>
          closedRead := true;
          closedWrite := true;
          woken := TakeRecvWaker();
          var more := TakeSendWaker();
          woken := woken + more;
        case Unhandled =>
      }
    }

    method Read(waker: Waker, room: nat) returns (r: ReadPoll)
      modifies this
      ensures (State(), r) == PollRead(old(State()), waker, room)
    {
      if error.Some? {
        return ReadFailed(error.value);
      }
      if recvBuf != [] {
        var n := Min(room, |recvBuf|);
        r := ReadReady(recvBuf[..n]);
        recvBuf := recvBuf[n..];
        return;
      }
      if closedRead {
        return ReadReady([]);
      }
      recvWaker := Some(waker);
      r := ReadPending;
    }

    method Write(waker: Waker, buf: Bytes, library: Library) returns (r: WritePoll)
      modifies this
      ensures (State(), r) == PollWrite(old(State()), waker, buf, library)
    {
      if error.Some? {
        return WriteFailed(StreamError(error.value));
      }
      if closedWrite {
        return WriteFailed(ClosedForWriting);
      }
      if inFlight >= MAX_IN_FLIGHT_BYTES {
        sendWaker := Some(waker);
        return WritePending;
      }
      if buf == [] {
        return Wrote(0);
      }
      if library.Unavailable? || library.NoEntry? {
        return WriteFailed(LibraryMissing);
      }
      var length := Described(buf);
      inFlight := inFlight + length;
      if library.Refuses? {
        inFlight := SaturatingSub(inFlight, length);
        return WriteFailed(SendFailed);
      }
      r := Wrote(length);
    }

    method Flush(waker: Waker) returns (r: FlushPoll)
      modifies this
      ensures (State(), r) == PollFlush(old(State()), waker)
    {
      if inFlight > 0 {
        sendWaker := Some(waker);
        r := FlushPending;
      } else {
        r := FlushReady;
      }
    }

    method Shutdown(waker: Waker, library: Library) returns (r: FlushPoll, fin: bool)
      modifies this
      ensures (State(), r, fin) == PollShutdown(old(State()), waker, library)
    {
      fin := false;
      if inFlight > 0 {
        sendWaker := Some(waker);
        return FlushPending, fin;
      }
      if !closedWrite {
        if library.Unavailable? {
          return FlushFailed, fin;
        }
        fin := library.Accepts?;
        closedWrite := true;
      }
      r := FlushReady;
    }
  }
}
