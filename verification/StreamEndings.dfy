/**
  What the polls of a stream answer, told from the events that have occurred
  rather than from the flags that the callback keeps.
*/
module StreamEndings {
  import opened Common
  import opened StreamAdapter
  import opened StreamRuns

  /** The error that an event of the peer aborting one of its halves leaves behind. */
  function AbortOf(a: Act): Option<Error> {
    if a == On(PeerReceiveAborted) then Some(PeerAbortedReceive)
    else if a == On(PeerSendAborted) then Some(PeerAbortedSend)
    else None
  }

  /** The last abort of a run, if there was one. */
  function LastAbort(acts: seq<Act>): Option<Error> {
    if acts == [] then None
    else if LastAbort(acts[1..]).Some? then LastAbort(acts[1..])
    else AbortOf(acts[0])
  }

  /** The peer has finished sending, or the stream is gone. */
  predicate Ended(acts: seq<Act>) {
    On(PeerSendShutdown) in acts || On(ShutdownComplete) in acts
  }

  /** Some shutdown poll found nothing in flight, and the library there. */
  ghost predicate ShutDown(w: World, acts: seq<Act>)
    requires Runs(w, acts)
    decreases |acts|
  {
    acts != [] &&
    ((acts[0].Shutdown? && !acts[0].library.Unavailable? && w.shared.inFlight == 0) ||
     ShutDown(Do(w, acts[0]), acts[1..]))
  }

  lemma FlagsAfter(w: World, a: Act)
    requires Enabled(w, a)
    ensures var s := Do(w, a).shared;
      s.error == (if AbortOf(a).Some? then AbortOf(a) else w.shared.error) &&
      s.closedRead == (w.shared.closedRead || Ended([a]) || a == On(PeerSendAborted)) &&
      s.closedWrite == (w.shared.closedWrite || a == On(ShutdownComplete) || a == On(PeerReceiveAborted) ||
                        ShutDown(w, [a]))
  {
    assert [a][0] == a && [a][1..] == [];
  }

  lemma {:induction false} FlagsRecord(w: World, acts: seq<Act>)
    requires Runs(w, acts)
    ensures var s := After(w, acts).shared;
      s.error == (if LastAbort(acts).Some? then LastAbort(acts) else w.shared.error) &&
      s.closedRead == (w.shared.closedRead || Ended(acts) || On(PeerSendAborted) in acts) &&
      s.closedWrite == (w.shared.closedWrite || On(ShutdownComplete) in acts || On(PeerReceiveAborted) in acts ||
                        ShutDown(w, acts))
    decreases |acts|
  {
    if acts != [] {
      FlagsAfter(w, acts[0]);
      FlagsRecord(Do(w, acts[0]), acts[1..]);
      assert [acts[0]][1..] == [];
      assert acts == [acts[0]] + acts[1..];
      hide Do, Enabled;
    }
  }

  lemma {:induction false} NoAbort(acts: seq<Act>)
    ensures LastAbort(acts).None? <==> On(PeerReceiveAborted) !in acts && On(PeerSendAborted) !in acts
  {
    if acts != [] {
      NoAbort(acts[1..]);
      assert acts == [acts[0]] + acts[1..];
    }
  }

  /**
    What a read answers after any run. Once the peer has aborted either half it
    is that error and nothing else, however much is waiting. Otherwise it is the
    next bytes received, as many as there is room for; the end of the stream
    once all of them have been read and the peer is done; or nothing yet.
  */
  lemma ReadAnswers(acts: seq<Act>, waker: Waker, room: nat)
    requires Runs(Start, acts)
    ensures var w := After(Start, acts);
      |w.read| <= |w.received| &&
      PollRead(w.shared, waker, room).1 ==
      var waiting := w.received[|w.read|..];
      if LastAbort(acts).Some? then ReadFailed(LastAbort(acts).value)
      else if waiting != [] then ReadReady(waiting[..Min(room, |waiting|)])
      else if Ended(acts) then ReadReady([])
      else ReadPending
  {
    FlagsRecord(Start, acts);
    NoAbort(acts);
    AlwaysKept(Start, acts);
    var w := After(Start, acts);
    assert w.received[|w.read|..] == w.shared.recvBuf;
  }

  /** No read after an abort brings bytes or an end of file. */
  lemma AbortedIsNoEnd(acts: seq<Act>, waker: Waker, room: nat)
    requires Runs(Start, acts) && (On(PeerSendAborted) in acts || On(PeerReceiveAborted) in acts)
    ensures PollRead(After(Start, acts).shared, waker, room).1.ReadFailed?
    ensures Do(After(Start, acts), Read(waker, room)).read == After(Start, acts).read
  {
    NoAbort(acts);
    ReadAnswers(acts, waker, room);
  }

  /** A read with room that returns no bytes: the peer is done, nothing was aborted, everything has been read. */
  lemma EndIsTheEnd(acts: seq<Act>, waker: Waker, room: nat)
    requires Runs(Start, acts) && room > 0
    ensures PollRead(After(Start, acts).shared, waker, room).1 == ReadReady([]) <==>
      Ended(acts) && On(PeerSendAborted) !in acts && On(PeerReceiveAborted) !in acts &&
      After(Start, acts).read == After(Start, acts).received
  {
    NoAbort(acts);
    ReadAnswers(acts, waker, room);
    AlwaysKept(Start, acts);
    var w := After(Start, acts);
    assert w.read + w.shared.recvBuf == w.received;
    assert w.read + w.received[|w.read|..] == w.received;
  }

  /**
    What a write answers after any run: the last abort if there was one; closed
    once the stream was shut down from here or is gone; pending from 16 MiB in
    flight on; and otherwise what the library makes of it.
  */
  lemma WriteAnswers(acts: seq<Act>, waker: Waker, buf: Bytes, library: Library)
    requires Runs(Start, acts) && |buf| < U32_LIMIT
    ensures var w := After(Start, acts);
      PollWrite(w.shared, waker, buf, library).1 ==
      if LastAbort(acts).Some? then WriteFailed(StreamError(LastAbort(acts).value))
      else if On(ShutdownComplete) in acts || ShutDown(Start, acts) then WriteFailed(ClosedForWriting)
      else if w.shared.inFlight >= 16777216 then WritePending
      else if buf == [] then Wrote(0)
      else if library.Accepts? then Wrote(|buf|)
      else if library.Refuses? then WriteFailed(SendFailed)
      else WriteFailed(LibraryMissing)
  {
    FlagsRecord(Start, acts);
    NoAbort(acts);
  }

  /** Only an accepted write hands bytes over, and it hands over all of them. */
  lemma OnlyAcceptedIsSent(acts: seq<Act>, waker: Waker, buf: Bytes, library: Library)
    requires Runs(Start, acts) && 0 < |buf| < U32_LIMIT
    ensures var w := After(Start, acts); var w' := Do(w, Write(waker, buf, library));
      var sent := PollWrite(w.shared, waker, buf, library).1 == Wrote(|buf|);
      w'.outstanding == (if sent then w.outstanding + [buf] else w.outstanding) &&
      w'.handed == (if sent then w.handed + buf else w.handed) &&
      w'.shared.inFlight == w.shared.inFlight + (if sent then |buf| else 0)
  {
    WriteAnswers(acts, waker, buf, library);
    assert buf[..|buf|] == buf;
  }

  /** A poll that answers pending has left its waker for the events that end the wait. */
  lemma PendingIsRegistered(w: World, waker: Waker, room: nat, buf: Bytes, library: Library)
    ensures PollRead(w.shared, waker, room).1.ReadPending? ==>
      Do(w, Read(waker, room)).shared.recvWaker == Some(waker)
    ensures PollWrite(w.shared, waker, buf, library).1.WritePending? ==>
      Do(w, Write(waker, buf, library)).shared.sendWaker == Some(waker)
    ensures PollFlush(w.shared, waker).1.FlushPending? ==> Do(w, Flush(waker)).shared.sendWaker == Some(waker)
    ensures PollShutdown(w.shared, waker, library).1.FlushPending? ==>
      Do(w, Shutdown(waker, library)).shared.sendWaker == Some(waker)
  {
  }

  /** The half of the stream whose task an event concerns. */
  predicate WakesReader(a: Act) {
    a.On? && (a.event.Receive? || a.event.PeerSendShutdown? || a.event.PeerSendAborted? || a.event.ShutdownComplete?)
  }

  predicate WakesWriter(a: Act) {
    a.Complete? || (a.On? && (a.event.SendComplete? || a.event.PeerReceiveAborted? || a.event.ShutdownComplete?))
  }

  /** An event takes the wakers that it wakes, and no other: a task is woken once for each time it registers. */
  lemma WokenOnce(w: World, a: Act)
    requires Enabled(w, a) && EventOf(w, a).Some?
    ensures Woken(w, a) == (if WakesReader(a) then Listed(w.shared.recvWaker) else []) +
                           (if WakesWriter(a) then Listed(w.shared.sendWaker) else [])
    ensures Do(w, a).shared.recvWaker == if WakesReader(a) then None else w.shared.recvWaker
    ensures Do(w, a).shared.sendWaker == if WakesWriter(a) then None else w.shared.sendWaker
  {
  }
}
