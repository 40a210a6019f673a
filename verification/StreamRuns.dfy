/**
  What holds of one stream over every sequence of callbacks and polls: no lost
  wakeup, bytes in order, and when exactly the in-flight count is right.
*/
module StreamRuns {
  import opened Common
  import opened StreamAdapter

  /**
    The shared state together with what has happened: the sends that the
    library has taken and not completed (`outstanding`, with all their data),
    the bytes described to it in order (`handed`), the bytes its callbacks
    brought (`received`), those that reads returned (`read`), and whether it was
    told to finish.
  */
  datatype World = World(shared: Shared, outstanding: seq<Bytes>, handed: Bytes, received: Bytes, read: Bytes,
                         fins: nat)

  const Start := World(Fresh, [], [], [], [], 0)

  /** A send completes once, in any order. Other events and polls come at any time. */
  datatype Act =
    | On(event: Event)
    | Complete(index: nat)
    | Read(waker: Waker, room: nat)
    | Write(waker: Waker, buf: Bytes, library: Library)
    | Flush(waker: Waker)
    | Shutdown(waker: Waker, library: Library)

  predicate Enabled(w: World, a: Act) {
    match a
    case On(event) => event.SendComplete? ==> event.data.None?
    case Complete(index) => index < |w.outstanding|
    case _ => true
  }

  function Without(sends: seq<Bytes>, index: nat): seq<Bytes>
    requires index < |sends|
  {
    sends[..index] + sends[index + 1..]
  }

  /** The event that an act is, if it is one. */
  function EventOf(w: World, a: Act): Option<Event>
    requires Enabled(w, a)
  {
    match a
    case On(event) => Some(event)
    case Complete(index) => Some(SendComplete(Some(w.outstanding[index])))
    case _ => None
  }

  function Do(w: World, a: Act): World
    requires Enabled(w, a)
  {
    match a
    case On(event) =>
      w.(shared := Callback(w.shared, event).0,
         received := if event.Receive? then w.received + Flatten(event.buffers) else w.received)
    case Complete(index) =>
      w.(shared := Callback(w.shared, SendComplete(Some(w.outstanding[index]))).0,
         outstanding := Without(w.outstanding, index))
    case Read(waker, room) =>
      var (s, r) := PollRead(w.shared, waker, room);
      w.(shared := s, read := if r.ReadReady? then w.read + r.data else w.read)
    case Write(waker, buf, library) =>
      var (s, r) := PollWrite(w.shared, waker, buf, library);
      if r.Wrote? && buf != [] then w.(shared := s, outstanding := w.outstanding + [buf],
                                       handed := w.handed + buf[..r.count])
      else w.(shared := s)
    case Flush(waker) => w.(shared := PollFlush(w.shared, waker).0)
    case Shutdown(waker, library) =>
      var (s, _, fin) := PollShutdown(w.shared, waker, library);
      w.(shared := s, fins := if fin then w.fins + 1 else w.fins)
  }

  /** The wakers that an act wakes. */
  function Woken(w: World, a: Act): seq<Waker>
    requires Enabled(w, a)
  {
    var e := EventOf(w, a);
    if e.Some? then Callback(w.shared, e.value).1 else []
  }

  predicate Runs(w: World, acts: seq<Act>)
    decreases |acts|
  {
    acts == [] || (Enabled(w, acts[0]) && Runs(Do(w, acts[0]), acts[1..]))
  }

  function After(w: World, acts: seq<Act>): World
    requires Runs(w, acts)
    decreases |acts|
  {
    if acts == [] then w else After(Do(w, acts[0]), acts[1..])
  }

  // ---- totals over the outstanding sends --------------------------------------

  function Total(sends: seq<Bytes>): nat {
    if sends == [] then 0 else Total(sends[..|sends| - 1]) + |sends[|sends| - 1]|
  }

  function DescribedTotal(sends: seq<Bytes>): nat {
    if sends == [] then 0 else DescribedTotal(sends[..|sends| - 1]) + Described(sends[|sends| - 1])
  }

  lemma {:induction false} TotalsWithout(sends: seq<Bytes>, index: nat)
    requires index < |sends|
    ensures Total(Without(sends, index)) + |sends[index]| == Total(sends)
    ensures DescribedTotal(Without(sends, index)) + Described(sends[index]) == DescribedTotal(sends)
  {
    var n := |sends| - 1;
    if index < n {
      TotalsWithout(sends[..n], index);
      assert Without(sends, index)[..n - 1] == Without(sends[..n], index);
      assert Without(sends, index)[n - 1] == sends[n];
    } else {
      assert Without(sends, index) == sends[..n];
    }
  }

  lemma TotalsSnoc(sends: seq<Bytes>, buf: Bytes)
    ensures Total(sends + [buf]) == Total(sends) + |buf|
    ensures DescribedTotal(sends + [buf]) == DescribedTotal(sends) + Described(buf)
  {
    assert (sends + [buf])[..|sends|] == sends;
  }

  // ---- no lost wakeup ---------------------------------------------------------

  /**
    A registered read waker has nothing to read and no end of stream to see; a
    registered write waker has a send whose completion will wake it.
  */
  predicate WakersAwaited(w: World) {
    (w.shared.recvWaker.Some? ==> w.shared.recvBuf == [] && !w.shared.closedRead) &&
    (w.shared.sendWaker.Some? ==> w.outstanding != [])
  }

  /** Every byte received is read or waiting, in order; the count never exceeds what is described. */
  predicate Kept(w: World) {
    WakersAwaited(w) &&
    w.read + w.shared.recvBuf == w.received &&
    w.shared.inFlight <= DescribedTotal(w.outstanding) &&
    (forall i :: 0 <= i < |w.outstanding| ==> w.outstanding[i] != []) &&
    w.fins <= (if w.shared.closedWrite then 1 else 0)
  }

  lemma KeptByCompletion(w: World, index: nat)
    requires Kept(w) && index < |w.outstanding|
    ensures Kept(Do(w, Complete(index)))
  {
    TotalsWithout(w.outstanding, index);
  }

  lemma KeptByWrite(w: World, a: Act)
    requires Kept(w) && a.Write?
    ensures Kept(Do(w, a))
  {
    hide DescribedTotal, Described, Kept, PollWrite;
    var (s, r) := PollWrite(w.shared, a.waker, a.buf, a.library);
    WriteOutcome(w.shared, a.waker, a.buf, a.library);
    if r.Wrote? && a.buf != [] {
      KeptWhenSent(w, s, a.buf, a.buf[..r.count]);
    } else {
      KeptWhenNotSent(w, s);
    }
  }

  /** A write adds to the count what it hands over, and nothing otherwise; it registers a waker at a full count only. */
  lemma WriteOutcome(s: Shared, waker: Waker, buf: Bytes, library: Library)
    ensures var (s', r) := PollWrite(s, waker, buf, library);
      s' == s.(sendWaker := s'.sendWaker, inFlight := s'.inFlight) &&
      s'.inFlight == s.inFlight + (if r.Wrote? && buf != [] then Described(buf) else 0) &&
      (s'.sendWaker == s.sendWaker || s.inFlight > 0) &&
      (r.Wrote? ==> r.count <= |buf|)
  {
  }

  lemma KeptWhenSent(w: World, s: Shared, buf: Bytes, data: Bytes)
    requires Kept(w) && buf != []
    requires s == w.shared.(sendWaker := s.sendWaker, inFlight := w.shared.inFlight + Described(buf))
    ensures Kept(w.(shared := s, outstanding := w.outstanding + [buf], handed := w.handed + data))
  {
    TotalsSnoc(w.outstanding, buf);
    hide DescribedTotal, Total, Described;
  }

  lemma KeptWhenNotSent(w: World, s: Shared)
    requires Kept(w) && s == w.shared.(sendWaker := s.sendWaker)
    requires s.sendWaker == w.shared.sendWaker || w.shared.inFlight > 0
    ensures Kept(w.(shared := s))
  {
    if w.outstanding == [] { assert DescribedTotal(w.outstanding) == 0; }
    hide DescribedTotal, Described;
  }

  lemma KeptByEvent(w: World, event: Event)
    requires Kept(w) && Enabled(w, On(event))
    ensures Kept(Do(w, On(event)))
  {
    hide DescribedTotal;
    if event.Receive? {
      assert w.read + (w.shared.recvBuf + Flatten(event.buffers)) == w.received + Flatten(event.buffers);
    }
  }

  lemma KeptByRead(w: World, a: Act)
    requires Kept(w) && a.Read?
    ensures Kept(Do(w, a))
  {
    hide DescribedTotal;
  }

  lemma KeptByStep(w: World, a: Act)
    requires Kept(w) && Enabled(w, a)
    ensures Kept(Do(w, a))
  {
    if w.outstanding == [] { assert DescribedTotal(w.outstanding) == 0; }
    hide DescribedTotal;
    match a
    case Complete(index) => KeptByCompletion(w, index);
    case Write(_, _, _) => KeptByWrite(w, a);
    case On(event) => KeptByEvent(w, event);
    case Read(_, _) => KeptByRead(w, a);
    case _ =>
  }

  lemma {:induction false} AlwaysKept(w: World, acts: seq<Act>)
    requires Kept(w) && Runs(w, acts)
    ensures Kept(After(w, acts))
    decreases |acts|
  {
    if acts != [] {
      KeptByStep(w, acts[0]);
      AlwaysKept(Do(w, acts[0]), acts[1..]);
    }
  }

  /** Over every sequence of callbacks and polls. */
  lemma NoLostWakeup(acts: seq<Act>)
    requires Runs(Start, acts)
    ensures WakersAwaited(After(Start, acts))
  {
    AlwaysKept(Start, acts);
  }

  /** What reads have returned, followed by the receive buffer, is what was received, in order. */
  lemma ReadsAreFifo(acts: seq<Act>)
    requires Runs(Start, acts)
    ensures var w := After(Start, acts); w.read + w.shared.recvBuf == w.received
    ensures After(Start, acts).fins <= 1
  {
    AlwaysKept(Start, acts);
  }

  predicate WriteHalf(a: Act) {
    a.Write? || a.Flush? || a.Shutdown?
  }

  /** A waker leaves its slot only by being woken or by a later poll of its own half. */
  lemma WakersAreNotDropped(w: World, a: Act)
    requires Enabled(w, a)
    ensures w.shared.recvWaker.Some? ==>
      Do(w, a).shared.recvWaker == w.shared.recvWaker || w.shared.recvWaker.value in Woken(w, a) || a.Read?
    ensures w.shared.sendWaker.Some? ==>
      Do(w, a).shared.sendWaker == w.shared.sendWaker || w.shared.sendWaker.value in Woken(w, a) || WriteHalf(a)
  {
  }

  /** Data, the end or abort of the peer's halves and a completed send each wake whoever waits for them. */
  lemma EventsWake(w: World, a: Act)
    requires Enabled(w, a)
    ensures a.On? && (a.event.Receive? || a.event.PeerSendShutdown? || a.event.PeerSendAborted? ||
                      a.event.ShutdownComplete?) ==>
      w.shared.recvWaker.Some? ==> w.shared.recvWaker.value in Woken(w, a)
    ensures a.Complete? || (a.On? && (a.event.PeerReceiveAborted? || a.event.ShutdownComplete?)) ==>
      w.shared.sendWaker.Some? ==> w.shared.sendWaker.value in Woken(w, a)
  {
  }

  // ---- the in-flight count ----------------------------------------------------

  /** The count is the total length of the accepted sends that have not completed. */
  predicate Accounted(w: World) {
    w.shared.inFlight == Total(w.outstanding)
  }

  /** The act is a write that is accepted although its length does not fit 32 bits. */
  predicate Oversized(w: World, a: Act) {
    a.Write? && PollWrite(w.shared, a.waker, a.buf, a.library).1.Wrote? && |a.buf| >= U32_LIMIT
  }

  predicate NeverOversized(w: World, acts: seq<Act>)
    requires Runs(w, acts)
    decreases |acts|
  {
    acts == [] || (!Oversized(w, acts[0]) && NeverOversized(Do(w, acts[0]), acts[1..]))
  }

  predicate AlwaysAccounted(w: World, acts: seq<Act>)
    requires Runs(w, acts)
    decreases |acts|
  {
    Accounted(w) && (acts == [] || AlwaysAccounted(Do(w, acts[0]), acts[1..]))
  }

  lemma AccountedByStep(w: World, a: Act)
    requires Accounted(w) && Enabled(w, a)
    ensures Accounted(Do(w, a)) <==> !Oversized(w, a)
  {
    hide Total;
    match a
    case Complete(index) => TotalsWithout(w.outstanding, index);
    case Write(_, _, _) => AccountedByWrite(w, a);
    case _ =>
  }

  lemma AccountedByWrite(w: World, a: Act)
    requires Accounted(w) && a.Write?
    ensures Accounted(Do(w, a)) <==> !Oversized(w, a)
  {
    TotalsSnoc(w.outstanding, a.buf);
    hide Total;
  }

  lemma {:induction false} AccountedIff(w: World, acts: seq<Act>)
    requires Accounted(w) && Runs(w, acts)
    ensures AlwaysAccounted(w, acts) <==> NeverOversized(w, acts)
    decreases |acts|
  {
    if acts != [] {
      AccountedByStep(w, acts[0]);
      if !Oversized(w, acts[0]) {
        AccountedIff(Do(w, acts[0]), acts[1..]);
      }
    }
  }

  /** The count is right throughout a run exactly when no accepted write is 2^32 bytes or longer. */
  lemma CountIsRight(acts: seq<Act>)
    requires Runs(Start, acts)
    ensures AlwaysAccounted(Start, acts) <==> NeverOversized(Start, acts)
  {
    AccountedIff(Start, acts);
  }

  lemma {:induction false} SmallWritesAreNeverOversized(w: World, acts: seq<Act>)
    requires Runs(w, acts) && WritesAtMost(acts, U32_LIMIT - 1)
    ensures NeverOversized(w, acts)
    decreases |acts|
  {
    if acts != [] {
      assert !Oversized(w, acts[0]);
      hide Oversized, Do, Enabled;
      SmallWritesAreNeverOversized(Do(w, acts[0]), acts[1..]);
    }
  }

  /** What a caller can see to: writes that are all shorter than 2^32 bytes keep the count right. */
  lemma SmallWritesKeepCount(acts: seq<Act>)
    requires Runs(Start, acts) && WritesAtMost(acts, U32_LIMIT - 1)
    ensures AlwaysAccounted(Start, acts)
  {
    SmallWritesAreNeverOversized(Start, acts);
    CountIsRight(acts);
  }

  lemma {:induction false} AccountedAtEnd(w: World, acts: seq<Act>)
    requires Runs(w, acts) && AlwaysAccounted(w, acts)
    ensures Accounted(After(w, acts))
    decreases |acts|
  {
    if acts != [] { AccountedAtEnd(Do(w, acts[0]), acts[1..]); }
  }

  /** Flushing and shutting down are done exactly when nothing is outstanding. */
  lemma ReadyMeansDrained(acts: seq<Act>, waker: Waker, library: Library)
    requires Runs(Start, acts) && NeverOversized(Start, acts)
    ensures var w := After(Start, acts);
      (PollFlush(w.shared, waker).1.FlushReady? <==> w.outstanding == []) &&
      (PollShutdown(w.shared, waker, library).1.FlushPending? <==> w.outstanding != [])
  {
    CountIsRight(acts);
    AccountedAtEnd(Start, acts);
    AlwaysKept(Start, acts);
    var w := After(Start, acts);
    if w.outstanding != [] {
      assert w.outstanding[|w.outstanding| - 1] != [];
    }
  }

  /** Every write offered is at most `limit` bytes long. */
  predicate WritesAtMost(acts: seq<Act>, limit: nat) {
    forall i :: 0 <= i < |acts| && acts[i].Write? ==> |acts[i].buf| <= limit
  }

  lemma {:induction false} CountStaysBelow(w: World, acts: seq<Act>, limit: nat)
    requires Runs(w, acts) && WritesAtMost(acts, limit) && w.shared.inFlight < MAX_IN_FLIGHT_BYTES + limit
    ensures After(w, acts).shared.inFlight < MAX_IN_FLIGHT_BYTES + limit
    decreases |acts|
  {
    if acts != [] {
      CountStaysBelow(Do(w, acts[0]), acts[1..], limit);
    }
  }

  /** Never more than 16 MiB and one buffer are counted. */
  lemma CountIsBounded(acts: seq<Act>, limit: nat)
    requires Runs(Start, acts) && WritesAtMost(acts, limit)
    ensures After(Start, acts).shared.inFlight < MAX_IN_FLIGHT_BYTES + limit
  {
    CountStaysBelow(Start, acts, limit);
  }

  /** So a right count never saturates when a send completes. */
  lemma NeverSaturates(w: World, index: nat)
    requires Accounted(w) && index < |w.outstanding|
    ensures w.shared.inFlight >= |w.outstanding[index]|
  {
    TotalsWithout(w.outstanding, index);
  }

  /**
    The failing case: a write of 2^32 bytes is taken by the library, reported as
    zero bytes written and counted as nothing in flight, so that flushing is
    done while it is outstanding.
  */
  lemma TruncatedWrite(waker: Waker, buf: Bytes)
    requires |buf| == 4294967296
    ensures var w := Do(Start, Write(waker, buf, Accepts));
      PollWrite(Fresh, waker, buf, Accepts).1 == Wrote(0) && w.outstanding == [buf] && w.shared.inFlight == 0 &&
      PollFlush(w.shared, waker).1.FlushReady? && !Accounted(w)
  {
    var w := Do(Start, Write(waker, buf, Accepts));
    assert Total(w.outstanding) == Total([]) + |buf| by { TotalsSnoc([], buf); assert [] + [buf] == [buf]; }
  }
}
