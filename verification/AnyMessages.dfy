/**
  What a peer makes of control messages in any order, whatever the other side
  is: the two-peer theorems speak only of messages that a peer of this protocol
  sends when it should.
*/
module AnyMessages {
  import opened Common
  import opened ControlMessages
  import opened Coordination

  /** A peer after a series of control messages, without commands in between. */
  function After(hash: Hasher, p: Peer, ms: seq<ControlMessage>): Peer
    decreases |ms|
  {
    if ms == [] then p else After(hash, OnMessage(hash, p, ms[0]).state, ms[1..])
  }

  function Count<T>(o: Option<T>): nat {
    if o.Some? then 1 else 0
  }

  /** Go-aheads for the side that is not waiting for one, and reports, change nothing and are not answered. */
  lemma StrayIsIgnored(hash: Hasher, p: Peer, m: ControlMessage)
    requires (m.Ready? || m.ResumeReady?) ==> p.s.pending.None?
    requires (m.ResumeOk? || m.RestartFromZero?) ==> p.r.parked.None?
    requires !m.Metadata? && !m.FileSent? && !m.Pause? && !m.Resume? && !m.ReceivedFileFailed?
    ensures OnMessage(hash, p, m) == Out(p, [])
  {
  }

  /** An offer to resume at 0 is a READY, whatever fingerprint comes with it. */
  lemma ResumeFromZeroIsReady(hash: Hasher, p: Peer, prefix: Option<string>)
    ensures OnMessage(hash, p, ResumeReady(0, prefix)) == OnMessage(hash, p, Ready)
  {
  }

  /** Nothing but RECEIVED_FILE:FAILED cancels a peer, and nothing undoes it. */
  lemma {:induction false} CancelledExactly(hash: Hasher, p: Peer, ms: seq<ControlMessage>)
    ensures After(hash, p, ms).cancelled <==> p.cancelled || ReceivedFileFailed in ms
    decreases |ms|
  {
    if ms != [] {
      CancelledExactly(hash, OnMessage(hash, p, ms[0]).state, ms[1..]);
      hide OnSenderMessage, OnReceiverMessage;
      assert ms == [ms[0]] + ms[1..];
    }
  }

  // ---- the sending side ---------------------------------------------------

  /** An offset at which the messages justify sending `job`: 0, or one that came with its fingerprint. */
  ghost predicate Justified(hash: Hasher, ms: seq<ControlMessage>, job: Job, offset: nat) {
    offset == 0 ||
    exists i :: 0 <= i < |ms| && ms[i] == ResumeReady(offset, Some(hash(job.content[..Min(|job.content|, 65536)])))
  }

  /**
    Whatever messages arrive, each `SendFile` is sent at most once, and exactly
    what was asked for; from another offset than 0 only with the right
    fingerprint.
  */
  lemma {:induction false} SentOnce(hash: Hasher, p: Peer, ms: seq<ControlMessage>)
    ensures var s, s' := p.s, After(hash, p, ms).s;
      |s'.triggers| + Count(s'.pending) == |s.triggers| + Count(s.pending) && IsPrefix(s.triggers, s'.triggers) &&
      (s'.pending.Some? ==> s'.pending == s.pending) &&
      (|s'.triggers| > |s.triggers| ==>
         s.pending.Some? && s'.triggers[|s.triggers|].0 == s.pending.value &&
         Justified(hash, ms, s.pending.value, s'.triggers[|s.triggers|].1))
    decreases |ms|
  {
    if ms != [] {
      var q := OnMessage(hash, p, ms[0]).state;
      var last := After(hash, q, ms[1..]).s;
      SentOnce(hash, q, ms[1..]);
      hide HandleAccept, OnReceiverMessage;
      if p.s.pending.Some? && q.s.pending.Some? {
        assert q.s == p.s;
        if |last.triggers| > |p.s.triggers| {
          LaterJustified(hash, ms, p.s.pending.value, last.triggers[|p.s.triggers|].1);
        }
      } else if p.s.pending.Some? {
        assert last.triggers == q.s.triggers;
      }
    }
  }

  lemma LaterJustified(hash: Hasher, ms: seq<ControlMessage>, job: Job, offset: nat)
    requires ms != [] && Justified(hash, ms[1..], job, offset)
    ensures Justified(hash, ms, job, offset)
  {
    var m := ResumeReady(offset, Some(hash(job.content[..Min(|job.content|, 65536)])));
    if offset != 0 {
      var i :| 0 <= i < |ms[1..]| && ms[1..][i] == m;
      assert ms[i + 1] == m;
    }
  }

  // ---- the receiving side -------------------------------------------------

  /** Where nothing was accepted, no message creates, changes or starts to receive a file. */
  lemma {:induction false} NothingUnasked(hash: Hasher, p: Peer, ms: seq<ControlMessage>)
    requires p.r.accept.None? && p.r.parked.None?
    ensures var r, r' := p.r, After(hash, p, ms).r;
      r'.files == r.files && r'.triggers == r.triggers && r'.task == r.task && r'.accept.None? && r'.parked.None?
    decreases |ms|
  {
    if ms != [] {
      NothingUnasked(hash, OnMessage(hash, p, ms[0]).state, ms[1..]);
      hide HandleAccept, OnSenderMessage;
    }
  }

  function Waiting(r: Receiver): nat {
    |r.triggers| + Count(r.parked) + Count(r.accept)
  }

  lemma AcceptedOnce(hash: Hasher, r: Receiver, a: Accept, o: Offer)
    ensures var r' := HandleAccept(hash, r, a, o).state;
      r'.accept == r.accept && |r'.triggers| + Count(r'.parked) <= |r.triggers| + Count(r.parked) + 1 &&
      IsPrefix(r.triggers, r'.triggers)
  {
    hide AlignedOffset, PrefixHash, DestPath, PartPath;
  }

  lemma MessageStartsNoMore(hash: Hasher, p: Peer, m: ControlMessage)
    ensures var r' := OnMessage(hash, p, m).state.r; Waiting(r') <= Waiting(p.r) && IsPrefix(p.r.triggers, r'.triggers)
  {
    hide HandleAccept, OnSenderMessage;
    if m.Metadata? && p.r.accept.Some? {
      AcceptedOnce(hash, p.r.(accept := None, offered := None, offeredResume := m.resume), p.r.accept.value,
                   Offer(m.fileName, m.fileSize));
    }
  }

  /** One acceptance is used for at most one file: it starts at most one reception. */
  lemma {:induction false} ReceivedOnce(hash: Hasher, p: Peer, ms: seq<ControlMessage>)
    ensures var r' := After(hash, p, ms).r; Waiting(r') <= Waiting(p.r) && IsPrefix(p.r.triggers, r'.triggers)
    decreases |ms|
  {
    hide OnMessage, Waiting;
    if ms != [] {
      var q := OnMessage(hash, p, ms[0]).state;
      MessageStartsNoMore(hash, p, ms[0]);
      ReceivedOnce(hash, q, ms[1..]);
      assert After(hash, p, ms).r.triggers[..|q.r.triggers|][..|p.r.triggers|] == p.r.triggers;
    }
  }

  /** An offer and an acceptance that meet, in either order, are both used up. */
  lemma MetIsUsedUp(hash: Hasher, r: Receiver, a: Accept, m: ControlMessage)
    requires m.Metadata?
    ensures r.accept.Some? ==> var r' := OnReceiverMessage(hash, r, m).state; r'.accept.None? && r'.offered.None?
    ensures r.offered.Some? ==> var r' := AcceptFile(hash, r, a).state; r'.accept == r.accept && r'.offered.None?
  {
    hide AlignedOffset, PrefixHash, PartPath, DestPath;
  }

  /**
    Whatever went before: an acceptance, and a RESTART_FROM_ZERO after it, touch
    no file but the part file of the accepted name, and that only from 20 MiB on.
  */
  lemma OnlyPartFileIsTouched(hash: Hasher, r: Receiver, a: Accept, o: Offer)
    ensures var met := HandleAccept(hash, r, a, o).state;
      var restarted := OnReceiverMessage(hash, met, RestartFromZero).state;
      var part := a.dir + "/" + o.name + ".quic-part";
      met.files - {part} == r.files - {part} == restarted.files - {part} &&
      (o.size < 20971520 ==> met.files == restarted.files == r.files) &&
      (o.size >= 20971520 && met.parked.Some? ==> restarted.files == met.files[part := []])
  {
    hide AlignedOffset, PrefixHash;
    var part := PartPath(DestPath(a.dir, o.name));
    assert part == a.dir + "/" + o.name + ".quic-part";
    hide PartPath, DestPath;
  }
}
