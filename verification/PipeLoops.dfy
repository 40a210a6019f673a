/**
  The two copy loops of `run_pipe` as they are written, over reads that return
  as many bytes as they like, with cancellation and I/O errors.
*/
module PipeLoops {
  import opened Common
  import opened Pipe

  /** Something to read from, which counts the reads that brought bytes. It can fail only if it is `faulty`. */
  class Reader {
    var bytes: Bytes
    var served: nat
    const faulty: bool

    constructor (bytes: Bytes, faulty: bool)
      ensures this.bytes == bytes && served == 0 && this.faulty == faulty
    {
      this.bytes, served, this.faulty := bytes, 0, faulty;
    }

    /** Nothing on an error, no bytes at the end. */
    method Read(room: nat) returns (r: Option<Bytes>)
      requires room > 0
      modifies this
      ensures r.None? ==> faulty && bytes == old(bytes)
      ensures served == old(served) + if r.Some? && r.value != [] then 1 else 0
      ensures r.Some? ==> r.value + bytes == old(bytes) && |r.value| <= room && (r.value == [] <==> old(bytes) == [])
    {
      var fails: bool := *;
      if faulty && fails {
        return None;
      }
      if bytes == [] {
        return Some([]);
      }
      var n :| 1 <= n <= room && n <= |bytes|;
      r := Some(bytes[..n]);
      bytes, served := bytes[n..], served + 1;
    }
  }

  /** Something to write to. A write can fail, after any part of the data, only if it is `faulty`. */
  class Writer {
    var bytes: Bytes
    var finished: bool
    const faulty: bool

    constructor (faulty: bool)
      ensures bytes == [] && !finished && this.faulty == faulty
    {
      bytes, finished, this.faulty := [], false, faulty;
    }

    method WriteAll(data: Bytes) returns (ok: bool)
      modifies this`bytes
      ensures ok ==> bytes == old(bytes) + data
      ensures !ok ==> faulty && IsPrefix(old(bytes), bytes) && IsPrefix(bytes[|old(bytes)|..], data)
    {
      var fails: bool := *;
      ok := !(faulty && fails);
      if ok {
        bytes := bytes + data;
      } else {
        var n :| 0 <= n <= |data|;
        bytes := bytes + data[..n];
      }
    }

    /** Flushing a local writer, or finishing the stream. */
    method Finish()
      modifies this`finished
      ensures finished
    {
      finished := true;
    }
  }

  /** Why a loop stopped. */
  datatype Ending = InputEnded | Cancelled | ReadFailed | WriteFailed

  /**
    What a loop may claim of the bytes it was to copy, the bytes it wrote, the
    bytes its digest covers and its count. Only after a failed write may these
    differ, by less than a buffer.
  */
  predicate Copied(total: Bytes, written: Bytes, hashed: Bytes, count: nat, ending: Ending) {
    IsPrefix(hashed, total) && IsPrefix(written, hashed) && count <= |written| &&
    match ending
    case InputEnded => written == hashed == total && count == |total|
    case WriteFailed => |hashed| <= count + PIPE_BUFFER_SIZE
    case _ => written == hashed && count == |written|
  }

  function Digest(hash: Bytes -> Bytes, computeHash: bool, hashed: Bytes): Option<Bytes> {
    if computeHash then Some(hash(hashed)) else None
  }

  /**
    Where a loop stops that finds the token cancelled after `cancelAfter` whole
    turns, having made `turns` of them: never beyond that turn, which alone ends
    it by cancellation. A turn is one of the `served` reads and moves at least one byte
    and at most a buffer; only a failed write leaves a read without its turn.
  */
  predicate StopsInTime(total: Bytes, left: Bytes, served: int, hashed: Bytes, count: nat, turns: nat,
                        cancelAfter: Option<nat>, ending: Ending) {
    hashed + left == total && turns <= count <= turns * PIPE_BUFFER_SIZE &&
    served == turns + (if ending.WriteFailed? then 1 else 0) &&
    (ending.Cancelled? ==> cancelAfter == Some(turns)) &&
    (!ending.Cancelled? && cancelAfter.Some? ==> turns < cancelAfter.value) &&
    (cancelAfter.Some? ==> |hashed| <= cancelAfter.value * PIPE_BUFFER_SIZE)
  }

  /** `cancelAfter` is the number of turns after which the token is found cancelled. */
  method CopyLoop(reader: Reader, writer: Writer, cancelAfter: Option<nat>)
    returns (count: nat, hashed: Bytes, ending: Ending, ghost turns: nat)
    modifies reader, writer`bytes
    ensures IsPrefix(old(writer.bytes), writer.bytes)
    ensures Copied(old(reader.bytes), writer.bytes[|old(writer.bytes)|..], hashed, count, ending)
    ensures StopsInTime(old(reader.bytes), reader.bytes, reader.served - old(reader.served), hashed, count, turns,
                        cancelAfter, ending)
    ensures cancelAfter == Some(0) ==>
      ending.Cancelled? && reader.bytes == old(reader.bytes) && writer.bytes == old(writer.bytes)
    ensures !reader.faulty && !writer.faulty ==> (ending.Cancelled? <==> cancelAfter == Some(turns))
    ensures ending.ReadFailed? ==> reader.faulty
    ensures ending.WriteFailed? ==> writer.faulty
  {
    count, hashed := 0, [];
    hide Copied, StopsInTime;
    var made := 0;
    while true
      invariant hashed + reader.bytes == old(reader.bytes) && count == |hashed|
      invariant writer.bytes == old(writer.bytes) + hashed
      invariant reader.served == old(reader.served) + made
      invariant made <= count <= made * PIPE_BUFFER_SIZE && (cancelAfter.Some? ==> made <= cancelAfter.value)
      decreases |reader.bytes|
    {
      ghost var total, left, served := old(reader.bytes), reader.bytes, reader.served - old(reader.served);
      Whole(old(writer.bytes), hashed);
      WrittenAll(total, hashed, left, Cancelled);
      WrittenAll(total, hashed, left, ReadFailed);
      if cancelAfter == Some(made) {
        Stops(total, left, served, hashed, count, made, cancelAfter, Cancelled);
        return count, hashed, Cancelled, made;
      }
      MoreTurns(made, cancelAfter);
      var chunk := reader.Read(PIPE_BUFFER_SIZE);
      if chunk.None? {
        Stops(total, left, served, hashed, count, made, cancelAfter, ReadFailed);
        return count, hashed, ReadFailed, made;
      }
      if chunk.value == [] {
        assert hashed == total;
        WrittenAll(total, hashed, [], InputEnded);
        Stops(total, [], served, hashed, count, made, cancelAfter, InputEnded);
        return count, hashed, InputEnded, made;
      }
      ghost var before := hashed;
      hashed := hashed + chunk.value;
      var ok := writer.WriteAll(chunk.value);
      if !ok {
        WrittenPartly(total, old(writer.bytes), writer.bytes, before, chunk.value, reader.bytes);
        Stops(total, reader.bytes, served + 1, hashed, count, made, cancelAfter, WriteFailed);
        return count, hashed, WriteFailed, made;
      }
      count := count + |chunk.value|;
      made := made + 1;
    }
  }

  lemma Whole(before: Bytes, hashed: Bytes)
    ensures (before + hashed)[|before|..] == hashed && IsPrefix(before, before + hashed)
  {
  }

  lemma WrittenAll(total: Bytes, hashed: Bytes, left: Bytes, ending: Ending)
    requires hashed + left == total && !ending.WriteFailed? && (ending.InputEnded? ==> left == [])
    ensures Copied(total, hashed, hashed, |hashed|, ending)
  {
  }

  lemma WrittenPartly(total: Bytes, before: Bytes, now: Bytes, hashed: Bytes, chunk: Bytes, left: Bytes)
    requires hashed + chunk + left == total && |chunk| <= PIPE_BUFFER_SIZE
    requires IsPrefix(before + hashed, now) && IsPrefix(now[|before + hashed|..], chunk)
    ensures IsPrefix(before, now) && Copied(total, now[|before|..], hashed + chunk, |hashed|, WriteFailed)
  {
    var written := now[|before|..];
    assert written == hashed + now[|before + hashed|..];
    assert now[..|before|] == now[..|before + hashed|][..|before|];
  }

  lemma Stops(total: Bytes, left: Bytes, served: int, hashed: Bytes, count: nat, made: nat, cancelAfter: Option<nat>,
              ending: Ending)
    requires hashed + left == total && made <= count <= made * PIPE_BUFFER_SIZE
    requires served == made + if ending.WriteFailed? then 1 else 0
    requires cancelAfter.Some? ==> made <= cancelAfter.value
    requires ending.Cancelled? <==> cancelAfter == Some(made)
    requires count <= |hashed| <= count + if ending.WriteFailed? then PIPE_BUFFER_SIZE else 0
    ensures StopsInTime(total, left, served, hashed, count, made, cancelAfter, ending)
  {
    MoreTurns(made, cancelAfter);
  }

  lemma MoreTurns(made: nat, cancelAfter: Option<nat>)
    ensures (made + 1) * PIPE_BUFFER_SIZE == made * PIPE_BUFFER_SIZE + PIPE_BUFFER_SIZE
    ensures cancelAfter.Some? && made < cancelAfter.value ==>
      (made + 1) * PIPE_BUFFER_SIZE <= cancelAfter.value * PIPE_BUFFER_SIZE
  {
  }

  /** With more than `k` buffers to copy, a loop that is to stop after `k` turns does not reach the end. */
  lemma NeverPastTheToken(total: Bytes, written: Bytes, left: Bytes, served: int, hashed: Bytes, count: nat,
                          turns: nat, k: nat, ending: Ending)
    requires Copied(total, written, hashed, count, ending) && |total| > k * PIPE_BUFFER_SIZE
    requires StopsInTime(total, left, served, hashed, count, turns, Some(k), ending)
    ensures !ending.InputEnded? && left != [] && served <= k
  {
    assert |hashed| + |left| == |total|;
    if turns < k { MoreTurns(turns, Some(k)); }
  }

  /** Input to stream. However the loop stops, the stream is finished after it. */
  method SendTask(hash: Bytes -> Bytes, computeHash: bool, input: Option<Reader>, stream: Writer,
                  cancelAfter: Option<nat>)
    returns (bytesSent: nat, sentHash: Option<Bytes>, ending: Ending, ghost hashed: Bytes, ghost turns: nat)
    modifies stream, if input.Some? then {input.value} else {}
    ensures stream.finished && IsPrefix(old(stream.bytes), stream.bytes)
    ensures Copied(if input.Some? then old(input.value.bytes) else [], stream.bytes[|old(stream.bytes)|..],
                   hashed, bytesSent, ending)
    ensures input.Some? ==>
      StopsInTime(old(input.value.bytes), input.value.bytes, input.value.served - old(input.value.served), hashed,
                  bytesSent, turns, cancelAfter, ending)
    ensures input.Some? && cancelAfter == Some(0) ==>
      ending.Cancelled? && input.value.bytes == old(input.value.bytes) && stream.bytes == old(stream.bytes)
    ensures input.Some? && !input.value.faulty && !stream.faulty ==> (ending.Cancelled? <==> cancelAfter == Some(turns))
    ensures sentHash == Digest(hash, computeHash, hashed)
    ensures cancelAfter.None? && !stream.faulty && (input.Some? ==> !input.value.faulty) ==> ending.InputEnded?
  {
    var covered: Bytes := [];
    bytesSent, ending, turns := 0, InputEnded, 0;
    if input.Some? {
      bytesSent, covered, ending, turns := CopyLoop(input.value, stream, cancelAfter);
    }
    stream.Finish();
    sentHash := Digest(hash, computeHash, covered);
    hashed := covered;
  }

  /** Stream to output. With no output nothing is read. */
  method ReceiveTask(hash: Bytes -> Bytes, computeHash: bool, stream: Reader, output: Option<Writer>,
                     cancelAfter: Option<nat>)
    returns (bytesReceived: nat, receivedHash: Option<Bytes>, ending: Ending, ghost hashed: Bytes, ghost turns: nat)
    modifies stream, if output.Some? then {output.value} else {}
    ensures output.None? ==> bytesReceived == 0 && stream.bytes == old(stream.bytes)
    ensures output.Some? ==>
      output.value.finished && IsPrefix(old(output.value.bytes), output.value.bytes) &&
      Copied(old(stream.bytes), output.value.bytes[|old(output.value.bytes)|..], hashed, bytesReceived, ending)
    ensures output.Some? ==>
      StopsInTime(old(stream.bytes), stream.bytes, stream.served - old(stream.served), hashed, bytesReceived, turns,
                  cancelAfter, ending)
    ensures output.Some? && cancelAfter == Some(0) ==>
      ending.Cancelled? && stream.bytes == old(stream.bytes) && output.value.bytes == old(output.value.bytes)
    ensures output.Some? && !output.value.faulty && !stream.faulty ==>
      (ending.Cancelled? <==> cancelAfter == Some(turns))
    ensures receivedHash == Digest(hash, computeHash, hashed)
    ensures cancelAfter.None? && !stream.faulty && (output.Some? ==> !output.value.faulty) ==> ending.InputEnded?
  {
    var covered: Bytes := [];
    bytesReceived, ending, turns := 0, InputEnded, 0;
    if output.Some? {
      bytesReceived, covered, ending, turns := CopyLoop(stream, output.value, cancelAfter);
      output.value.Finish();
    }
    receivedHash := Digest(hash, computeHash, covered);
    hashed := covered;
  }
}
