# A verified model of the file-transfer core

This project models the parts of the repository that branch and keep state, and
proves what they promise. It is checked with `dafny verify dfyconfig.toml`.

**The two-peer file transfer** (`core/src/peer_generic.rs`, and its production
copy `core/src/peer.rs`). `Coordination` and `Tasks` say what one event of the
coordination loop and one iteration of a task loop do; the classes of `PeerLoop`
do the same to fields in place and are proved to agree, and `PeerRun` connects
two such objects and carries out whole runs with them. `AnyMessages` says what a
peer makes of any messages from any other side. `Transfer` runs one direction
(sending half, receiving half, a FIFO of control messages each way, the file
stream) in any interleaving; `TransferInvariant` describes every phase of an
offer and is kept by every step. On it rest integrity, agreement on offsets and
framing (`TransferSafety`), bounded buffers (`TaskLimits`), staged commit
(`TransferCommit`), kills and resumption (`TransferResume`) and progress
(`TransferProgress`). `Duplex` runs two complete peers that send to each other
at once, with pause and resume in the same control queues, and shows that each
direction of such a run is a run of `Transfer`, so that the theorems carry over
(`DuplexTheorems`). `DuplexSignals` says when a peer is cancelled or paused,
told from what it issued and heard, and what it no longer does then.

**The streamed directory protocol** (`core/src/directory.rs`). `DirectorySender`
defines the recursive walk, the greedy packs and the frames; `DirectoryReceiver`
defines what a byte stream does to a file system. `DirectorySenderLoop` and
`DirectoryReceiverLoop` are the loops themselves, with a stack of iterators,
fragmented reads and files changed in place, proved to compute those
definitions. `DirectoryRoundTrip` says exactly when a tree survives the trip,
`DirectorySafety` what any stream whatever can do and where, `DirectoryPacking`
what the packs satisfy, `DirectoryTotals` what the final numbers count. `Wire`,
`Paths`, `Utf8`, `FileSystem`, `DirectoryCodec` and `DirectoryAck` hold integers,
paths, texts, trees, frames and acknowledgements.

**The stream adapter and the pipe** (`core/src/msquic/stream.rs`,
`core/src/pipe.rs`). `StreamAdapter` holds the callback and the poll functions,
as functions and as methods on the shared fields; `StreamRuns` proves what holds
over every sequence of them, and `StreamEndings` what each poll answers, told
from the events alone. `Pipe` puts two adapters, a network and two copy
loops together, where a task that is pending runs again only when woken;
`PipeLoops` holds the loops with cancellation and errors.

**Smaller loops.** `Stun` (the attribute walk of `core/src/stun.rs` and the reply
of `scripts/stun_server.py`), `BitField` (the bit-field storage of
`core/src/msquic/linux_bindings.rs`) and `ControlCodec` (text and frames of
control messages, `core/src/types.rs`).

Assumptions, all of them parameters or preconditions of the theorems: a peer has
one unanswered `SendFile` per direction and one `AcceptFile` per offer; the
source file does not change during a transfer; a single read fills the
fingerprint buffer; a whole-file hash that is asked for succeeds; control frames
are delivered whole; hash functions are arbitrary, and where a statement says so
no other content has the digest of the file being sent; JSON text reads back as
written; a send that the library accepted completes exactly once; the file
system has no symlinks and nobody else changes it.

What the proofs brought to light:

- The in-flight count of a stream adds the length of a write cut to 32 bits and
  subtracts the full length when the send completes. The count is right exactly
  as long as no single write reaches 2^32 bytes; such a write also reports its
  length modulo 2^32 as written (`StreamRuns.CountIsRight`, `StreamRuns.TruncatedWrite`).
- A directory does not survive the trip if an entry named like a file's staging
  file is listed before that file: the entry is overwritten and renamed away, or
  the transfer fails (`DirectoryRoundTrip.StagingNameListedFirst`). Listed after
  the file it is safe. A backslash in a name is rewritten to a slash by the
  sender, although the receiver's check of paths is described as rejecting it:
  `x\y` is sent, accepted and stored as `y` in a directory `x`
  (`DirectoryRoundTrip.BackslashArrivesElsewhere`). Nothing else goes wrong
  (`DirectoryRoundTrip.RoundTrip`).
- The destination of a file of 20 MiB or more keeps its old content until it is
  the complete file, except when both sides resume, there is no part file and
  the destination has the announced size with another fingerprint. Then, and
  only then, it is restarted in place: it is emptied before a new byte has
  arrived, and an empty part file appears (`TransferCommit.StagedExactly`,
  `TransferCommit.OverwritesInPlace`).
- The second validation of a file's parent directory on the receiving side can
  never fail (`Paths.ParentStaysValid`).

## Model

| member | source | states |
|---|---|---|
| PeerLoop.Peer.HandleAccept | core/src/peer_generic.rs:776-853 | the whole new state and the message queued when an offer and an acceptance meet: no staging below 20 MiB, a part file cut to a multiple of 2 MiB and offered for resumption, a complete destination offered for checking, or READY at offset 0 |
| PeerLoop.Peer.AcceptStaged | core/src/peer_generic.rs:797-847 | refines Coordination.AcceptStaged: a part file cut to whole chunks and parked, a destination of the announced size parked at its end, or a start at 0 |
| PeerLoop.Peer.Aligned | core/src/peer_generic.rs:806-810 | the arithmetic in place computes AlignedOffset |
| PeerLoop.Peer.OnSenderMessage | core/src/peer_generic.rs:623-684 | refines Coordination.OnMessage: a pending source is triggered once, at 0 or at the offered offset if the fingerprints agree; otherwise it stays pending and RESTART_FROM_ZERO is queued; RECEIVED_FILE:FAILED cancels |
| PeerLoop.Peer.OnReady | core/src/peer_generic.rs:623-627 | refines Coordination.OnMessage for READY: a pending source is triggered at 0 and no longer pending |
| PeerLoop.Peer.OnResumeReady | core/src/peer_generic.rs:628-643 | refines Coordination.OnMessage for RESUME_READY: the fingerprint of the source decides between the offered offset and RESTART_FROM_ZERO |
| PeerLoop.Peer.OnOffer | core/src/peer_generic.rs:601-622 | refines Coordination.OnMessage for METADATA: the offer is remembered, or meets a pending acceptance and both are used up |
| PeerLoop.Peer.OnReceiverMessage | core/src/peer_generic.rs:601-668 | refines Coordination.OnMessage: RESUME_OK releases the parked ticket unchanged, RESTART_FROM_ZERO releases it at offset 0 with the part file emptied and READY queued, FILE_SENT queues the expected hash |
| PeerLoop.Peer.OnResumeOk | core/src/peer_generic.rs:644-648 | refines Coordination.OnMessage for RESUME_OK: the parked ticket goes to the receive task unchanged |
| PeerLoop.Peer.OnRestartFromZero | core/src/peer_generic.rs:649-657 | refines Coordination.OnMessage for RESTART_FROM_ZERO: the part file is emptied, the ticket starts over, READY is queued |
| PeerLoop.Peer.OnMessage | core/src/peer_generic.rs:593-711 | every control message changes exactly the half it is addressed to, or the pause flag |
| PeerLoop.Peer.OnCommand | core/src/peer_generic.rs:712-767 | refines Coordination.OnCommand: each command changes one half or the pause flag and queues its message; an acceptance without an offer waits |
| PeerLoop.Peer.OpenSource | core/src/peer_generic.rs:91-115 | the send task takes its next trigger and starts at the trigger's offset |
| PeerLoop.Peer.ReadSource | core/src/peer_generic.rs:139-158 | one disk read of any length becomes one chunk of at most 16 queued |
| PeerLoop.Peer.TakeChunk | core/src/peer_generic.rs:176-187 | the stream writer takes the oldest chunk |
| PeerLoop.Peer.WriteStream | core/src/peer_generic.rs:187-201 | a partial write moves bytes from the held chunk to the stream, in order |
| PeerLoop.Peer.FinishSend | core/src/peer_generic.rs:245-275 | FILE_SENT with the hash of the whole source, or NONE, is queued when everything is written |
| PeerLoop.Peer.OpenTarget | core/src/peer_generic.rs:306-353 | offset 0 truncates the target, another offset keeps what is there |
| PeerLoop.Peer.ReadStream | core/src/peer_generic.rs:403-436 | one read of at most the missing bytes takes them off the stream and queues them for the disk |
| PeerLoop.Peer.WriteDisk | core/src/peer_generic.rs:368-380 | a partial disk write extends the target at the writer's position and the running hash by the same bytes |
| PeerLoop.Peer.CloseFile | core/src/peer_generic.rs:480-500 | the digest to compare: inline from offset 0, of the whole target after a resumption, NONE without a checksum |
| PeerLoop.Peer.Answer | core/src/peer_generic.rs:519-569 | RECEIVED_FILE:OK after the rename of a staged file, or FAILED and the end of the receive task |
| PeerLoop.Peer.GiveUp | core/src/peer_generic.rs:570-579 | any failure answers FAILED and ends the receive task |
| Coordination.AlignedOffset | core/src/peer_generic.rs:806-810 | the resume offset is a multiple of 2 MiB within the part file and the announced size, and keeps all but less than 2 MiB of the part file unless its whole chunks exceed the size, when it is 0 |
| AnyMessages.StrayIsIgnored | core/src/peer_generic.rs:593-684 | a go-ahead for a side that is not waiting for one, and every report but FAILED, changes nothing and is not answered |
| AnyMessages.ResumeFromZeroIsReady | core/src/peer_generic.rs:628-643 | RESUME_READY at offset 0 is READY, whatever fingerprint comes with it |
| AnyMessages.SentOnce | core/src/peer_generic.rs:623-643 | for any series of control messages from any other side: each SendFile is triggered at most once, with the file asked for, from another offset than 0 only after a RESUME_READY with that offset and the fingerprint of the file |
| AnyMessages.NothingUnasked | core/src/peer_generic.rs:593-711 | for any series of control messages: without an acceptance no file is created or changed and no reception is started |
| AnyMessages.ReceivedOnce | core/src/peer_generic.rs:601-657 | for any series of control messages: an acceptance starts at most one reception |
| AnyMessages.CancelledExactly | core/src/peer_generic.rs:674-679 | for any series of control messages: a peer is cancelled exactly by RECEIVED_FILE:FAILED, and nothing undoes it |
| AnyMessages.MetIsUsedUp | core/src/peer_generic.rs:601-622 | an offer and an acceptance that meet, in either order and whatever was there before, are both used up |
| AnyMessages.OnlyPartFileIsTouched | core/src/peer_generic.rs:649-853 | from any state of the receiver: an acceptance, and a RESTART_FROM_ZERO after it, touch no file but .quic-part of the accepted name, and none at all below 20 MiB |
| TransferInvariant.Keep | core/src/peer_generic.rs:583-770 | the invariant over all phases of an offer (waiting, asked, moving, broken, refused, answered) survives every step of either peer |
| TransferInvariant.Always | core/src/peer_generic.rs:583-770 | so it holds in every state of every run |
| TransferSafety.DeliveredIsSource | core/src/peer_generic.rs:484-569 | in every interleaving, when RECEIVED_FILE:OK is about to be processed, both sides hash and no other content has the digest of the file sent, the destination is the source byte for byte, whatever files the receiver held |
| TransferSafety.SameOffset | core/src/peer_generic.rs:623-657 | in every reachable state the two sides of a transfer started at the same offset, through READY, RESUME_OK and RESTART_FROM_ZERO alike |
| TransferSafety.Framed | core/src/peer_generic.rs:403-436 | the file stream holds the source between the bytes counted off it and the bytes counted onto it; once FILE_SENT is queued exactly size minus offset bytes have been put on it, at an OK as many have been taken off; it is empty at an OK and between transfers |
| TransferSafety.AnswerIsRight | core/src/peer_generic.rs:519-569 | when the receive task answers, the answer is OK if a side does not hash or the received file is the source, and FAILED otherwise |
| TransferCommit.StagedCommit | core/src/peer_generic.rs:306-568 | in every reachable state the destination of a file of 20 MiB or more is what it was at the acceptance or the complete file answered OK, unless both sides resume, no part file existed and the destination had the announced size and another fingerprint |
| TransferCommit.StagedExactly | core/src/peer_generic.rs:797-847 | and that exception is exact: after such an acceptance some continuation loses the old content early, after any other acceptance none does |
| TransferCommit.OverwritesInPlace | core/src/peer_generic.rs:649-657 | the failing input: from any such files six steps lead to an empty destination and an empty part file, with nothing received |
| TransferCommit.KeepReasoned | core/src/peer_generic.rs:628-639 | a refusal without a part file is always a refusal of a same-size destination by its fingerprint |
| TransferSafety.OneRestartOneAnswer | core/src/peer_generic.rs:628-657 | at most one RESTART_FROM_ZERO and one answer per offer |
| TaskLimits.MemoryIsBounded | core/src/peer_generic.rs:117-158 | in every run from connection on, however large the files: at most 17 chunks of 2 MiB read and not yet on the stream, at most 16 received and not yet on the disk, and no more than the window on the stream |
| TaskLimits.ReadsWhileThereIsRoom | core/src/peer_generic.rs:139-158 | disk and stream are read on exactly while fewer than 16 chunks are queued and something is missing |
| TaskLimits.OpenedMeans | core/src/peer_generic.rs:306-353 | the file written is there from the start, keeps what it holds only to be resumed, and no other file changes |
| TaskLimits.AnswerMeans | core/src/peer_generic.rs:538-569 | OK exactly if the digests agree and, of a staged file, the part file is there to be renamed; then the destination holds it and the task goes on, otherwise it stops and every file stays |
| TaskLimits.WriteAtMeans | core/src/peer_generic.rs:368-380 | the data lies at its position, everything else is as before, and a gap reads as zeros |
| TaskLimits.HashOkMeans | core/src/peer_generic.rs:538-541 | digests agree if a side has no checksum or the texts differ at most in the case of letters |
| TransferSafety.HashOkIsEquality | core/src/peer_generic.rs:538-541 | where no other content has the digest of the first, the comparison of two digests that ignores case and lets NONE and SKIP through says OK exactly for equal contents |
| TransferSafety.AcceptanceInAnyOrder | core/src/peer_generic.rs:601-622 | an acceptance before its offer, while the offer is on its way, or after it: both are used up and the three runs end in the same state, with a ticket parked or given to the receive task |
| TransferSafety.SomeHashIsUnforged | core/src/types.rs:237-250 | for every content there is a hash with well-formed digests under which no other content has its digest |
| TransferResume.ResumableTransfer | core/src/peer_generic.rs:797-852 | from no destination and no part file, after any number of kills at any step and restarts: the part file is a prefix of the source, nothing was refused, and an OK means the destination is the source, checksum or not |
| TransferResume.NeverAnsweredFailed | core/src/peer_generic.rs:519-579 | in such a run nothing is ever answered FAILED as long as no step of the receive task fails |
| TransferResume.NeverRefused | core/src/peer_generic.rs:628-639 | in such a run no fingerprint check ever fails |
| TransferResume.FingerprintMatches | core/src/types.rs:223-235 | a stored prefix that reaches past 64 KiB, or is the whole file, has the fingerprint of the source |
| TransferResume.LittleIsResent | core/src/peer_generic.rs:804-844 | each attempt at a file of 20 MiB or more starts less than 2 MiB before the end of the stored part, and at the end of a complete destination; a smaller file always starts at 0 and is never staged |
| TransferResume.AlwaysResume | core/src/peer_generic.rs:797-852 | the invariant behind these holds after every kill and restart |
| TransferProgress.NoDeadlock | core/src/peer_generic.rs:117-248 | every reachable unfinished state has an enabled step, in spite of 16-slot queues and a bounded stream |
| TransferProgress.Lowers | core/src/peer_generic.rs:117-436 | every productive step lowers a measure |
| TransferProgress.FinalAnswers | core/src/peer_generic.rs:519-579 | in a final state an accepted offer has exactly one answer, a rejected one none |
| TransferProgress.EveryRunEnds | core/src/peer_generic.rs:591-770 | a run of productive steps is bounded by the measure, and where it cannot go on the offer was answered once |
| Duplex.Projection | core/src/peer.rs:640-770 | one step of a peer that sends and receives at once is one step of each direction it concerns and leaves the other direction untouched |
| Duplex.LaneRun | core/src/peer.rs:640-770 | every run of two peers is, seen from either direction, a run of that direction alone |
| DuplexTheorems.BothInvariant | core/src/peer.rs:640-770 | both directions keep the invariant in every reachable state of the two peers |
| DuplexTheorems.BothWaysDelivered | core/src/peer.rs:586-608 | integrity with both peers sending at once, under the same condition on the digest of the file sent |
| DuplexTheorems.PauseIsTransparent | core/src/peer_generic.rs:658-665 | pause and resume, issued or heard, change no file, no stream and no transfer state in either direction |
| DuplexTheorems.PauseAgreement | core/src/peer_generic.rs:752-761 | with one issuer, its flag is its last command and the partner's flag is the same once the queue has drained |
| DuplexTheorems.PauseAgreementFromStart | core/src/peer_generic.rs:752-761 | the same from connection on |
| DuplexTheorems.WorldNoDeadlock | core/src/peer.rs:640-770 | while the direction in which the first peer sends is unfinished and nobody is paused or cancelled, the two peers have a productive step, whatever the other direction does (exchange the peers for the other one) |
| DuplexTheorems.WorldLowers | core/src/peer.rs:640-770 | each productive step lowers the two directions' measure together and keeps both invariants |
| DuplexTheorems.WorldRunsEnd | core/src/peer.rs:640-770 | so every such run of the two peers ends |
| DuplexTheorems.AlwaysUndisturbed | core/src/peer.rs:640-770 | without pause commands and without a heard FAILED no reachable peer is paused or cancelled, and every queued message is addressed to one half |
| DuplexTheorems.WorldFinishes | core/src/peer.rs:640-770 | from connection on and under the same conditions: where no productive step is left, both directions are final and every accepted offer was answered exactly once |
| DuplexSignals.CancelledByFailed | core/src/peer.rs:725-730 | in every run from connection on, a peer is cancelled exactly when one of its steps took RECEIVED_FILE:FAILED from the control queue |
| DuplexSignals.NothingAfterFailed | core/src/peer.rs:640-770 | after that no step of any run is a command or a control message of that peer |
| DuplexSignals.PausedBySignal | core/src/peer.rs:709-836 | in every run, whoever issues what: the pause flag of a peer is the last pause or resume that it issued or heard |
| DuplexSignals.PausedIsStill | core/src/peer_generic.rs:172-187 | a paused peer that nothing resumes takes up no further chunk, reads nothing from the file stream, which only grows, and puts on its own stream no more than was left of the chunk in hand |
| PeerRun.Step | core/src/peer.rs:640-770 | one action of the first of two connected peer objects, carried out by the methods of the object, is that action of the model |
| PeerRun.Execute | core/src/peer.rs:61-840 | a whole run of two peer objects, in any interleaving, ends in the state that the model gives |
| PeerRun.RunConnected | core/src/peer.rs:61-840 | two fresh peer objects reach exactly the states that the theorems about two peers speak of |
| Wire.BigEndianRoundTrip | core/src/directory.rs:142-152 | the big-endian form of a number, read back, is the number modulo 256 to the length |
| Wire.BigEndianOfDecoded | core/src/directory.rs:142-152 | and the other way round |
| Wire.BigEndianDigits | core/src/directory.rs:142-152 | byte i of k is the digit of weight 256 to the k - 1 - i: the most significant byte comes first |
| Paths.SegmentsOfJoined | core/src/directory.rs:81-85 | joining components with slashes and splitting again gives them back |
| Paths.JoinedOfSegments | core/src/directory.rs:81-85 | and the other way round |
| Paths.WireIsPath | core/src/directory.rs:57-65 | a path without a backslash reaches the receiver as itself |
| Paths.ParentStaysValid | core/src/directory.rs:339-343 | the second validation, of the parent directory, cannot fail |
| Paths.ValidExactly | core/src/directory.rs:69-98 | the validation accepts exactly 1 to 32768 bytes without NUL and backslash that do not start with a slash, a tilde or a dollar sign and whose components are not empty, not ".", not ".." and free of control characters, all in literal bytes |
| Paths.ToWireExactly | core/src/directory.rs:57-65 | a path is sent exactly if it is UTF-8 and harmless once each backslash is a slash, and then as that |
| Paths.ResolveBelow | core/src/directory.rs:100-109 | as Unix resolves paths, where ".." goes up, ordinary names lead below where the path before them leads |
| Utf8.EncodedIsUtf8 | core/src/directory.rs:57-60 | every text of Unicode scalar values, encoded as the standard says, passes the UTF-8 check |
| Utf8.Utf8IsEncoded | core/src/directory.rs:57-60 | and every byte sequence that passes it is such an encoding |
| Utf8.ControlFreeText | core/src/directory.rs:88-96 | the check on bytes refuses exactly the texts with a character of general category Cc |
| Utf8.StemIsWhole | core/src/directory.rs:352-361 | the stem of a staging name is the longest run of whole characters of the name within 240 bytes |
| Paths.StagingNameIsStaging | core/src/directory.rs:352-361 | the name given to an unfinished file is .stem.quic-part, where the stem is the name itself or a prefix of at most 240 bytes, and has no backslash if the name has none |
| FileSystem.MakeDirsEffect | core/src/directory.rs:112-140 | creating directories adds only directories on the way and fails exactly behind a file |
| DirectoryReceiver.HarmlessExactly | core/src/directory.rs:161-171 | a text behind its length is read as a path exactly if it is harmless UTF-8 |
| DirectoryReceiver.ReadPathIsHarmless | core/src/directory.rs:161-171 | every path read from any bytes is harmless |
| DirectoryReceiver.ReadPathMeans | core/src/directory.rs:161-171 | what each outcome of reading a path says of the bytes: the length, the cut, the encoding or the validation that failed |
| DirectoryReceiver.AcceptedPrefixes | core/src/directory.rs:318-406 | of an accepted stream exactly the prefixes that reach its END frame are accepted |
| DirectoryReceiver.DecodeExtends | core/src/directory.rs:299-408 | bytes behind an accepted stream are left unread and change nothing |
| DirectoryReceiverLoop.ReceiveDirectory | core/src/directory.rs:299-408 | for any stream and any fragmentation of the reads: result and file system are a function of the bytes alone, and every state the file system passes through is safe, judged by the frames that were complete in what had been read by then |
| DirectoryReceiverLoop.ReceiveFrames | core/src/directory.rs:318-406 | the frame loop ends on every input and computes the recursive reading of the frames |
| DirectoryReceiverLoop.ReceiveFrame | core/src/directory.rs:319-405 | one turn of the frame loop is one step of that reading |
| DirectoryReceiverLoop.Store | core/src/directory.rs:337-388 | one file through its staging name: all outcomes, all intermediate states safe |
| DirectoryReceiverLoop.StoreStaged | core/src/directory.rs:344-388 | the part after the parent directory: staging file, content, digest, commit |
| DirectoryReceiverLoop.CopyContent | core/src/directory.rs:363-379 | the staging file grows by what each read returns, to exactly the announced size or to the end of the stream |
| DirectoryReceiverLoop.Commit | core/src/directory.rs:382-391 | digest check, removal on mismatch, rename otherwise |
| DirectoryReceiverLoop.CreateDirectories | core/src/directory.rs:112-140 | the loop creates what the recursive definition says, through safe states |
| DirectoryReceiverLoop.StemOf | core/src/directory.rs:353-360 | the loop finds the largest character boundary up to 240 |
| DirectoryReceiverLoop.ReadPathFrom | core/src/directory.rs:161-171 | a path is read, or refused, as the bytes say |
| DirectoryReceiverLoop.Source.ReadExact | core/src/directory.rs:148-152 | reads of any length are put together to exactly the bytes asked for |
| DirectorySafety.DecodeIsSafe | core/src/directory.rs:299-408 | for any byte stream: afterwards each path that is no staging name holds its old content, is a new directory towards or below the root, or holds one completed FILE frame whose digest matched if it had one |
| DirectorySafety.OutsideStays | core/src/directory.rs:299-310 | outside base/root nothing changes but missing ancestors of the root |
| DirectorySafety.NothingEscapes | core/src/directory.rs:299-408 | for every byte stream, below a base without "." and "..": whatever path differs afterwards leads, as Unix resolves it, into the one ordinary name below the base that the stream gives, or is a missing directory on the way there |
| DirectorySafety.NothingEscapesOnTheWay | core/src/directory.rs:299-408 | the same of every state that the receiving loop passes through |
| DirectoryTotals.AcceptedTotals | core/src/directory.rs:318-405 | of an accepted stream: the statistics count its FILE frames, their bytes and its DIRECTORY frames with the root, and its last 25 bytes are the tag 0x16 and exactly these three numbers |
| DirectorySender.WalkIsComplete | core/src/directory.rs:212-250 | the pre-order walk emits exactly the files and directories of the tree |
| DirectorySender.WalkIsDistinct | core/src/directory.rs:212-250 | each of them once |
| DirectorySender.WalkParentsFirst | core/src/directory.rs:235-241 | each directory before its contents |
| DirectorySenderLoop.SendDirectory | core/src/directory.rs:180-296 | however reads are cut: the bytes, the result and the statistics are those of the recursive definition |
| DirectorySenderLoop.WalkTree | core/src/directory.rs:212-296 | the loop over the stack of iterators emits the recursive pre-order and takes one turn per entry and per directory |
| DirectorySenderLoop.StackIsShallow | core/src/directory.rs:212-241 | after any number of turns the stack is at most nesting depth plus one high, and empty exactly after one turn per entry and per directory |
| DirectorySenderLoop.NextEntry | core/src/directory.rs:213-231 | one turn: close, skip or take an entry, and open a directory met |
| DirectorySenderLoop.SendFile | core/src/directory.rs:248-287 | pack marks, header, content and digest of one file, or a frame cut short when the source shrank |
| DirectorySenderLoop.SendContent | core/src/directory.rs:265-283 | the copy loop writes and hashes exactly the announced bytes, or all there are |
| DirectoryCodec.FileFrameArrives | core/src/directory.rs:329-391 | a FILE frame as written is read as that file |
| DirectoryCodec.DirectoryFrameArrives | core/src/directory.rs:320-324 | a DIRECTORY frame as written is read as that path |
| DirectoryCodec.RunPlan | core/src/directory.rs:318-406 | what the sender writes for any items, the receiver applies item by item, with equal statistics |
| DirectoryCodec.CompletePlanIsSendable | core/src/directory.rs:226-246 | a walk that was sent to its end had only sendable paths, and pipes, sockets and devices left no trace |
| DirectoryRoundTrip.RoundTrip | core/src/directory.rs:180-408 | the receiver accepts exactly the bytes sent, agrees on all four statistics and holds the source tree, empty directories included, and nothing else below base/root, if and only if no name has a backslash and no entry is listed before a file whose staging name it bears |
| DirectoryRoundTrip.AppliedIsMirror | core/src/directory.rs:318-406 | the same for applying the items one after another |
| DirectoryRoundTrip.Collides | core/src/directory.rs:361-391 | an entry with a later file's staging name is missing afterwards or the transfer fails, and it always fails if the entry is a directory |
| DirectoryRoundTrip.LosesBackslash | core/src/directory.rs:57-65 | a path with a backslash in a name is not in the receiver's tree |
| DirectoryRoundTrip.BackslashArrivesElsewhere | core/src/directory.rs:57-65 | for all ordinary ASCII x and y and any content: a file named x, backslash, y is sent to the end and accepted with equal statistics, lies in a directory x as y, and is missing under its own name |
| DirectoryRoundTrip.BrokenOffIsRejected | core/src/directory.rs:226-287 | what a sender that stops before the end has written (a path that cannot be sent, a file that became shorter) is accepted by no receiver |
| DirectoryCodec.RunBrokenPlan | core/src/directory.rs:318-406 | the same for the frames alone, whatever the receiver has counted |
| DirectoryCodec.PlannedFileArrives | core/src/directory.rs:248-287 | the pack marks and the FILE frame of one file are read as that file, whatever follows |
| DirectoryRoundTrip.StagingNameListedFirst | core/src/directory.rs:361-362 | trees that do not survive: with .name.quic-part listed before name the whole tree is sent and accepted with equal statistics while the earlier file is silently missing; if the earlier entry is a directory, the transfer fails |
| DirectoryRoundTrip.PlainNamesCollide | core/src/directory.rs:352-362 | every ordinary ASCII name of up to 200 characters, with any contents, gives such trees |
| DirectoryRoundTrip.SendableIsEmitted | core/src/directory.rs:212-296 | a tree of sendable paths whose files did not shrink is sent to the end |
| DirectoryRoundTrip.SmallTransfer | core/src/directory.rs:180-296 | golden bytes: a directory with one file and one empty directory, for all plain names and contents, tag by tag |
| DirectoryPacking.GreedyPacks | core/src/directory.rs:248-254 | a pack exceeds the target only with one non-empty file, adjacent packs together exceed it, and the statistics are what the packs hold |
| DirectoryPacking.FewPacks | core/src/directory.rs:40-48 | half the packs, rounded down, times the target is less than the bytes sent |
| DirectoryPacking.PackSizes | core/src/directory.rs:38-47 | with the sizes written out, 16777216, 33554432 and 67108864 bytes: a pack of two non-empty files is within its size, adjacent packs together exceed it |
| DirectoryPacking.PackMarksAlternate | core/src/directory.rs:199-289 | PACK_START and PACK_END alternate around every frame with consecutive numbers, in complete and cut transfers |
| DirectoryPacking.StatisticsCount | core/src/directory.rs:199-290 | the statistics count the files, the directories with the root, and the bytes of the tree |
| DirectoryPacking.SaturationIsHarmless | core/src/directory.rs:249-287 | the saturating addition decides like the exact one and the open pack's count never wraps |
| DirectoryAck.AckRoundTrip | core/src/directory.rs:410-463 | every acknowledgement written is understood, with the message cut at 4 KiB and never oversized |
| DirectoryAck.AckMeans | core/src/directory.rs:432-459 | what each outcome of reading an acknowledgement says of the bytes, in literal tags and sizes |
| StreamAdapter.StreamShared.OnEvent | core/src/msquic/stream.rs:80-162 | for every event the whole new shared state, and exactly the registered wakers of the halves it concerns woken and removed |
| StreamAdapter.StreamShared.Read | core/src/msquic/stream.rs:165-190 | a sticky error first, then buffered data cut to the room, then end of stream, otherwise the waker is registered |
| StreamAdapter.StreamShared.Write | core/src/msquic/stream.rs:193-267 | error, closed, full (waker registered), empty, a failing library that leaves the count as it was, or a send counted and reported with its 32-bit length |
| StreamAdapter.StreamShared.Flush | core/src/msquic/stream.rs:269-277 | ready exactly when nothing is counted in flight, otherwise the waker is registered |
| StreamAdapter.StreamShared.Shutdown | core/src/msquic/stream.rs:279-305 | ready when nothing is counted in flight; the stream is told to finish at most once and then closed for writing |
| StreamRuns.NoLostWakeup | core/src/msquic/stream.rs:89-190 | over every sequence of callbacks and polls: a registered read waker means an empty buffer and an open read side, a registered write waker an outstanding send |
| StreamRuns.WakersAreNotDropped | core/src/msquic/stream.rs:107-157 | a waker leaves its slot only by being woken or by a later poll of its half |
| StreamRuns.EventsWake | core/src/msquic/stream.rs:107-157 | data, the end or an abort of the peer's halves, the end of the stream and a completed send wake whoever waits for them |
| StreamRuns.ReadsAreFifo | core/src/msquic/stream.rs:93-186 | what was read, then the buffer, is what was received; the stream is finished at most once |
| StreamRuns.CountIsRight | core/src/msquic/stream.rs:111-121 | in_flight_bytes is the total of accepted, uncompleted sends throughout a run if and only if no accepted write is 2^32 bytes or longer |
| StreamRuns.SmallWritesKeepCount | core/src/msquic/stream.rs:111-121 | writes that are all shorter than 2^32 bytes keep the count right |
| StreamRuns.TruncatedWrite | core/src/msquic/stream.rs:239-266 | the failing case: such a write reports zero bytes, counts nothing and lets flush finish while it is outstanding |
| StreamRuns.NeverSaturates | core/src/msquic/stream.rs:116-116 | a right count never saturates below zero |
| StreamRuns.CountIsBounded | core/src/msquic/stream.rs:211-244 | the count stays below 16 MiB plus the largest buffer |
| StreamRuns.ReadyMeansDrained | core/src/msquic/stream.rs:269-284 | with a right count flush and shutdown are ready exactly when nothing is outstanding |
| StreamEndings.ReadAnswers | core/src/msquic/stream.rs:165-190 | what a read answers after any run, told from the events: the last abort of either half if there was one, else the next bytes received, as many as there is room for, else the end if the peer is done, else nothing yet |
| StreamEndings.AbortedIsNoEnd | core/src/msquic/stream.rs:171-176 | a read after an abort of either half brings neither bytes nor an end of file |
| StreamEndings.EndIsTheEnd | core/src/msquic/stream.rs:177-186 | a read with room returns no bytes if and only if the peer has finished or the stream is gone, no half was aborted before, and everything received has been read |
| StreamEndings.WriteAnswers | core/src/msquic/stream.rs:193-267 | what a write answers after any run: the last abort, closed after a shutdown from here or the end of the stream, pending from 16777216 bytes in flight, or what the library makes of it |
| StreamEndings.OnlyAcceptedIsSent | core/src/msquic/stream.rs:239-266 | an accepted write hands over and counts all its bytes, any other answer none |
| StreamEndings.PendingIsRegistered | core/src/msquic/stream.rs:165-305 | every poll that answers pending has left its own waker in its slot |
| StreamEndings.WokenOnce | core/src/msquic/stream.rs:80-162 | each event takes exactly the wakers of the halves that it concerns, so that a task is woken once per registration |
| StreamEndings.FlagsRecord | core/src/msquic/stream.rs:80-162 | over every run: the error is the last abort, and each half is closed exactly when an event or a shutdown closed it |
| Pipe.PipeConserves | core/src/pipe.rs:41-128 | at every moment output, far buffer, wire, rest of the chunk and rest of the input are together the input, in order |
| Pipe.FinIsLast | core/src/pipe.rs:74-81 | the finish follows the completion of every accepted byte; end of file is seen only after the buffer has drained |
| Pipe.PipeDelivers | core/src/pipe.rs:33-144 | a pipe that is over delivered exactly its input; both counts are its length and both digests agree |
| Pipe.PipeNoDeadlock | core/src/pipe.rs:33-134 | although a pending task runs only when woken, some step is possible until the pipe is over |
| Pipe.StepLowers | core/src/pipe.rs:33-134 | every step lowers a measure |
| Pipe.PipeEnds | core/src/pipe.rs:33-134 | so every run ends, within 8 times the input plus 7 steps |
| PipeLoops.CopyLoop | core/src/pipe.rs:42-71 | for any cut of the reads, any cancellation and any failure: what was written, hashed and counted, and where the loop stops: a token cancelled after k turns ends it at turn k, after k reads that brought data and at most k buffers, and with k = 0 before anything moved; without faults only and always then |
| PipeLoops.SendTask | core/src/pipe.rs:33-85 | the stream is finished however the loop stops; a cancellation stops it after as many turns; without faults and cancellation everything is sent, counted and hashed |
| PipeLoops.ReceiveTask | core/src/pipe.rs:88-135 | the same for the receiving task; without an output nothing is read |
| PipeLoops.NeverPastTheToken | core/src/pipe.rs:45-49 | with more than k buffers to copy, a loop that is to stop after k turns never reaches the end of its input |
| Stun.ParseBindingResponse | core/src/stun.rs:64-122 | the loop over offsets ends on every message and computes the recursive walk |
| Stun.ParseFindsFirst | core/src/stun.rs:76-121 | a response with any list of attributes, any padding and any bytes behind it parses to the first usable address of the list |
| Stun.ParsedIsFirst | core/src/stun.rs:76-121 | every accepted message is a success response, with the cookie and the transaction of the request in literal places, of at least the declared length, and holds a usable attribute of that meaning after attributes that are not usable |
| Stun.OtherTransactionIsRefused | core/src/stun.rs:68-70 | a response to any other transaction is refused, whatever attributes it holds and whatever follows |
| Stun.UsableExactly | core/src/stun.rs:85-112 | an attribute carries an address exactly if it is of type 0x0020 with family 1 and 8 bytes or more, or family 2 and 20 bytes or more |
| Stun.WalkMoves | core/src/stun.rs:113-119 | each turn moves on by a multiple of four, at least four |
| Stun.UnmaskV6 | core/src/stun.rs:100-109 | the byte loop is the exclusive or with cookie and transaction |
| Stun.AddressAt | core/src/stun.rs:85-118 | what one attribute yields |
| Stun.AddressRoundTrip | core/src/stun.rs:85-118 | every IPv4 and IPv6 address and port comes back from the encoding of section 14.2 of RFC 8489, after any unusable attributes |
| Stun.ClientInvertsServer | scripts/stun_server.py:11-22 | the client learns exactly the IPv4 address and port that the server saw |
| Stun.ServerAnswers | scripts/stun_server.py:11-22 | the server answers exactly the requests of 20 bytes or more with type 1 and the cookie that come over IPv4, with the transaction it was asked with and nothing but the address |
| Stun.MappedLayout | core/src/stun.rs:85-112 | the encoding of an address, byte by byte, as section 14.2 of RFC 8489 has it |
| Stun.SampleIsParsed | core/src/stun.rs:128-138 | the message of the repository's own unit test parses to 0.0.0.1 port 12 |
| BitField.BitfieldUnit.GetField | core/src/msquic/linux_bindings.rs:72-91 | the loop returns the number whose bits are those of the field |
| BitField.BitfieldUnit.SetField | core/src/msquic/linux_bindings.rs:110-125 | the loop writes the low bits of the value and leaves every other bit |
| BitField.BitfieldUnit.SetFields | core/src/msquic/linux_bindings.rs:3503-3560 | refines SetAll, a chain of writes one after another, as the constructors perform it |
| BitField.ChangedBit | core/src/msquic/linux_bindings.rs:19-28 | changing one bit of a byte changes that bit only |
| BitField.BitPositions | core/src/msquic/linux_bindings.rs:19-28 | bit 8 i + j is the bit of weight 2^j in byte i |
| BitField.BitsOfWithBit | core/src/msquic/linux_bindings.rs:72-91 | setting a bit of a 64-bit value sets that bit and no other |
| BitField.GetAfterSet | core/src/msquic/linux_bindings.rs:72-125 | reading a field back gives the value modulo 2^width |
| BitField.OtherFieldStays | core/src/msquic/linux_bindings.rs:110-125 | writing one field leaves every disjoint field |
| BitField.ChainGivesBack | core/src/msquic/linux_bindings.rs:1131-1155 | a chain of writes to disjoint fields gives every argument back |
| BitField.ConstructorGivesBack | core/src/msquic/linux_bindings.rs:1131-1155 | a constructor whose fields follow one another gives every argument back, for any number of fields |
| ControlCodec.MessageRoundTrip | core/src/types.rs:117-214 | a message is read back as written if and only if its numbers are 64-bit |
| ControlCodec.DecimalRoundTrip | core/src/types.rs:128-186 | a decimal number is parsed back if and only if it fits 64 bits |
| ControlCodec.ParsedNumber | core/src/types.rs:128-186 | a text is a number exactly if it is digits, at least one, possibly after one plus, of a value below 2^64 |
| ControlCodec.WordsExactly | core/src/types.rs:117-214 | a message without a payload is read from its own text and from no other |
| ControlCodec.PayloadsExactly | core/src/types.rs:117-214 | a message with a payload is read only behind its own prefix, and only with 64-bit numbers |
| ControlCodec.FrameRoundTrip | core/src/peer_generic.rs:855-886 | a text comes back from its frame, and what follows is left alone, if and only if it is at most 64 KiB |
| ControlCodec.FrameMeans | core/src/peer_generic.rs:855-886 | what each outcome of reading a frame says of the bytes: exactly one written frame of at most 65536 bytes of UTF-8, or what is wrong |

## Left out

- Coordination.OnMessage: REJECTED:ALREADY_RECEIVING and REJECTED:ALREADY_SENDING only raise events; no peer of this version sends them, and in the model they change nothing.
- Coordination.DestPath: the cleaning of an offered file name (control characters at its ends, everything before its last slash) is not modelled; a destination is the given directory and the offered name.
- Coordination.AcceptStaged: errors of `metadata`, `set_len` and opening the part file, which the code ignores, are taken not to happen.
- Tasks.Send: a source that cannot be opened or read leaves the offer unanswered in the code too; the model has no such step on the sending side, where only the receive task can fail.
- TaskLimits.MemoryIsBounded: the code waits for room in a queue with one more chunk already read, and the disk writer takes the chunk it writes out of the queue; the model reads when there is room and writes from the front of the queue, so that the code holds up to a chunk more on the sending side and two on the receiving side.
- Duplex.Can: the Disconnect command, the end of the control stream and the point where each task notices a cancellation are not modelled; a cancelled peer takes no further control event.
- DuplexTheorems.PauseAgreement: pause commands from both sides at once can leave the two flags different, so agreement is stated for one issuer.
- DuplexTheorems.WorldNoDeadlock: progress, here and in `WorldFinishes`, is stated without pause commands and without a heard FAILED, which cancels the peer that hears it; pauses are transparent but may last.
- ControlCodec.ReadFrame: a control read that is dropped half-way by another arm of the event loop loses its place; frames are read whole in the model.
- ControlCodec.MessageRoundTrip: the JSON text itself is a parameter that reads back what it writes.
- DirectorySender.Emit: errors of listing, inspecting or opening an entry end a transfer as an error of reading does; they are not distinguished.
- DirectoryReceiver.Decode: other I/O errors of the receiver (permissions, a full disk) are not modelled; Windows path prefixes and symlinks are not either.
- DirectoryReceiver.TotalsMatch: statistics are unbounded numbers that are compared modulo 2^64, as counters that wrap.
- StreamRuns.WakersAwaited: an error set by one half wakes only that half's task; the wakeup invariant is about data, the close flags and outstanding sends.
- StreamAdapter.PollWrite: a null send context, raw buffers and handles are reduced to optional data; the order in which the library completes sends is arbitrary.
- Pipe.Do: errors and cancellation are left to `PipeLoops`; the end-to-end system has none.
- Stun.Parse: sockets, timeouts and the random transaction identifier are outside.
- BitField.Get: big-endian machines and the `raw_` copies of the accessors, which repeat the same code on pointers.
- Progress reports, speeds and estimates, timers, keep-alive pings, events to the user interface and logging.
- Connection setup, the race between direct and reflected candidates, TLS, SHA-256, the MsQuic bindings, remote shell bootstrap, the command line and the reference application in C#.
