# HyX transfer and rendezvous: a verified model

This project models the parts of HyX whose correctness is spread over several functions, and proves what
they promise. `dafny verify dfyconfig.toml` checks all of it.

**The transfer engine.** `Chunks`, `Coverage`, `Compression`, `Wire`, `ChunkWriting`, `FileSending`,
`FileReceiving` and `StreamAgreement` follow one file from the source bytes to the receiver's disk: cutting,
adaptive compression, framing, packing into bounded streams, parsing, deduplication, length checks, batching,
merged writes, and the incremental hash. The loops are methods with the source's own locals; each is proved
against a functional specification, and the results about that specification are the lemmas; `MergedWrites` has those
on writing a run of chunks at once.
`TransferModel` puts the pieces into a state machine of two endpoints with FIFO channels, the receiver's disk
with its `.partial` names, background writers that outlive an aborted session, and the retry loop.
`TransferInvariant` states what every step keeps and `TransferSafety` proves it, under either of two guarantees:
that the bitmaps never claim more than the disk holds, for any hash; or, whatever they claim, that the hash tells the
source files from other bytes, so that the checksum exchange catches what a bitmap got wrong. `TransferProgress`
proves that a session in which every checksum will be right ends well, `TransferResume` when skipping listed chunks is
right and why the error path clears the bitmaps, and `TransferOutcome`, from both, exactly which sessions arrive; `TransferFaults`
has the checks that end a session, the writer an aborted one leaves, and how often it is tried again.
`FolderState` has the bookkeeping object and the loop of `send_path`.
The machine's steps are the abstractions the file-level results allow: a flush puts true, distinct, missing chunks on
a stream (`StreamAgreement.SenderPlan`), an accept takes them exactly until the file is complete
(`StreamAgreement.ReceiverStopsAfterLastStream`), the writer writes chunk by chunk (`ChunkWriting.WriteLoop`), and
finalizing reports the hash of the disk (`ChunkWriting.FinalizeHashesDisk`).

**Rendezvous and relay.** `Rendezvous` is the pairing server as tasks interleaving at lock holds and writes;
`RendezvousSafety` proves what every interleaving keeps, and `RendezvousPairing` what uninterrupted peers get. The relay's live sessions are part of that state, so that a
token is one pair's while its session lasts. `Relay`, `RelayHello` and `RelayCap` are the packet forwarder: its two
inverse maps, its first datagram, its bandwidth cap.

**Smaller cores.** `History` (the locked, crash-safe append), `Bandwidth` (the token bucket, for one caller and for
many; `TokenBucket` is what it shares with `RelayCap`), `StunAttributes` and `Stun` (the binding response), `Framing`
(control messages on a stream), `Scheduler` (the chunk bitmap).

Conventions: a byte is an integer below 256; the hash is an uninterpreted function of bytes and the hasher is the
bytes fed to it; zstd, MessagePack and JSON are pairs of functions with their inverse law as an explicit
hypothesis (`Lawful`); time is a number the callers supply, real where rates matter.

Hypotheses, all stated in the lemmas that need them:

- Source files do not change during a transfer; both sides use one chunk size above zero (`World`, `State.chunkSize`).
- Item paths are distinct and none is another's name plus `.partial`: the model's disk has the two names of an item as
  separate maps (core/src/transfer_file.rs:704-706 would reuse such a file).
- A run starts from any disk with leftovers; what the sender has marked complete must be there, and its bitmap lists
  chunks of the first incomplete file alone (`Init`), as do the bitmaps that sessions leave behind (`FailedBitmap`).
  A trusted run, besides, has a state file, since only then are the bitmaps cleared after an error
  (core/src/session.rs:481-514), and a bitmap that claims no more than the disk holds (`Honest`); any other run, with
  or without a state file, needs a hash that tells the source files from other bytes (`TellsApart`).
- How a session ends is proved of every session that nothing interrupts, trusted or not. It arrives exactly when what its
  bitmap claims is right and no writer task left over from an aborted session is about to rename a file it still has to
  send (`SessionArrivesIff`). Such writers exist: cancelling aborts the receiving task
  (mobile/src/lib.rs:1038-1046, packages/hyx_isolates/rust/src/api/transfer.rs:1026-1032), not the writer it spawned
  (core/src/transfer_file.rs:334); `LeftoverRenameFails` is a failing run.
- Sizes and counts are within the receiver's limits and the transport has room for one unread stream (`Workable`), for
  progress alone.

Where the repository's documentation and code differ, the model follows the code: the comment on `should_retry`
(core/src/reconnect.rs:70-78) allows one retry for `max_attempts = 1`, the code allows none. A promise that does not hold
in general has its counterexample beside the condition under which it does:

- merged writes: `ShortInnerChunkShifts`, and `MergedIff`; the receiver's length check keeps such runs out (`SizedRunIsFull`);
- a complete transfer by counting: `StrayIndexLooksComplete`, and `CompleteIff`;
- a session that nothing interrupts arrives: `LeftoverRenameFails` and `StaleBitmapFails`, and `SessionArrivesIff`,
  `StartArrivesIff`, `NextSessionArrivesIff`;
- a resumed file is the source: `StaleBitmapFails`, and `FinalizedIff`, `ReassemblesIff`; that every listed chunk lies
  in the leftover is enough (`HeldClaimsHold`) and more than enough (`ZerosHold`);
- cleaning up leaves newer registrations alone: `CleanUpHitsNewcomer`, and `CleanUpHitsIff`;
- the rate limit for several callers: `TwoCallersExceedIt`, and `CallersLimitIff` for when it holds, `SharedLimitIff` for
  exactly how much more can be granted;
- the status label of core/src/state.rs: `CompletesIff`.

## Model

| member | source | states |
|---|---|---|
| `Chunks.ChunkBounds` | core/src/transfer_file.rs:405-412 | every chunk in range lies inside the file, is not empty, and only the last one is short |
| `Chunks.OffsetsFit` | core/src/transfer_file.rs:95-97 | under the chunk-count and chunk-size limits no offset product leaves 64 bits |
| `Chunks.AllChunksAreFile` | core/src/transfer_file.rs:641-660 | the chunks in order are the whole file |
| `Coverage.WriteTrueChunk` | core/src/transfer_file.rs:745-754 | writing a true chunk at its offset puts it on disk, spoils no other, never exceeds the file size |
| `Coverage.Reassembles` | core/src/transfer_file.rs:745-786 | true chunks covering every index, in any order over any leftover cut to size, leave exactly the file |
| `Coverage.ReassemblesIff` | core/src/transfer_file.rs:699-786 | true chunks of just the needed indices leave the file iff the leftover is right wherever nothing is written over it: its bytes, or zeros past its end before a later chunk |
| `Coverage.ZerosHold` | core/src/transfer_file.rs:745-754 | a listed chunk of zeros comes right although nothing of it was on disk: a write past the end fills the gap |
| `Compression.AdaptiveCompressor.Compress` | core/src/compression.rs:75-124 | the method is the step function, new state and output |
| `Compression.EveryOutputDecodes` | core/src/compression.rs:75-124 | over any chunk sequence every (payload, flag) decodes to its original chunk |
| `Compression.DecidesOnce` | core/src/compression.rs:63-124 | all samples are compressed, the decision falls once at the last sample by the ratio threshold, and holds for ever |
| `Wire.ReadEncoded` | core/src/transfer_file.rs:243-249 | a frame built by the sender parses back wherever it stands in a stream |
| `Wire.ReadEncodedAll` | core/src/transfer_file.rs:351-379 | parsing the bytes the framing loop built gives back the same frames |
| `Wire.ReadAllIsEncoded` | core/src/transfer_file.rs:351-379 | the converse: what parses is exactly the encoding of what it parses to |
| `Wire.FrameLayout` | core/src/transfer_file.rs:243-250 | byte by byte what a frame is: index, flags, length and payload, the numbers little-endian |
| `Wire.CutFrameFails` | core/src/transfer_file.rs:351-379 | a stream that ends inside a frame is an error |
| `ChunkWriting.MergedIsChunkwise` | core/src/transfer_file.rs:756-786 | one merged write of a contiguous run is chunk-at-a-time writing when only its last chunk may be short |
| `MergedWrites.MergedIff` | core/src/transfer_file.rs:756-786 | the exact condition: for all bytes of given lengths and anything on disk the two agree iff every chunk with bytes in it starts where the payload before it ends |
| `ChunkWriting.ShortInnerChunkShifts` | core/src/transfer_file.rs:756-786 | and is not when a chunk inside the run is short |
| `ChunkWriting.SizedRunIsFull` | core/src/transfer_file.rs:404-418 | the length check makes every contiguous run of accepted chunks full but for its last |
| `ChunkWriting.InOrderPrefix` | core/src/transfer_file.rs:789-803 | while nothing is out of order, the hasher has exactly the prefix of the file received so far |
| `ChunkWriting.FinalizeHashesDisk` | core/src/transfer_file.rs:814-840 | for any starting partial and any distinct correctly sized chunks the fast path equals the full re-read |
| `ChunkWriting.NoRereadIff` | core/src/transfer_file.rs:789-840 | the incremental hash serves iff the chunks came in order, and no re-read is needed iff all of the file's did |
| `ChunkWriting.ChunkWriter.constructor` | core/src/transfer_file.rs:699-742 | opening keeps the leftover, cut to the file size, with fresh bookkeeping |
| `ChunkWriting.ChunkWriter.RecordHash` | core/src/transfer_file.rs:789-803 | the hash bookkeeping of one chunk, in or out of order |
| `ChunkWriting.ChunkWriter.WriteChunk` | core/src/transfer_file.rs:745-754 | one chunk on disk and recorded |
| `ChunkWriting.ChunkWriter.WriteChunks` | core/src/transfer_file.rs:756-786 | the merged write and the bookkeeping of every chunk in it |
| `ChunkWriting.ChunkWriter.Finalize` | core/src/transfer_file.rs:814-850 | the checksum, by prefix or by re-reading the disk; the rename happens |
| `ChunkWriting.WriteContiguous` | core/src/transfer_file.rs:558-565 | a group goes out as one write and is emptied |
| `ChunkWriting.WriteLoop` | core/src/transfer_file.rs:504-556 | whatever the batch boundaries, the disk is that of writing every chunk alone, and a checksum comes only after Finalize |
| `ChunkWriting.WritePartial` | core/src/transfer_file.rs:504-556 | from a leftover to the finished file: the disk is chunk-wise writing, and the reported checksum is the hash of that disk |
| `FileSending.ChunkReader.ReadChunk` | core/src/transfer_file.rs:641-660 | a read in bounds yields the chunk and extends the hashed bytes, one past the end is an error |
| `FileSending.FileSender.FlushGroup` | core/src/transfer_file.rs:259-267 | a flush sends the next group of the plan and reports exactly its chunks, or, if the link fails, does neither |
| `FileSending.FileSender.SendFile` | core/src/transfer_file.rs:147-275 | exactly which chunk sizes are refused; whichever flush fails, the streams out and the indices reported are exactly those of the groups before it, and no other failure ends it; on success the checksum is the hash of the whole file whatever was skipped |
| `StreamAgreement.FramesCarryMissing` | core/src/transfer_file.rs:208-257 | the sender frames exactly the missing chunks, in order, each decoding to its true bytes |
| `StreamAgreement.SenderPlan` | core/src/transfer_file.rs:199-270 | every stream is non-empty, at most BATCH_MAX_BYTES, and closed only when the next frame would not fit, so there are no more than need be; together they carry each missing chunk exactly once, for any completed list |
| `StreamAgreement.WhichAreCompressed` | core/src/transfer_file.rs:180-192 | which chunks travel compressed: none, all, or, adaptively, the first three and the others iff those three shrank by the ratio |
| `StreamAgreement.AcceptedIff` | core/src/transfer_file.rs:385-418 | a frame of a new chunk is accepted iff it decodes, within a chunk's size and only if that was agreed on, to just the length the manifest implies |
| `StreamAgreement.RejectedBecause` | core/src/transfer_file.rs:385-418 | which error any other one is |
| `StreamAgreement.RepeatIsIgnored` | core/src/transfer_file.rs:381-384 | a chunk that comes again, whatever the frame carries, changes nothing of what is received |
| `StreamAgreement.LongStreamFails` | core/src/transfer_file.rs:344-350 | a stream over 64 MiB is an error; after any other that fails on nothing the next one is taken |
| `StreamAgreement.ReceiverStopsAfterLastStream` | core/src/transfer_folder.rs:546-565 | for any completed list with duplicates and strays, the receiver accepts every missing chunk and stops exactly after the last stream |
| `StreamAgreement.LinkLostAfter` | core/src/transfer_file.rs:342-456 | when a flush of the sender fails and nothing more comes, the receiver has just the chunks of the streams before it and reports a lost connection |
| `StreamAgreement.FileArrives` | core/src/transfer_file.rs:336-446 | sender streams into receiver loop into disk, for any completed list and any leftover: the source file iff the leftover is right wherever the list made the sender skip, so always from scratch or when the listed chunks are there |
| `FileReceiving.FileReceiver.TakeFrame` | core/src/transfer_file.rs:381-430 | one frame: duplicate ignored, decoding and length errors, batch handed over at the threshold |
| `FileReceiving.FileReceiver.TakeStream` | core/src/transfer_file.rs:349-446 | one stream is parsed frame by frame against the specification |
| `FileReceiving.FileReceiver.ReceiveLoop` | core/src/transfer_file.rs:342-456 | the batches concatenate to the accepted chunks in order, and to a prefix of them on an error |
| `FileReceiving.FileReceiver.ReceiveFile` | core/src/transfer_file.rs:294-468 | the whole pipeline: exactly which jobs are refused, errors, batches of at least 64 MiB but for the last and never a chunk more, disk written chunk by chunk, checksum of the disk; an error loses less than one batch of what was accepted |
| `FileReceiving.AcceptStreamsSound` | core/src/transfer_file.rs:366-418 | whatever arrives, what is accepted is distinct, in range and correctly sized |
| `FolderState.FolderTransferState.MarkChunkComplete` | core/src/transfer_folder.rs:814-819 | one more mark, of that file and chunk; validity ties every file's list to the marks |
| `FolderState.FolderTransferState.GetCompletedChunks` | core/src/transfer_folder.rs:821-826 | exactly the chunks of that file marked since the bitmaps were last cleared, in the order of marking |
| `FolderState.FolderTransferState.MarkFileComplete` | core/src/transfer_folder.rs:828-835 | the file joins the completed ones once, and the byte count stays their sum |
| `FolderState.FolderTransferState.ClearChunkBitmaps` | core/src/transfer_folder.rs:844-846 | no bitmap is left and the completed files are |
| `FolderState.FolderTransferState.NextFile` | core/src/transfer_folder.rs:848-850 | none iff every file is completed, else one that is not while all before it are |
| `FolderState.FolderTransferState.IsComplete` | core/src/transfer_folder.rs:852-854 | true iff as many stray indices were marked as files are missing; without strays iff no file is next; and bytes counted plus bytes missing are the total |
| `FolderState.CompleteIff` | core/src/transfer_folder.rs:848-854 | for any distinct completed list the counts agree iff strays and missing files are equally many; and what is counted plus what is missing is the transfer |
| `FolderState.StrayIndexLooksComplete` | core/src/transfer_folder.rs:852-854 | with a stray index the count says complete while a file is next and its bytes are uncounted |
| `FolderState.SendPath` | core/src/session.rs:451-530 | every session before the last one run ended in a recoverable error, and one runs after each such error while the limit allows; success, or the last error, is the answer, a recoverable one only when all attempts are used up; which chunks each session finds marked, with a state file and without; completed files kept |
| `FolderState.MarkedInOrder` | core/src/transfer_folder.rs:814-826 | what a session finds marked of a file is, in order, what the sessions since the last clearing reported of it |
| `TransferSafety.StepKeeps` | core/src/transfer_folder.rs:297-413 | every step of sender, receiver, retry loop and stray writer keeps the invariant |
| `TransferSafety.SenderKeeps` | core/src/transfer_folder.rs:611-662 | the sender's half of that: manifest, streams, checksum exchange, marking, failing |
| `TransferSafety.ReceiverKeeps` | core/src/transfer_folder.rs:502-577 | the receiver's half: presence checks, opening, accepting, writing, finalizing, checksum exchange, failing |
| `TransferSafety.StragglerWriteKeeps` | core/src/transfer_file.rs:504-556 | a writer task left over from an aborted session may go on writing at any time |
| `TransferSafety.FailsAfterWriteKeeps` | core/src/transfer_file.rs:474-488 | also when a stream, or the last message, reaches the peer although sending it ends in an error, so that it is out and unrecorded |
| `TransferSafety.FailedBitmap` | core/src/transfer_folder.rs:814-819 | wherever a sender fails, its bitmap lists chunks of no incomplete file but the first: the one it was sending |
| `TransferSafety.CompletedFilesArrived` | core/src/session.rs:451-530 | over every run with disconnects, retries, leftovers and stray writers, each completed index names a final file equal to the source, and success means all of them: for any hash if the bitmaps are honest and cleared, for any bitmap of the first incomplete file, cleared or not, if the hash tells the sources apart |
| `TransferSafety.StreamsStayInStep` | core/src/transfer_folder.rs:367-395 | every stream accepted while receiving a file was opened while sending it and carries its true chunks; both sides visit the same files |
| `TransferSafety.AttemptsBounded` | core/src/session.rs:488-527 | with a limit, the attempt counter stays below it |
| `TransferFaults.RetriesBounded` | core/src/session.rs:488-527 | over any run the counter is the number of retries, so with a limit one call starts at most that many sessions |
| `TransferFaults.RetriesIff` | core/src/session.rs:479-527 | a retry follows a recoverable failure iff the limit allows one more, with the completed files and, unless there is a state file, the bitmaps |
| `TransferFaults.RepeatsIff` | core/src/session.rs:403-468 | a call that has ended may be repeated, with what the sender kept or anew, its attempts counted from zero |
| `TransferFaults.LeftWriterGoesOn` | core/src/transfer_file.rs:504-556 | the writer an aborted receive leaves goes on in any later session: the chunks it had taken end up in the file it had open |
| `TransferFaults.TakesOfferIff` | core/src/transfer_folder.rs:429-446 | the receiver takes an offer iff it lists files, none over the size limit |
| `TransferFaults.OpensIff` | core/src/transfer_folder.rs:502-565 | the receiver opens its next file iff all before it that the sender called complete are there in full length and the file is within the limits |
| `TransferFaults.EndsWellIff` | core/src/transfer_folder.rs:502-587 | it ends well iff the sender says so and everything it called complete is there in full length |
| `TransferFaults.GoesOnIff` | core/src/transfer_folder.rs:611-710 | each side goes on after a file iff the other reports its own checksum; otherwise the sender fails for good |
| `TransferFaults.KeepsFirst` | core/src/transfer_file.rs:381-384 | of the chunks that come, just the first of each index not seen before is written |
| `TransferFaults.WindowKept` | core/src/transfer_file.rs:259-267 | in every run no more streams are open than the transport takes |
| `TransferProgress.NoDeadlock` | core/src/transfer_folder.rs:499-587 | until both sides are done one of them has a next step, however small the transport buffer, whatever leftover writers there are |
| `TransferProgress.StepProgress` | core/src/transfer_folder.rs:297-413 | while every checksum to come is right and no leftover writer is about to rename a file still to come, every step lowers a measure, keeps all checks passing and keeps it so |
| `TransferProgress.SessionCompletes` | core/src/transfer_folder.rs:499-587 | and such a session loses neither side and ends, within the measure, with both complete and every file there |
| `TransferProgress.StartIsOnTrack` | core/src/transfer_folder.rs:297-325 | every start within the limits whose first file is right is such a session: honest ones, and any whose claims hold |
| `TransferProgress.ArrivesIff` | core/src/transfer_folder.rs:499-587 | while every checksum to come is right, all uninterrupted runs arrive iff no leftover writer is about to rename a file not renamed yet; otherwise some run fails |
| `TransferResume.ResumeAgreesIff` | core/src/transfer_folder.rs:549-565 | sender and receiver count the same chunks for every file iff the bitmap claims nothing of any incomplete file but the first |
| `TransferResume.FinalizedIff` | core/src/transfer_file.rs:504-556 | in any session while no leftover writer acts, whatever its bitmap claims of the first file and whatever its partial holds, the finalized bytes, and their checksum, are the source's iff the claims hold |
| `TransferResume.HeldClaimsHold` | core/src/transfer_folder.rs:549-565 | which they do if every claimed chunk lies in the partial |
| `TransferResume.BitmapOutrunsDisk` | core/src/transfer_folder.rs:837-846 | without a state file a retried session starts from a bitmap that lists a chunk the receiver has nothing of |
| `TransferResume.StaleBitmapFails` | core/src/session.rs:481-514 | and that session, which nothing interrupts, finalizes an empty file and fails on both sides over the checksum |
| `TransferOutcome.SessionArrivesIff` | core/src/transfer_folder.rs:499-587 | any session about to begin, with a state file or without, over any leftovers: all its uninterrupted runs arrive iff what it claims is right and no leftover writer is about to rename one of its files |
| `TransferOutcome.StartArrivesIff` | core/src/session.rs:451-468 | a first session arrives, whatever happens in it, iff what it claims of its first file is right |
| `TransferOutcome.NextSessionArrivesIff` | core/src/session.rs:504-527 | the session after a retry or a repeated call: iff its claims are right, which with a state file they are, and no leftover writer is about to rename a file outside the completed ones |
| `TransferOutcome.LeftoverRenameFails` | core/src/transfer_file.rs:334-335 | from any start that may be retried: a run broken off at the rename, whose retried session fails although nothing interrupts it |
| `Rendezvous.ServerState.TakeForPairing` | rendezvous/src/server.rs:217-225 | expired waiters go, and the one under the code is taken iff it is live |
| `Rendezvous.ServerState.PutBack` | rendezvous/src/server.rs:260-263 | only into an empty slot; nothing already there changes |
| `Rendezvous.ServerState.RegisterFirst` | rendezvous/src/server.rs:310-335 | refused iff a live waiter holds the code, else the only change is the new entry |
| `Rendezvous.ServerState.Cleanup` | rendezvous/src/server.rs:341-350 | the entry goes iff its device is the caller's |
| `RendezvousSafety.StepKeeps` | rendezvous/src/server.rs:175-389 | every atomic step of every task keeps the invariant, whatever the interleaving |
| `RendezvousSafety.FirstAnswerIsMirrored` | rendezvous/src/server.rs:227-381 | a first peer is answered with a match only when the named peer, under the same code, was already written the mirror of it: each is told the address the other's connection came from with the port it named, or, iff one wants it and there is one, the relay's with one token granted for just the two fingerprints |
| `RendezvousSafety.TokenIsExclusive` | rendezvous/src/relay.rs:147-180 | until its session is evicted a granted token maps to exactly the pair's fingerprints, and every other grant of it has lapsed |
| `RendezvousSafety.LapsesByEviction` | rendezvous/src/relay.rs:193-211 | a grant lapses by the eviction of its own session and in no other way |
| `RendezvousSafety.SessionLastsUntilEvicted` | rendezvous/src/relay.rs:182-211 | a session keeps its two fingerprints through every step until it is evicted, and is gone then |
| `RendezvousSafety.TokenWrittenToOnePair` | rendezvous/src/server.rs:242-291 | while a grant stands, whoever was written its token is one of its two peers, or of a pair whose grant has lapsed |
| `RendezvousSafety.EveryMatchHasItsPair` | rendezvous/src/server.rs:227-305 | every match ever written belongs to one first and one second peer of the same code, and tells the one the address the other's connection came from and the port it named, whatever address it claimed, or the relay's |
| `RendezvousSafety.PairsAreDisjoint` | rendezvous/src/server.rs:216-306 | no registration is in two pairs |
| `RendezvousSafety.EachWaiterIsInOnePlace` | rendezvous/src/server.rs:217-225 | a waiter is in the map under its own code, or with exactly one task, or resolved |
| `RendezvousSafety.TakenIsLive` | rendezvous/src/server.rs:221-224 | a waiter taken for pairing has not expired and its task still waits |
| `RendezvousSafety.PutBackSpares` | rendezvous/src/server.rs:249-266 | the put-back after a relay refusal never overwrites a racing registration |
| `RendezvousSafety.CleanUpHitsIff` | rendezvous/src/server.rs:341-350 | cleaning up removes another task's live entry iff the same device has one under the same code; other entries stay as they are |
| `RendezvousSafety.CleanUpSpares` | rendezvous/src/server.rs:341-350 | so with one registration per device and code in flight only its own or a dead entry goes |
| `RendezvousSafety.CleanUpHitsNewcomer` | rendezvous/src/server.rs:346-348 | a reachable state in which it removes a live waiter of another task |
| `RendezvousPairing.AdmittedIff` | rendezvous/src/server.rs:195-213 | a registration is admitted iff it speaks version 1 and its code has 4 to 32 letters and digits; any other is rejected |
| `RendezvousPairing.FirstPeerWaits` | rendezvous/src/server.rs:307-339 | from any state a first peer under a free code gets into the map, to stay there for the time to live |
| `RendezvousPairing.LaterOfTwoIsRejectedIff` | rendezvous/src/server.rs:310-328 | of two peers that both found nobody the later is rejected iff the earlier is still live, whose entry stays |
| `RendezvousPairing.PairIsMatched` | rendezvous/src/server.rs:236-381 | from any reachable state a second peer and the live waiter under its code are both told who the other is, unless the relay refuses |
| `RendezvousPairing.RefusedPairIsUndone` | rendezvous/src/server.rs:249-266 | if it does, iff the fingerprints are equal or the token is in use, the second peer is rejected and the waiter is in the map as before |
| `RendezvousPairing.LostPairExpires` | rendezvous/src/server.rs:280-305 | if the second peer cannot be written to, the first is told at once that its wait is over |
| `RendezvousPairing.LonePeerExpires` | rendezvous/src/server.rs:337-388 | a waiter for whom nobody came is told so, iff its time is up, and its entry is gone |
| `RendezvousPairing.TwoClientsMeet` | rendezvous/src/server.rs:175-389 | any two clients that register a free code one after the other, in any reachable state, are put in touch |
| `RelayHello.DecodesIff` | rendezvous/src/relay.rs:81-103 | exactly which datagrams decode to a given hello, byte for byte |
| `RelayHello.RoundTrip` | rendezvous/src/relay.rs:69-103 | an encoded hello, with anything after it, decodes to itself |
| `Relay.RelayState.Reserve` | rendezvous/src/relay.rs:147-180 | refused for equal fingerprints or a token in use, else one fresh session with both slots empty |
| `Relay.RelayState.Forget` | rendezvous/src/relay.rs:182-191 | the session goes, and with it exactly the addresses that name it |
| `Relay.RelayState.EvictIdle` | rendezvous/src/relay.rs:193-211 | exactly the half-open sessions made, and the pairs last active, more than two minutes ago go, with their addresses |
| `Relay.RelayState.OnPacket` | rendezvous/src/relay.rs:301-374 | one datagram: forwarded, dropped, or a peer admitted to its reserved slot |
| `Relay.IndexIsBijective` | rendezvous/src/relay.rs:134-211 | after any events an address is indexed under a session iff it fills a slot of it, and fills no other |
| `Relay.ForwardsWithinSession` | rendezvous/src/relay.rs:305-324 | a datagram goes only to the distinct other member of its own session, and both had shown the token and one of its two fingerprints |
| `Relay.ForwardedIff` | rendezvous/src/relay.rs:305-324 | after any events a datagram goes from one address to another iff they are distinct and indexed under one session, in both directions, and is counted iff it goes anywhere |
| `Relay.JoinsIff` | rendezvous/src/relay.rs:326-374 | a hello takes its sender in iff it is in no session, and the slot reserved for its fingerprint is free; nothing else changes |
| `Relay.HellosPair` | rendezvous/src/relay.rs:326-374 | two hellos to a session reserved for their fingerprints make their senders a pair, which lasts two minutes from the second one |
| `Relay.ActivePairStaysIff` | rendezvous/src/relay.rs:193-211 | a pair outlives a sweep iff its last datagram is at most two minutes old |
| `Relay.HalfOpenStaysIff` | rendezvous/src/relay.rs:193-211 | a session that has not become a pair outlives one iff it was reserved at most two minutes ago, whatever datagram came in between |
| `RelayCap.Meter` | rendezvous/src/relay.rs:273-299 | the loop lets through exactly the packets the bucket has tokens for, and all when there is no cap |
| `RelayCap.CapHolds` | rendezvous/src/relay.rs:287-299 | from any packet to any packet at most half a second's worth plus the cap times the time passes, although the bucket starts fuller |
| `RelayCap.PassesAfterIdle` | rendezvous/src/relay.rs:292-298 | after half a second of silence a packet passes iff it is at most half a second's worth; a larger one never does |
| `RelayCap.PassesIff` | rendezvous/src/relay.rs:287-299 | the exact condition: a packet passes iff, with what passed since any earlier packet, it is within half a second's worth plus the cap times the time since |
| `History.Folder.LoadOrQuarantine` | core/src/history.rs:276-299 | missing and empty files are an empty history, one that parses is its records, a corrupt one is moved aside whole |
| `History.Folder.AppendRecordLocked` | core/src/history.rs:223-271 | alone, the new file is the old records and the new one |
| `History.StepKeeps` | core/src/history.rs:223-299 | every step of every process, a failure, a kill or a power loss keeps the invariant |
| `History.FileIsTheLog` | core/src/history.rs:245-262 | the file renders the start and one record per committed call, in the order they got the lock |
| `History.FileIsNeverTorn` | core/src/history.rs:204-206 | from an absent or parseable start it is always absent or complete |
| `History.SuccessIsRecordedOnce` | core/src/history.rs:262-270 | a call that returned success is in exactly once, one that returned an error not at all, a killed one at most once |
| `History.EarlierCallIsFirst` | core/src/history.rs:199-202 | a call that returned before another began has its record before it |
| `History.CorruptIsKept` | core/src/history.rs:280-298 | a start that does not parse is still the file or moved aside, once and whole, before the first record replaces it; nothing else is moved aside |
| `History.LockIsFreeIff` | core/src/history.rs:230-240 | the lock is free unless a call is between getting it and its end, however other calls ended |
| `History.LoneCallSucceeds` | core/src/history.rs:223-271 | whatever happened before, a call that finds the lock free and is left alone succeeds, with its record after those the file had |
| `Bandwidth.BandwidthLimiter.constructor` | core/src/bandwidth.rs:52-69 | a bucket of two seconds' worth, full |
| `Bandwidth.BandwidthLimiter.WaitForTokens` | core/src/bandwidth.rs:93-133 | one call alone: bucket and time of the grant |
| `Bandwidth.RateBound` | core/src/bandwidth.rs:93-133 | for one caller and any sizes, between any two grants at most the capacity plus the rate times the time |
| `Bandwidth.GrantedAtOnceIff` | core/src/bandwidth.rs:93-115 | the other way: a caller is granted its bytes at once iff they are within two seconds' worth and, with those granted since any earlier call, within that plus the rate times the time since |
| `Bandwidth.SleepIsExact` | core/src/bandwidth.rs:117-133 | and when it has to sleep, the sleep is just what earns the missing bytes |
| `Bandwidth.DebtBound` | core/src/bandwidth.rs:125-132 | the debt never exceeds what the largest request exceeds the capacity by |
| `Bandwidth.ExcessIsDebt` | core/src/bandwidth.rs:93-133 | for callers interleaving at will, what is granted and what is left in the bucket never exceed one caller's bound |
| `Bandwidth.CrowdBound` | core/src/bandwidth.rs:117-133 | the bucket never owes more than the bytes of the callers asleep at once |
| `Bandwidth.SharedLimit` | core/src/bandwidth.rs:93-133 | over every stretch that begins with nobody asleep, callers are granted at most what one would be and the bytes a caller finds asleep when it comes |
| `Bandwidth.SharedLimitIff` | core/src/bandwidth.rs:93-133 | and that allowance is exact: with at most that many bytes found asleep, all runs keep the limit with an allowance iff the allowance covers them |
| `Bandwidth.CallersLimitIff` | core/src/bandwidth.rs:93-133 | all runs of any sizes keep the limit itself iff no caller comes while one sleeps |
| `Bandwidth.AloneIsGranted` | core/src/bandwidth.rs:93-133 | a caller with no other asleep is the single caller of `WaitForTokens`: same bucket, same time of grant |
| `Bandwidth.TwoCallersExceedIt` | core/src/bandwidth.rs:120-132 | at every rate and size two callers, the second coming while the first sleeps, exceed the limit by exactly the bytes found asleep |
| `StunAttributes.AttributesRoundTrip` | core/src/traversal/stun.rs:118-142 | any padded list of attributes parses back |
| `StunAttributes.CutAttributes` | core/src/traversal/stun.rs:120-127 | a message that ends inside an attribute has those before it, and that one iff its value is whole |
| `StunAttributes.FirstIsFirst` | core/src/traversal/stun.rs:128-140 | the first attribute a reader accepts decides, in wire order |
| `StunAttributes.Scan` | core/src/traversal/stun.rs:118-146 | the loop ends in bounds with what the attribute list says |
| `Stun.XorMappedRoundTrip` | core/src/traversal/stun.rs:148-178 | an IPv4 or IPv6 address encoded as XOR-MAPPED-ADDRESS reads back |
| `Stun.XorIsBitwise` | core/src/traversal/stun.rs:154-172 | what the exclusive or computes: a bit of it is set iff that bit of just one of the two numbers is |
| `Stun.KeysAre` | core/src/traversal/stun.rs:155-168 | the keys: the magic cookie, its upper half, and the cookie followed by the transaction id |
| `Stun.ReadsV6` | core/src/traversal/stun.rs:161-175 | an IPv6 address is read bit by bit against that key |
| `Stun.ReadsSampleV4` | core/src/traversal/stun.rs:148-160 | the attribute of the sample response in section 2.2 of RFC 5769 reads as 192.0.2.1 port 32853 |
| `Stun.ReadsSampleResponse` | core/src/traversal/stun.rs:101-160 | and so does a response with just that attribute |
| `Stun.UnreadableIff` | core/src/traversal/stun.rs:129-203 | which attributes are no address |
| `Stun.ParseBindingResponse` | core/src/traversal/stun.rs:101-146 | which header errors in which order, else the first readable mapped address |
| `Stun.MappedRoundTrip` | core/src/traversal/stun.rs:180-201 | and so does one encoded as MAPPED-ADDRESS |
| `Stun.MappedIsFound` | core/src/traversal/stun.rs:101-146 | unknown attributes, then a mapped address of either kind, then anything: the address is returned |
| `Stun.Query` | core/src/traversal/stun.rs:46-57 | foreign and mismatched datagrams are passed over, the first reply decides, else a timeout |
| `Framing.Writer.WriteMessage` | core/src/network/framing.rs:13-37 | one whole frame, or nothing for a message that is too large |
| `Framing.FrameLayout` | core/src/network/framing.rs:13-37 | byte by byte what a frame is |
| `Framing.Reader.ReadMessage` | core/src/network/framing.rs:43-101 | one message, a clean close, or the error of the place where the stream ends |
| `Framing.WholeFramesIsMost` | core/src/network/framing.rs:39-42 | how many frames a cut leaves whole |
| `Framing.CutStream` | core/src/network/framing.rs:43-101 | any messages' frames cut at any byte: the whole messages, then a clean close iff the cut is between frames |
| `Scheduler.TransferState.MarkChunkComplete` | core/src/state.rs:97-111 | bit, byte count and status of one chunk; out of range changes nothing |
| `Scheduler.TransferState.NextChunk` | core/src/state.rs:127-136 | the first clear bit of the first open file |
| `Scheduler.NextIsHead` | core/src/state.rs:127-136 | it is the lexicographically first chunk left, and marking it leaves the others |
| `Scheduler.NextIsNoneIff` | core/src/state.rs:127-136 | nothing is next iff every bit is set |
| `Scheduler.CompletesIff` | core/src/state.rs:103-108 | when everything is marked, a file is labelled complete iff it has at least two chunks |
| `Scheduler.SchedulesEverything` | core/src/state.rs:97-136 | marking what is next visits every chunk once in lexicographic order and counts exactly the total bytes |

## Left out

- The QUIC, TLS, UDP and TCP stacks, discovery, handshake, the user interfaces and the statistics: transports are reliable ordered channels here, and I/O enters as parameters.
- `validate_file_size` and the sanitizing of paths: simple guards; the size limit is a constant the machine checks.
- Progress counters and the resumed-byte display: their seeding differs between the sides on a resume.
- Disk errors inside the receiver's writer task, the bounded channel to it and the offloading of large compressions to a thread: the writer is a queue that drains at any pace and always succeeds.
- The compressor's error path: compression is total in the model, decompression is not.
- Rejection by the receiver's accept policy, and the resume check of the sender's own paths: in the machine both are failures of the two sides.
- How a batch is cut in the transfer machine: a flush there takes any non-empty part of what is missing, of which the size rule of `SendFile` is one; how many sessions follow each other is not bounded without a retry limit.
- A power failure that loses a completed rename of the history file: the directory entry is taken to be durable once renamed.
- Two quarantined histories of the same second share a name in the code and would overwrite each other; the model keeps a list.
- Floating-point rounding in the two token buckets and in the compression ratio: real and integer arithmetic instead.
- The doubling of the rate limit to the capacity is not checked against 64 bits.
- `TransferHistory::save_to_file`, which bypasses the lock, and the queries on a history.
- Connection errors that `read_message` maps to a clean close: the stream of the model ends or goes on.
- STUN request building and NAT classification; a server's padding bytes are zeros in `EncodeAttr`.
- The labels `Verified` and `Failed`, which other code sets: in `Scheduler` files have the labels that marking gives.
- The first frame of a rendezvous connection that is no registration, its time limit and the limit on connections.
- SendPath: it takes the sessions' outcomes as given, and leaves out loading and saving the state file, the back-off and the reconnect between sessions; the answer keeps the last error's kind, where the code wraps it in a message after the last attempt.
