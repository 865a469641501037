/** Receiving one file: parse, deduplicate, decompress and length-check frames, batch them to the
    writer (core/src/transfer_file.rs). */
module FileReceiving {
  import opened Prelude
  import opened Chunks
  import opened Compression
  import opened Wire
  import opened ChunkWriting
  import opened FileSending

  datatype RecvError =
    | TooManyExpected | BadChunkSize | TooManyChunks | ConnectionLost | StreamTooLong
    | BadFrame(cause: WireError) | CompressionDisabled | DecompressionFailed | WrongLength | Aborted

  /** The parameters of one receive. */
  datatype Job = Job(zstd: Zstd, config: Config, fileSize: nat, totalChunks: nat) {
    predicate Consistent() {
      config.chunkSize > 0 ==> totalChunks == ChunkCount(fileSize, config.chunkSize)
    }
  }

  // ----- what the receiver is meant to accept -----

  datatype Inbox = Inbox(seen: set<nat>, accepted: seq<Chunk>)

  datatype Progress = Progress(inbox: Inbox, error: Option<RecvError>)

  function Decoded(job: Job, f: Frame): Result<seq<byte>, RecvError> {
    if !f.Compressed() then Ok(f.payload)
    else if !job.config.compressionEnabled then Err(CompressionDisabled)
    else match job.zstd.DecompressLimited(f.payload, MAX_CHUNK_SIZE)
         case None => Err(DecompressionFailed)
         case Some(data) => Ok(data)
  }

  function AcceptFrame(job: Job, inbox: Inbox, f: Frame): Progress {
    if f.index in inbox.seen then Progress(inbox, None) else
    var marked := inbox.(seen := inbox.seen + {f.index});
    match Decoded(job, f)
    case Err(e) => Progress(marked, Some(e))
    case Ok(data) =>
      if |data| != ChunkLen(job.fileSize, job.config.chunkSize, f.index) then Progress(marked, Some(WrongLength))
      else Progress(marked.(accepted := marked.accepted + [Chunk(f.index, data)]), None)
  }

  function AcceptStream(job: Job, inbox: Inbox, raw: seq<byte>, off: nat): Progress
    requires off <= |raw|
    decreases |raw| - off
  {
    if off == |raw| then Progress(inbox, None) else
    match ReadFrame(raw, off, job.totalChunks)
    case Err(e) => Progress(inbox, Some(BadFrame(e)))
    case Ok((f, next)) =>
      var p := AcceptFrame(job, inbox, f);
      if p.error.Some? then p else AcceptStream(job, p.inbox, raw, next)
  }

  /** The receive loop over the queue of arriving streams; also gives what is left in the queue. */
  function AcceptStreams(job: Job, inbox: Inbox, incoming: seq<seq<byte>>, expected: nat): (Progress, seq<seq<byte>>)
    decreases incoming
  {
    if |inbox.seen| >= expected then (Progress(inbox, None), incoming)
    else if incoming == [] then (Progress(inbox, Some(ConnectionLost)), [])
    else if |incoming[0]| > MAX_STREAM_BYTES then (Progress(inbox, Some(StreamTooLong)), incoming[1..])
    else
      var p := AcceptStream(job, inbox, incoming[0], 0);
      if p.error.Some? then (p, incoming[1..]) else AcceptStreams(job, p.inbox, incoming[1..], expected)
  }

  const EMPTY := Inbox({}, [])

  /** The checks before any stream is accepted. */
  function Precheck(job: Job, expected: nat): Option<RecvError> {
    if expected > job.totalChunks then Some(TooManyExpected)
    else if !job.config.ChunkSizeOk() then Some(RecvError.BadChunkSize)
    else if job.totalChunks > MAX_CHUNKS_PER_FILE then Some(TooManyChunks)
    else None
  }

  /** Accepted chunks are exactly the seen ones as long as no frame failed, each once and correctly sized. */
  ghost predicate Sound(job: Job, inbox: Inbox) {
    && job.config.chunkSize > 0
    && AllSized(inbox.accepted, job.fileSize, job.config.chunkSize) && DistinctIndices(inbox.accepted)
    && forall k :: 0 <= k < |inbox.accepted| ==> inbox.accepted[k].index in inbox.seen
  }

  lemma AcceptFrameSound(job: Job, inbox: Inbox, f: Frame)
    requires job.Consistent() && Sound(job, inbox) && f.index < job.totalChunks
    ensures Sound(job, AcceptFrame(job, inbox, f).inbox)
    ensures inbox.accepted <= AcceptFrame(job, inbox, f).inbox.accepted
  {
  }

  // ----- the receiver -----

  /** The receive loop's locals: `seen`, `current_batch` and `current_bytes`. */
  datatype Intake = Intake(seen: set<nat>, batch: seq<Chunk>, bytes: nat)

  /** A batch that was handed over because it had reached the threshold. */
  predicate IsFull(item: WriteItem) {
    item.Batch? && FLUSH_BATCH_BYTES <= |Payload(item.chunks)| < FLUSH_BATCH_BYTES + MAX_CHUNK_SIZE
  }

  predicate AllFull(items: seq<WriteItem>) { forall k :: 0 <= k < |items| ==> IsFull(items[k]) }

  /** Full batches, and one more with what was left. */
  predicate FullButLast(items: seq<WriteItem>) {
    && (forall k :: 0 <= k < |items| - 1 ==> IsFull(items[k]))
    && (items != [] ==>
          var last := items[|items| - 1];
          last.Batch? && last.chunks != [] && |Payload(last.chunks)| < FLUSH_BATCH_BYTES + MAX_CHUNK_SIZE)
  }

  /** In bytes: all but the last are at least 64 MiB, on an error that one too, and none a chunk's 16 MiB more. */
  ghost predicate SizesAre(items: seq<WriteItem>, failed: bool) {
    && (forall k :: 0 <= k < |items| - 2 || (failed && 0 <= k < |items|) ==>
          items[k].Batch? && 64 * 0x10_0000 <= |Payload(items[k].chunks)|)
    && (forall k :: 0 <= k < |items| && items[k].Batch? ==>
          items[k].chunks != [] && |Payload(items[k].chunks)| < 80 * 0x10_0000)
  }

  lemma BatchSizes(batches: seq<WriteItem>, items: seq<WriteItem>, failed: bool)
    requires FullButLast(batches) && items == batches + if failed then [] else [Finalize]
    ensures (failed ==> AllFull(batches)) ==> SizesAre(items, failed)
  {
  }

  class FileReceiver {
    const job: Job
    const hash: seq<byte> -> Digest
    /** Streams the peer opened and this side has not accepted yet. */
    var incoming: seq<seq<byte>>
    /** What was handed to the writer task. */
    var items: seq<WriteItem>

    constructor (job: Job, hash: seq<byte> -> Digest, incoming: seq<seq<byte>>)
      ensures this.job == job && this.hash == hash && this.incoming == incoming && items == []
    {
      this.job, this.hash, this.incoming, items := job, hash, incoming, [];
    }

    /** The batches handed over and the open batch together are the accepted chunks, in order. */
    ghost predicate Tracks(intake: Intake, inbox: Inbox)
      reads this
    {
      && intake.seen == inbox.seen
      && Drained(items) + intake.batch == inbox.accepted
      && intake.bytes == |Payload(intake.batch)| < FLUSH_BATCH_BYTES
      && AllFull(items)
    }

    /** On an error the writer holds the accepted chunks but for an open batch. */
    ghost predicate HoldsPrefix(inbox: Inbox)
      reads this
    {
      && AllFull(items) && Drained(items) <= inbox.accepted
      && |Payload(inbox.accepted[|Drained(items)|..])| < FLUSH_BATCH_BYTES
    }

    method SendBatch(batch: seq<Chunk>)
      requires AllFull(items) && batch != [] && |Payload(batch)| < FLUSH_BATCH_BYTES + MAX_CHUNK_SIZE
      modifies this`items
      ensures items == old(items) + [Batch(batch)] && FullButLast(items) && Drained(items) == Drained(old(items)) + batch
    {
      var k := |items|;
      items := items + [Batch(batch)];
      DrainedSnoc(items, k);
      assert items[..k + 1] == items && items[..k] == old(items);
    }

    method TakeFrame(intake: Intake, f: Frame, ghost inbox: Inbox) returns (error: Option<RecvError>, next: Intake)
      requires job.config.ChunkSizeOk() && Tracks(intake, inbox)
      modifies this`items
      ensures error == AcceptFrame(job, inbox, f).error
      ensures error.None? ==> Tracks(next, AcceptFrame(job, inbox, f).inbox)
      ensures error.Some? ==> HoldsPrefix(AcceptFrame(job, inbox, f).inbox)
    {
      error, next := None, intake;
      if f.index in intake.seen {
        return;
      }
      next := intake.(seen := intake.seen + {f.index});
      var decoded := Decoded(job, f);
      if decoded.Err? {
        return Some(decoded.error), next;
      }
      var data := decoded.value;
      if |data| != ChunkLen(job.fileSize, job.config.chunkSize, f.index) {
        return Some(WrongLength), next;
      }
      next := Collect(next, Chunk(f.index, data));
    }

    /** The chunk joins the open batch, which is handed over once it reaches the threshold. */
    method Collect(intake: Intake, c: Chunk) returns (next: Intake)
      requires AllFull(items) && intake.bytes == |Payload(intake.batch)| < FLUSH_BATCH_BYTES && |c.data| <= MAX_CHUNK_SIZE
      modifies this`items
      ensures AllFull(items) && next.bytes == |Payload(next.batch)| < FLUSH_BATCH_BYTES && next.seen == intake.seen
      ensures Drained(items) + next.batch == Drained(old(items)) + intake.batch + [c]
    {
      assert (intake.batch + [c])[..|intake.batch|] == intake.batch;
      next := intake.(batch := intake.batch + [c], bytes := intake.bytes + |c.data|);
      if next.bytes >= FLUSH_BATCH_BYTES {
        SendBatch(next.batch);
        next := next.(batch := [], bytes := 0);
      }
    }

    /** Parse every frame of one stream. */
    method TakeStream(intake: Intake, raw: seq<byte>, ghost inbox: Inbox)
    returns (error: Option<RecvError>, next: Intake)
      requires job.config.ChunkSizeOk() && Tracks(intake, inbox)
      modifies this`items
      ensures var p := AcceptStream(job, inbox, raw, 0);
              && error == p.error
              && (error.None? ==> Tracks(next, p.inbox))
              && (error.Some? ==> HoldsPrefix(p.inbox))
    {
      next := intake;
      ghost var now := inbox;
      var off := 0;
      while off < |raw|
        invariant off <= |raw| && Tracks(next, now)
        invariant AcceptStream(job, inbox, raw, 0) == AcceptStream(job, now, raw, off)
        decreases |raw| - off
      {
        var parsed := ReadFrame(raw, off, job.totalChunks);
        if parsed.Err? {
          return Some(BadFrame(parsed.error)), next;
        }
        var (f, after) := parsed.value;
        ghost var p := AcceptFrame(job, now, f);
        var failed;
        failed, next := TakeFrame(next, f, now);
        if failed.Some? {
          return failed, next;
        }
        now := p.inbox;
        off := after;
      }
      return None, next;
    }

    /** Receive a file over a partial that already holds `leftover`. Whatever the arrival order and wherever the
        batches end, they concatenate to the accepted chunks and each stays bounded. On success the accepted
        chunks, in arrival order, are on disk chunk by chunk and the checksum is the hash of the disk; on any
        error some prefix of them is, and nothing is renamed. */
    method ReceiveFile(leftover: seq<byte>, expected: nat)
      returns (r: Result<Digest, RecvError>, onDisk: seq<byte>)
      requires job.Consistent() && items == []
      modifies this
      ensures expected > job.totalChunks ==> r == Err(TooManyExpected)
      ensures expected <= job.totalChunks && (job.config.chunkSize == 0 || job.config.chunkSize > 16 * 0x10_0000) ==>
                r == Err(RecvError.BadChunkSize)
      ensures expected <= job.totalChunks && 0 < job.config.chunkSize <= 16 * 0x10_0000 ==>
                job.totalChunks > 0x100_0000 ==> r == Err(TooManyChunks)
      ensures !(expected <= job.totalChunks <= 0x100_0000 && 0 < job.config.chunkSize <= 16 * 0x10_0000) ==>
                incoming == old(incoming) && onDisk == leftover
      ensures expected <= job.totalChunks <= 0x100_0000 && 0 < job.config.chunkSize <= 16 * 0x10_0000 ==>
                var (p, rest) := AcceptStreams(job, EMPTY, old(incoming), expected);
                var start := leftover[..Min(|leftover|, job.fileSize)];
                && incoming == rest
                && (p.error.None? ==> r == Ok(hash(onDisk))
                                      && onDisk == WriteAll(start, job.config.chunkSize, p.inbox.accepted))
                && (p.error.Some? ==> r == Err(p.error.value)
                                      && WrotePrefix(onDisk, start, p.inbox.accepted))
                && Drained(items) <= p.inbox.accepted && (p.error.None? ==> Drained(items) == p.inbox.accepted)
                && |Payload(p.inbox.accepted[|Drained(items)|..])| < 64 * 0x10_0000
      ensures SizesAre(items, r.Err?)
    {
      var refused := Precheck(job, expected);
      if refused.Some? {
        return Err(refused.value), leftover;
      }
      ghost var (end, rest) := AcceptStreams(job, EMPTY, incoming, expected);
      AcceptStreamsSound(job, EMPTY, incoming, expected);
      var error := ReceiveLoop(expected);
      r, onDisk := WriteOut(leftover, error, end.inbox);
    }

    /** The writer's end of it: `Finalize` is sent only when nothing failed. */
    method WriteOut(leftover: seq<byte>, error: Option<RecvError>, ghost inbox: Inbox)
      returns (r: Result<Digest, RecvError>, onDisk: seq<byte>)
      requires Sound(job, inbox) && Drained(items) <= inbox.accepted && (error.None? ==> Drained(items) == inbox.accepted)
      requires FullButLast(items) && (error.Some? ==> AllFull(items))
      modifies this`items
      ensures var start := leftover[..Min(|leftover|, job.fileSize)];
              && (error.None? ==> r == Ok(hash(onDisk)) && onDisk == WriteAll(start, job.config.chunkSize, inbox.accepted))
              && (error.Some? ==> r == Err(error.value) && WrotePrefix(onDisk, start, inbox.accepted))
      ensures Drained(items) == Drained(old(items))
      ensures SizesAre(items, error.Some?)
    {
      BatchSizes(items, items, true);
      BatchSizes(items, items + [Finalize], false);
      PrefixSound(job, inbox, Drained(items));
      var written;
      if error.Some? {
        written, onDisk := WritePartial(leftover, job.config.chunkSize, job.fileSize, items, hash);
        return Err(error.value), onDisk;
      }
      DrainedFinalize(items);
      items := items + [Finalize];
      written, onDisk := WritePartial(leftover, job.config.chunkSize, job.fileSize, items, hash);
      assert items[|items| - 1].Finalize?;
      return Ok(written.value), onDisk;
    }

    /** The loop itself, with the flush of the last open batch once every index has been seen. */
    method ReceiveLoop(expected: nat) returns (error: Option<RecvError>)
      requires job.config.ChunkSizeOk() && items == []
      modifies this
      ensures var (p, rest) := AcceptStreams(job, EMPTY, old(incoming), expected);
              && error == p.error && incoming == rest
              && (if error.None? then FullButLast(items) && Drained(items) == p.inbox.accepted else HoldsPrefix(p.inbox))
    {
      error := None;
      var intake := Intake({}, [], 0);
      ghost var inbox := EMPTY;
      ghost var (end, rest) := AcceptStreams(job, EMPTY, incoming, expected);
      while |intake.seen| < expected
        invariant error == None && Tracks(intake, inbox)
        invariant AcceptStreams(job, inbox, incoming, expected) == (end, rest)
        decreases incoming
      {
        if incoming == [] {
          return Some(ConnectionLost);
        }
        var raw := incoming[0];
        incoming := incoming[1..];
        if |raw| > MAX_STREAM_BYTES {
          return Some(StreamTooLong);
        }
        ghost var p := AcceptStream(job, inbox, raw, 0);
        error, intake := TakeStream(intake, raw, inbox);
        if error.Some? {
          return;
        }
        inbox := p.inbox;
      }
      if intake.batch != [] {
        SendBatch(intake.batch);
      }
    }

    ghost predicate WrotePrefix(onDisk: seq<byte>, start: seq<byte>, accepted: seq<Chunk>) {
      exists k :: 0 <= k <= |accepted| && onDisk == WriteAll(start, job.config.chunkSize, accepted[..k])
    }
  }

  lemma {:induction false} DrainedFinalize(items: seq<WriteItem>)
    requires forall k :: 0 <= k < |items| ==> items[k].Batch?
    ensures Drained(items + [Finalize]) == Drained(items)
  {
    if items != [] {
      DrainedFinalize(items[1..]);
      assert (items + [Finalize])[1..] == items[1..] + [Finalize];
    }
  }

  lemma PrefixSound(job: Job, inbox: Inbox, part: seq<Chunk>)
    requires Sound(job, inbox) && part <= inbox.accepted
    ensures AllSized(part, job.fileSize, job.config.chunkSize) && DistinctIndices(part)
    ensures part == inbox.accepted[..|part|]
  {
    forall k | 0 <= k < |part|
      ensures Sized(part[k], job.fileSize, job.config.chunkSize)
    {
      assert part[k] == inbox.accepted[k];
    }
  }

  lemma {:induction false} AcceptStreamSound(job: Job, inbox: Inbox, raw: seq<byte>, off: nat)
    requires job.Consistent() && Sound(job, inbox) && off <= |raw|
    ensures Sound(job, AcceptStream(job, inbox, raw, off).inbox)
    decreases |raw| - off
  {
    if off < |raw| && ReadFrame(raw, off, job.totalChunks).Ok? {
      var (f, next) := ReadFrame(raw, off, job.totalChunks).value;
      AcceptFrameSound(job, inbox, f);
      var p := AcceptFrame(job, inbox, f);
      if p.error.None? {
        AcceptStreamSound(job, p.inbox, raw, next);
      }
    }
  }

  /** Whatever arrives, what is accepted is distinct, in range and correctly sized. */
  lemma {:induction false} AcceptStreamsSound(job: Job, inbox: Inbox, incoming: seq<seq<byte>>, expected: nat)
    requires job.Consistent() && Sound(job, inbox)
    ensures Sound(job, AcceptStreams(job, inbox, incoming, expected).0.inbox)
    decreases incoming
  {
    if |inbox.seen| < expected && incoming != [] && |incoming[0]| <= MAX_STREAM_BYTES {
      AcceptStreamSound(job, inbox, incoming[0], 0);
      var p := AcceptStream(job, inbox, incoming[0], 0);
      if p.error.None? {
        AcceptStreamsSound(job, p.inbox, incoming[1..], expected);
      }
    }
  }
}
