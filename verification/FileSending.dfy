/** Sending one file: read in order, hash, compress, frame, and pack frames into bounded streams
    (core/src/transfer_file.rs). */
module FileSending {
  import opened Prelude
  import opened Chunks
  import opened Compression
  import opened Wire
  import opened ChunkWriting

  /** The negotiated configuration, as far as file transfer reads it. */
  datatype Config = Config(chunkSize: nat, compressionEnabled: bool, adaptive: bool) {
    predicate ChunkSizeOk() { 0 < chunkSize <= MAX_CHUNK_SIZE }

    function SampleSize(): nat { if adaptive then 3 else 0 }
  }

  datatype SendError = BadChunkSize | ReadOutOfBounds | LinkDown

  // ----- what a run of the sender is meant to put on the wire -----

  /** The chunk indices still to be sent, from `i` on, in ascending order. */
  function Missing(total: nat, completed: set<nat>, i: nat): seq<nat>
    requires i <= total
    decreases total - i
  {
    if i == total then []
    else if i in completed then Missing(total, completed, i + 1)
    else [i] + Missing(total, completed, i + 1)
  }

  function CompressChunk(z: Zstd, cfg: Config, s: Sampler, data: seq<byte>): (Sampler, Output) {
    if cfg.compressionEnabled then Step(z, s, data) else (s, Output(data, false, false))
  }

  function FrameOf(i: nat, out: Output): Frame {
    Frame(i, if out.compressed then FLAG_COMPRESSED else 0, out.payload)
  }

  /** The frames of the missing chunks from `i` on. */
  function Frames(z: Zstd, cfg: Config, file: seq<byte>, completed: set<nat>, s: Sampler, i: nat): seq<Frame>
    requires cfg.chunkSize > 0 && i <= ChunkCount(|file|, cfg.chunkSize)
    decreases ChunkCount(|file|, cfg.chunkSize) - i
  {
    if i == ChunkCount(|file|, cfg.chunkSize) then []
    else if i in completed then Frames(z, cfg, file, completed, s, i + 1)
    else
      var (t, out) := CompressChunk(z, cfg, s, ChunkAt(file, cfg.chunkSize, i));
      [FrameOf(i, out)] + Frames(z, cfg, file, completed, t, i + 1)
  }

  /** Greedy packing: close the open group when the next frame would push it past one stream's capacity. */
  function Pack(frames: seq<Frame>, open: seq<Frame>): seq<seq<Frame>>
    decreases frames
  {
    if frames == [] then (if open == [] then [] else [open])
    else if |EncodeAll(open)| + |Encode(frames[0])| > BATCH_MAX_BYTES then [open] + Pack(frames[1..], [frames[0]])
    else Pack(frames[1..], open + [frames[0]])
  }

  function Indices(frames: seq<Frame>): seq<nat> {
    seq(|frames|, k requires 0 <= k < |frames| => frames[k].index)
  }

  function Streams(groups: seq<seq<Frame>>): seq<seq<byte>> {
    seq(|groups|, k requires 0 <= k < |groups| => EncodeAll(groups[k]))
  }

  /** All streams a sender emits for a file, as groups of frames. */
  function Groups(z: Zstd, cfg: Config, file: seq<byte>, completed: set<nat>): seq<seq<Frame>>
    requires cfg.chunkSize > 0
  {
    Pack(Frames(z, cfg, file, completed, NewSampler(cfg.SampleSize()), 0), [])
  }

  // ----- the reader -----

  class ChunkReader {
    const file: seq<byte>
    const chunkSize: nat
    const totalChunks: nat
    var hasher: seq<byte>

    constructor (file: seq<byte>, chunkSize: nat)
      requires chunkSize > 0
      ensures this.file == file && this.chunkSize == chunkSize && hasher == []
      ensures totalChunks == ChunkCount(|file|, chunkSize)
    {
      this.file, this.chunkSize, hasher := file, chunkSize, [];
      totalChunks := ChunkCount(|file|, chunkSize);
    }

    /** Read a chunk and feed it to the hash; an offset past the end of the file is an error. */
    method ReadChunk(index: nat) returns (r: Result<seq<byte>, SendError>)
      modifies this`hasher
      ensures r.Ok? <==> index * chunkSize <= |file|
      ensures r.Ok? ==>
                var end := index * chunkSize + ChunkLen(|file|, chunkSize, index);
                end <= |file| && r.value == file[index * chunkSize..end] && hasher == old(hasher) + r.value
      ensures r.Err? ==> hasher == old(hasher) && r.error == ReadOutOfBounds
    {
      var offset := index * chunkSize;
      if |file| < offset {
        return Err(ReadOutOfBounds);
      }
      var toRead := Min(|file| - offset, chunkSize);
      var buffer := file[offset..offset + toRead];
      hasher := hasher + buffer;
      return Ok(buffer);
    }

    /** In order from the start, reading chunk `i` extends the hashed prefix by exactly chunk `i`. */
    method ReadNext(i: nat) returns (data: seq<byte>)
      requires chunkSize > 0 && totalChunks == ChunkCount(|file|, chunkSize) && i < totalChunks
      requires hasher == FirstChunks(file, chunkSize, i)
      modifies this`hasher
      ensures data == ChunkAt(file, chunkSize, i) && hasher == FirstChunks(file, chunkSize, i + 1)
    {
      ChunkBounds(|file|, chunkSize, i);
      var r := ReadChunk(i);
      data := r.value;
    }
  }

  // ----- the sender -----

  class FileSender {
    const zstd: Zstd
    const config: Config
    const hash: seq<byte> -> Digest
    /** Streams written, finished and acknowledged. */
    var streams: seq<seq<byte>>
    /** Chunk indices handed to the completion callback, in order. */
    var reported: seq<nat>

    constructor (zstd: Zstd, config: Config, hash: seq<byte> -> Digest)
      ensures this.zstd == zstd && this.config == config && this.hash == hash && streams == [] && reported == []
    {
      this.zstd, this.config, this.hash := zstd, config, hash;
      streams, reported := [], [];
    }

    /** One stream per batch. Flush number `failAt` is the one the link does not survive. */
    method FlushBatch(batch: seq<byte>, ordinal: nat, failAt: nat) returns (ok: bool)
      modifies this`streams
      ensures ok <==> ordinal != failAt
      ensures streams == if ok then old(streams) + [batch] else old(streams)
    {
      ok := ordinal != failAt;
      if ok {
        streams := streams + [batch];
      }
    }

    /** Send a file, skipping `completedChunks`. `failAt` past the last stream means no flush fails.
        Whatever fails, exactly the groups before it went out and exactly their chunks were reported;
        on success the checksum covers the whole file whatever was skipped. */
    method SendFile(file: seq<byte>, completedChunks: seq<nat>, failAt: nat) returns (r: Result<Digest, SendError>)
      modifies this
      ensures config.chunkSize == 0 || config.chunkSize > 16 * 0x10_0000 ==>
                r == Err(BadChunkSize) && streams == old(streams) && reported == old(reported)
      ensures 0 < config.chunkSize <= 16 * 0x10_0000 ==>
                var groups := Groups(zstd, config, file, AsSet(completedChunks));
                var sent := groups[..Min(failAt, |groups|)];
                && r == (if failAt < |groups| then Err(LinkDown) else Ok(hash(file)))
                && streams == old(streams) + Streams(sent)
                && reported == old(reported) + Indices(Concat(sent))
    {
      if config.chunkSize == 0 || config.chunkSize > MAX_CHUNK_SIZE {
        return Err(BadChunkSize);
      }
      var reader := new ChunkReader(file, config.chunkSize);
      var compressor := new AdaptiveCompressor(zstd, config.SampleSize());
      var completed := AsSet(completedChunks);
      var buffer := Buffer([], [], 0);
      ghost var plan := Plan(Groups(zstd, config, file, completed), streams, reported);
      ghost var open: seq<Frame> := [];

      var i := 0;
      while i < reader.totalChunks
        invariant i <= reader.totalChunks && fresh(reader) && fresh(compressor)
        invariant reader.hasher == FirstChunks(file, config.chunkSize, i)
        invariant compressor.zstd == zstd
        invariant OnPlan(plan, buffer, open, Frames(zstd, config, file, completed, compressor.View(), i), failAt)
      {
        var ok;
        ok, buffer, open := SendChunk(reader, compressor, completed, i, buffer, failAt, plan, open);
        if !ok {
          return Err(LinkDown);
        }
        i := i + 1;
      }
      var ok := FlushLast(buffer, failAt, plan, open);
      if !ok {
        return Err(LinkDown);
      }
      AllChunksAreFile(file, config.chunkSize);
      return Ok(hash(reader.hasher));
    }

    /** Read and hash chunk `i`, and unless it is to be skipped compress it and buffer its frame. */
    method SendChunk(reader: ChunkReader, compressor: AdaptiveCompressor, completed: set<nat>, i: nat, buffer: Buffer,
                     failAt: nat, ghost plan: Plan, ghost open: seq<Frame>)
      returns (ok: bool, next: Buffer, ghost nextOpen: seq<Frame>)
      requires config.chunkSize > 0 && reader.chunkSize == config.chunkSize && compressor.zstd == zstd
      requires i < reader.totalChunks == ChunkCount(|reader.file|, config.chunkSize)
      requires reader.hasher == FirstChunks(reader.file, config.chunkSize, i)
      requires OnPlan(plan, buffer, open, Frames(zstd, config, reader.file, completed, compressor.View(), i), failAt)
      modifies this, reader, compressor
      ensures reader.hasher == FirstChunks(reader.file, config.chunkSize, i + 1)
      ensures ok ==>
                OnPlan(plan, next, nextOpen, Frames(zstd, config, reader.file, completed, compressor.View(), i + 1), failAt)
      ensures !ok ==> failAt < |plan.groups| && Sent(plan, failAt)
    {
      ok, next, nextOpen := true, buffer, open;
      var data := reader.ReadNext(i);
      FramesFrom(zstd, config, reader.file, completed, compressor.View(), i);
      if i in completed {
        return;
      }
      var out := CompressNext(compressor, data);
      ghost var rest := Frames(zstd, config, reader.file, completed, compressor.View(), i + 1);
      ok, next, nextOpen := PushFrame(buffer, i, out, failAt, plan, open, rest);
    }

    /** Compress the chunk, unless compression is off. */
    method CompressNext(compressor: AdaptiveCompressor, data: seq<byte>) returns (out: Output)
      requires compressor.zstd == zstd
      modifies compressor
      ensures (compressor.View(), out) == CompressChunk(zstd, config, old(compressor.View()), data)
    {
      out := Output(data, false, false);
      if config.compressionEnabled {
        out := compressor.Compress(data);
      }
    }

    /** Where a run stands against its plan: the groups before `flushes` are out and reported, the
        open group is buffered with its callbacks pending, and `rest` is what is still to be packed. */
    ghost predicate OnPlan(plan: Plan, buffer: Buffer, open: seq<Frame>, rest: seq<Frame>, failAt: nat)
      reads this
    {
      && buffer.batch == EncodeAll(open) && buffer.pending == Indices(open)
      && buffer.flushes <= failAt && buffer.flushes <= |plan.groups|
      && plan.groups[buffer.flushes..] == Pack(rest, open)
      && Sent(plan, buffer.flushes)
    }

    ghost predicate Sent(plan: Plan, flushes: nat)
      requires flushes <= |plan.groups|
      reads this
    {
      && streams == plan.streams0 + Streams(plan.groups[..flushes])
      && reported == plan.reported0 + Indices(Concat(plan.groups[..flushes]))
    }

    /** Flush and report the open group. */
    method FlushGroup(buffer: Buffer, failAt: nat, ghost plan: Plan, ghost open: seq<Frame>,
        ghost later: seq<seq<Frame>>)
      returns (ok: bool)
      requires buffer.batch == EncodeAll(open) && buffer.pending == Indices(open)
      requires buffer.flushes <= failAt && buffer.flushes <= |plan.groups|
      requires plan.groups[buffer.flushes..] == [open] + later && Sent(plan, buffer.flushes)
      modifies this
      ensures buffer.flushes < |plan.groups|
      ensures ok <==> buffer.flushes != failAt
      ensures Sent(plan, if ok then buffer.flushes + 1 else buffer.flushes)
      ensures plan.groups[buffer.flushes + 1..] == later
    {
      StepGroups(plan.groups, buffer.flushes, open, later);
      ok := FlushBatch(buffer.batch, buffer.flushes, failAt);
      if ok {
        reported := reported + buffer.pending;
      }
    }

    /** Buffer one frame, flushing first if it would push the batch past one stream's capacity. */
    method PushFrame(buffer: Buffer, i: nat, out: Output, failAt: nat,
                     ghost plan: Plan, ghost open: seq<Frame>, ghost rest: seq<Frame>)
      returns (ok: bool, next: Buffer, ghost nextOpen: seq<Frame>)
      requires OnPlan(plan, buffer, open, [FrameOf(i, out)] + rest, failAt)
      modifies this
      ensures ok ==> OnPlan(plan, next, nextOpen, rest, failAt)
      ensures !ok ==> failAt < |plan.groups| && Sent(plan, failAt)
    {
      ghost var f := FrameOf(i, out);
      assert ([f] + rest)[1..] == rest;
      next, nextOpen, ok := buffer, open, true;
      var frameLen := CHUNK_HEADER_BYTES + |out.payload|;
      if |buffer.batch| + frameLen > BATCH_MAX_BYTES {
        ok := FlushGroup(buffer, failAt, plan, open, Pack(rest, [f]));
        if !ok {
          return;
        }
        next, nextOpen := Buffer([], [], buffer.flushes + 1), [];
      }
      AppendFrame(nextOpen, f);
      assert Encode(f) == Header(i, out) + out.payload;
      next := Buffer(next.batch + (Header(i, out) + out.payload), next.pending + [i], next.flushes);
      nextOpen := nextOpen + [f];
      assert [] + [f] == [f];
      assert plan.groups[next.flushes..] == Pack(rest, nextOpen);
    }

    /** The final flush, if anything is buffered. */
    method FlushLast(buffer: Buffer, failAt: nat, ghost plan: Plan, ghost open: seq<Frame>) returns (ok: bool)
      requires OnPlan(plan, buffer, open, [], failAt)
      modifies this
      ensures ok ==> |plan.groups| <= failAt && Sent(plan, |plan.groups|)
      ensures !ok ==> failAt < |plan.groups| && Sent(plan, failAt)
    {
      ok := true;
      if buffer.batch != [] {
        ok := FlushGroup(buffer, failAt, plan, open, []);
      }
    }
  }

  /** One chunk of the plan: skipped, or compressed and framed. */
  lemma FramesFrom(z: Zstd, cfg: Config, file: seq<byte>, completed: set<nat>, s: Sampler, i: nat)
    requires cfg.chunkSize > 0 && i < ChunkCount(|file|, cfg.chunkSize)
    ensures i in completed ==> Frames(z, cfg, file, completed, s, i) == Frames(z, cfg, file, completed, s, i + 1)
    ensures i !in completed ==>
              var (t, out) := CompressChunk(z, cfg, s, ChunkAt(file, cfg.chunkSize, i));
              Frames(z, cfg, file, completed, s, i) == [FrameOf(i, out)] + Frames(z, cfg, file, completed, t, i + 1)
  {
  }

  /** The sender's local buffers: `batch`, `pending_callbacks` and the number of streams flushed. */
  datatype Buffer = Buffer(batch: seq<byte>, pending: seq<nat>, flushes: nat)

  /** What a call is meant to do, and the state it started from. */
  datatype Plan = Plan(groups: seq<seq<Frame>>, streams0: seq<seq<byte>>, reported0: seq<nat>)

  /** The thirteen header bytes of a frame. */
  function Header(i: nat, out: Output): seq<byte> {
    LeBytes(i, 8) + [if out.compressed then FLAG_COMPRESSED else 0] + LeBytes(|out.payload|, 4)
  }

  lemma AppendFrame(open: seq<Frame>, f: Frame)
    ensures EncodeAll(open + [f]) == EncodeAll(open) + Encode(f)
    ensures Indices(open + [f]) == Indices(open) + [f.index]
  {
    EncodeAllAppend(open, [f]);
    assert [f][1..] == [];
  }

  lemma StepGroups(groups: seq<seq<Frame>>, k: nat, open: seq<Frame>, rest: seq<seq<Frame>>)
    requires k <= |groups| && groups[k..] == [open] + rest
    ensures k < |groups| && groups[k + 1..] == rest
    ensures Streams(groups[..k + 1]) == Streams(groups[..k]) + [EncodeAll(open)]
    ensures Indices(Concat(groups[..k + 1])) == Indices(Concat(groups[..k])) + Indices(open)
  {
    assert groups[k] == groups[k..][0] == open;
    assert groups[k + 1..] == groups[k..][1..];
    assert groups[..k + 1] == groups[..k] + [open];
    ConcatSnoc(groups[..k], open);
  }
}
