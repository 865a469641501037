/** Sender and receiver of one file agree: what one packs into streams the other accepts, to the last
    stream and no further (core/src/transfer_file.rs, core/src/transfer_folder.rs). */
module StreamAgreement {
  import opened Prelude
  import opened Chunks
  import opened Compression
  import opened Wire
  import opened FileSending
  import opened FileReceiving
  import opened Coverage

  /** The receiver's count of distinct indices to expect: duplicates and out-of-range entries do not count. */
  function Expected(total: nat, completed: seq<nat>): nat {
    var valid := set i | i in completed && i < total;
    if |valid| > total then 0 else total - |valid|
  }

  // ----- the frames a sender emits -----

  /** A frame that carries chunk `f.index` of the file in a form the receiver can decode, small enough to fit a stream. */
  ghost predicate Carries(z: Zstd, cfg: Config, file: seq<byte>, f: Frame)
    requires cfg.chunkSize > 0
  {
    && f.index < ChunkCount(|file|, cfg.chunkSize)
    && f.Fits() && |Encode(f)| <= BATCH_MAX_BYTES
    && Decodes(z, f.payload, f.Compressed(), ChunkAt(file, cfg.chunkSize, f.index))
    && (f.Compressed() ==> cfg.compressionEnabled)
  }

  ghost predicate AllCarry(z: Zstd, cfg: Config, file: seq<byte>, frames: seq<Frame>)
    requires cfg.chunkSize > 0
  {
    forall k :: 0 <= k < |frames| ==> Carries(z, cfg, file, frames[k])
  }

  predicate Setting(z: Zstd, cfg: Config, file: seq<byte>) {
    cfg.ChunkSizeOk() && |file| < U64
  }

  lemma AtLeastIndex(i: nat, chunkSize: nat)
    requires chunkSize > 0
    ensures i * chunkSize >= i
  {
    assert i * chunkSize == i + i * (chunkSize - 1);
    assert i * (chunkSize - 1) >= 0;
  }

  lemma CountBelowSize(size: nat, chunkSize: nat)
    requires chunkSize > 0
    ensures ChunkCount(size, chunkSize) <= size
  {
    var n := ChunkCount(size, chunkSize);
    if n > 0 {
      InRange(size, chunkSize, n - 1);
      AtLeastIndex(n - 1, chunkSize);
    }
  }

  lemma FrameCarries(z: Zstd, cfg: Config, file: seq<byte>, s: Sampler, i: nat)
    requires z.Lawful() && Setting(z, cfg, file) && i < ChunkCount(|file|, cfg.chunkSize)
    ensures Carries(z, cfg, file, FrameOf(i, CompressChunk(z, cfg, s, ChunkAt(file, cfg.chunkSize, i)).1))
  {
    CountBelowSize(|file|, cfg.chunkSize);
    var data := ChunkAt(file, cfg.chunkSize, i);
    assert |data| <= MAX_CHUNK_SIZE;
  }

  /** The frames carry exactly the missing chunks, each once, in ascending order, and each decodes to its chunk. */
  lemma {:induction false} FramesCarryMissing(z: Zstd, cfg: Config, file: seq<byte>, completed: set<nat>, s: Sampler,
        i: nat)
    requires z.Lawful() && Setting(z, cfg, file) && i <= ChunkCount(|file|, cfg.chunkSize)
    ensures var frames := Frames(z, cfg, file, completed, s, i);
            && AllCarry(z, cfg, file, frames)
            && Indices(frames) == Missing(ChunkCount(|file|, cfg.chunkSize), completed, i)
    decreases ChunkCount(|file|, cfg.chunkSize) - i
  {
    if i < ChunkCount(|file|, cfg.chunkSize) {
      FramesFrom(z, cfg, file, completed, s, i);
      if i in completed {
        FramesCarryMissing(z, cfg, file, completed, s, i + 1);
      } else {
        var (t, out) := CompressChunk(z, cfg, s, ChunkAt(file, cfg.chunkSize, i));
        FrameCarries(z, cfg, file, s, i);
        FramesCarryMissing(z, cfg, file, completed, t, i + 1);
        CarryOneMore(z, cfg, file, FrameOf(i, out), Frames(z, cfg, file, completed, t, i + 1));
      }
    }
  }

  lemma CarryOneMore(z: Zstd, cfg: Config, file: seq<byte>, f: Frame, rest: seq<Frame>)
    requires cfg.chunkSize > 0 && Carries(z, cfg, file, f) && AllCarry(z, cfg, file, rest)
    ensures AllCarry(z, cfg, file, [f] + rest) && Indices([f] + rest) == [f.index] + Indices(rest)
  {
  }

  lemma {:induction false} MissingFacts(total: nat, completed: set<nat>, i: nat)
    requires i <= total
    ensures var m := Missing(total, completed, i);
            && Distinct(m)
            && (forall x :: x in m <==> i <= x < total && x !in completed)
            && |m| == total - i - |set x | x in completed && i <= x < total|
    decreases total - i
  {
    var valid := set x | x in completed && i <= x < total;
    if i < total {
      MissingFacts(total, completed, i + 1);
      var later := set x | x in completed && i + 1 <= x < total;
      if i in completed {
        assert valid == later + {i};
      } else {
        assert valid == later;
      }
    } else {
      assert valid == {};
    }
  }

  // ----- packing -----

  /** Packing neither drops, repeats nor reorders frames. */
  lemma {:induction false} PackFlattens(frames: seq<Frame>, open: seq<Frame>)
    ensures Concat(Pack(frames, open)) == open + frames
    decreases frames
  {
    if frames == [] {
      assert [open][1..] == [];
      assert Concat([open]) == open;
    } else if |EncodeAll(open)| + |Encode(frames[0])| > BATCH_MAX_BYTES {
      PackFlattens(frames[1..], [frames[0]]);
      assert ([open] + Pack(frames[1..], [frames[0]]))[1..] == Pack(frames[1..], [frames[0]]);
      assert [frames[0]] + frames[1..] == frames;
    } else {
      PackFlattens(frames[1..], open + [frames[0]]);
      assert open + [frames[0]] + frames[1..] == open + frames;
    }
  }

  /** Every stream is non-empty and within one stream's capacity. */
  lemma {:induction false} PackBounded(frames: seq<Frame>, open: seq<Frame>)
    requires forall k :: 0 <= k < |frames| ==> |Encode(frames[k])| <= BATCH_MAX_BYTES
    requires |EncodeAll(open)| <= BATCH_MAX_BYTES
    ensures forall g :: g in Pack(frames, open) ==> g != [] && 0 < |EncodeAll(g)| <= BATCH_MAX_BYTES
    decreases frames
  {
    if frames != [] {
      assert frames[1..] == [] || forall k :: 0 <= k < |frames[1..]| ==> frames[1..][k] == frames[k + 1];
      assert [frames[0]][1..] == [];
      if |EncodeAll(open)| + |Encode(frames[0])| > BATCH_MAX_BYTES {
        PackBounded(frames[1..], [frames[0]]);
      } else {
        AppendFrame(open, frames[0]);
        PackBounded(frames[1..], open + [frames[0]]);
      }
    }
  }

  /** Stream `k` was closed because the first frame of the next one would not have gone into it. */
  ghost predicate ClosedFull(groups: seq<seq<Frame>>, k: nat) {
    k + 1 < |groups| ==>
      groups[k + 1] != [] && |EncodeAll(groups[k])| + |Encode(groups[k + 1][0])| > 32 * 0x10_0000
  }

  /** A stream is closed only for a frame that would not have gone into it. */
  lemma {:induction false} PackIsGreedy(frames: seq<Frame>, open: seq<Frame>)
    ensures var groups := Pack(frames, open);
            && (open != [] ==> groups != [] && groups[0] != [] && groups[0][0] == open[0])
            && forall k :: 0 <= k < |groups| ==> ClosedFull(groups, k)
    decreases frames
  {
    if frames != [] {
      if |EncodeAll(open)| + |Encode(frames[0])| > BATCH_MAX_BYTES {
        PackIsGreedy(frames[1..], [frames[0]]);
        ClosedOneMore(open, Pack(frames[1..], [frames[0]]), frames[0]);
      } else {
        PackIsGreedy(frames[1..], open + [frames[0]]);
      }
    }
  }

  lemma ClosedOneMore(open: seq<Frame>, rest: seq<seq<Frame>>, f: Frame)
    requires rest != [] && rest[0] != [] && rest[0][0] == f && |EncodeAll(open)| + |Encode(f)| > BATCH_MAX_BYTES
    requires forall k :: 0 <= k < |rest| ==> ClosedFull(rest, k)
    ensures forall k :: 0 <= k < |[open] + rest| ==> ClosedFull([open] + rest, k)
  {
    forall k | 0 <= k < |[open] + rest|
      ensures ClosedFull([open] + rest, k)
    {
      assert k > 0 ==> ClosedFull(rest, k - 1);
    }
  }

  // ----- the receiving side of one group -----

  function ChunksOf(file: seq<byte>, chunkSize: nat, indices: seq<nat>): (cs: seq<Chunk>)
    requires chunkSize > 0 && forall k :: 0 <= k < |indices| ==> indices[k] < ChunkCount(|file|, chunkSize)
    ensures |cs| == |indices|
  {
    seq(|indices|, k requires 0 <= k < |indices| => Chunk(indices[k], ChunkAt(file, chunkSize, indices[k])))
  }

  function Deliver(file: seq<byte>, chunkSize: nat, inbox: Inbox, index: nat): Inbox
    requires chunkSize > 0 && index < ChunkCount(|file|, chunkSize)
  {
    Inbox(inbox.seen + {index}, inbox.accepted + [Chunk(index, ChunkAt(file, chunkSize, index))])
  }

  /** Delivering the frames' chunks one after another. */
  function DeliverAll(z: Zstd, cfg: Config, file: seq<byte>, inbox: Inbox, frames: seq<Frame>): Inbox
    requires cfg.chunkSize > 0 && InRangeAll(cfg, file, frames)
    decreases frames
  {
    if frames == [] then inbox
    else DeliverAll(z, cfg, file, Deliver(file, cfg.chunkSize, inbox, frames[0].index), frames[1..])
  }

  predicate InRangeAll(cfg: Config, file: seq<byte>, frames: seq<Frame>)
    requires cfg.chunkSize > 0
  {
    forall k :: 0 <= k < |frames| ==> frames[k].index < ChunkCount(|file|, cfg.chunkSize)
  }

  lemma AcceptCarried(job: Job, file: seq<byte>, inbox: Inbox, f: Frame)
    requires job.config.ChunkSizeOk() && job.fileSize == |file|
    requires Carries(job.zstd, job.config, file, f) && f.index !in inbox.seen
    ensures AcceptFrame(job, inbox, f) == Progress(Deliver(file, job.config.chunkSize, inbox, f.index), None)
  {
  }

  ghost predicate Unseen(frames: seq<Frame>, seen: set<nat>) {
    && (forall i, j :: 0 <= i < j < |frames| ==> frames[i].index != frames[j].index)
    && forall k :: 0 <= k < |frames| ==> frames[k].index !in seen
  }

  ghost predicate Ready(job: Job, file: seq<byte>, frames: seq<Frame>, seen: set<nat>)
    requires job.config.chunkSize > 0
  {
    AllCarry(job.zstd, job.config, file, frames) && Unseen(frames, seen) && InRangeAll(job.config, file, frames)
  }

  lemma ReadyTail(job: Job, file: seq<byte>, frames: seq<Frame>, seen: set<nat>)
    requires job.config.chunkSize > 0 && frames != [] && Ready(job, file, frames, seen)
    ensures Carries(job.zstd, job.config, file, frames[0]) && frames[0].index !in seen
    ensures Ready(job, file, frames[1..], seen + {frames[0].index})
  {
    forall k | 0 <= k < |frames[1..]|
      ensures Carries(job.zstd, job.config, file, frames[1..][k]) && frames[1..][k].index != frames[0].index
      ensures frames[1..][k].index !in seen && frames[1..][k].index < ChunkCount(|file|, job.config.chunkSize)
    {
      assert frames[1..][k] == frames[k + 1];
      assert Carries(job.zstd, job.config, file, frames[k + 1]);
    }
  }

  /** Accepting frames that have been parsed already. */
  function AcceptFrames(job: Job, inbox: Inbox, frames: seq<Frame>): Progress
    decreases frames
  {
    if frames == [] then Progress(inbox, None) else
    var p := AcceptFrame(job, inbox, frames[0]);
    if p.error.Some? then p else AcceptFrames(job, p.inbox, frames[1..])
  }

  /** A stream of encoded frames: parsing and accepting in turn is accepting them all. */
  lemma {:induction false} StreamIsFrames(job: Job, inbox: Inbox, raw: seq<byte>, off: nat, frames: seq<Frame>)
    requires AllFit(frames) && forall k :: 0 <= k < |frames| ==> frames[k].index < job.totalChunks
    requires off <= |raw| && raw[off..] == EncodeAll(frames)
    ensures AcceptStream(job, inbox, raw, off) == AcceptFrames(job, inbox, frames)
    decreases frames
  {
    if frames == [] {
      assert off == |raw|;
    } else {
      var next, p := off + |Encode(frames[0])|, AcceptFrame(job, inbox, frames[0]);
      ReadHead(raw, off, frames[0], EncodeAll(frames[1..]), job.totalChunks);
      AcceptOneMore(job, inbox, raw, off, frames[0], next);
      if p.error.None? {
        StreamIsFrames(job, p.inbox, raw, next, frames[1..]);
      }
    }
  }

  lemma AcceptOneMore(job: Job, inbox: Inbox, raw: seq<byte>, off: nat, f: Frame, next: nat)
    requires off < |raw| && ReadFrame(raw, off, job.totalChunks) == Ok((f, next)) && next <= |raw|
    ensures var p := AcceptFrame(job, inbox, f);
            AcceptStream(job, inbox, raw, off) == if p.error.Some? then p else AcceptStream(job, p.inbox, raw, next)
  {
  }

  lemma {:induction false} FramesAreDelivered(job: Job, file: seq<byte>, inbox: Inbox, frames: seq<Frame>)
    requires job.config.ChunkSizeOk() && job.fileSize == |file| && Ready(job, file, frames, inbox.seen)
    ensures AcceptFrames(job, inbox, frames) == Progress(DeliverAll(job.zstd, job.config, file, inbox, frames), None)
    decreases frames
  {
    if frames != [] {
      ReadyTail(job, file, frames, inbox.seen);
      AcceptCarried(job, file, inbox, frames[0]);
      FramesAreDelivered(job, file, Deliver(file, job.config.chunkSize, inbox, frames[0].index), frames[1..]);
    }
  }

  /** One packed stream is accepted whole. */
  lemma AcceptGroup(job: Job, file: seq<byte>, inbox: Inbox, frames: seq<Frame>)
    requires job.config.ChunkSizeOk() && job.fileSize == |file| && job.Consistent()
    requires Ready(job, file, frames, inbox.seen)
    ensures AcceptStream(job, inbox, EncodeAll(frames), 0)
            == Progress(DeliverAll(job.zstd, job.config, file, inbox, frames), None)
  {
    forall k | 0 <= k < |frames|
      ensures frames[k].Fits() && frames[k].index < job.totalChunks
    {
      assert Carries(job.zstd, job.config, file, frames[k]);
    }
    StreamIsFrames(job, inbox, EncodeAll(frames), 0, frames);
    FramesAreDelivered(job, file, inbox, frames);
  }

  lemma ReadyPrefix(job: Job, file: seq<byte>, a: seq<Frame>, b: seq<Frame>, seen: set<nat>)
    requires job.config.chunkSize > 0 && Ready(job, file, a + b, seen)
    ensures Ready(job, file, a, seen) && InRangeAll(job.config, file, b)
  {
    assert forall k :: 0 <= k < |a| ==> a[k] == (a + b)[k];
    assert forall k :: 0 <= k < |b| ==> b[k] == (a + b)[|a| + k];
    forall k | 0 <= k < |a|
      ensures Carries(job.zstd, job.config, file, a[k])
    {
      assert Carries(job.zstd, job.config, file, (a + b)[k]);
    }
  }

  /** Delivering over a concatenation, and what is then still ready. */
  lemma {:induction false} DeliverAppend(job: Job, file: seq<byte>, inbox: Inbox, a: seq<Frame>, b: seq<Frame>)
    requires job.config.chunkSize > 0 && Ready(job, file, a + b, inbox.seen)
    ensures Ready(job, file, a, inbox.seen) && InRangeAll(job.config, file, b)
    ensures var mid := DeliverAll(job.zstd, job.config, file, inbox, a);
            && Ready(job, file, b, mid.seen)
            && DeliverAll(job.zstd, job.config, file, inbox, a + b) == DeliverAll(job.zstd, job.config, file, mid, b)
            && |mid.seen| == |inbox.seen| + |a|
    decreases a
  {
    ReadyPrefix(job, file, a, b, inbox.seen);
    if a == [] {
      assert a + b == b;
    } else {
      ReadyTail(job, file, a + b, inbox.seen);
      assert (a + b)[1..] == a[1..] + b;
      DeliverAppend(job, file, Deliver(file, job.config.chunkSize, inbox, a[0].index), a[1..], b);
    }
  }

  /** What has been delivered in the end: the chunks of the frames, in order. */
  lemma {:induction false} DeliveredChunks(z: Zstd, cfg: Config, file: seq<byte>, inbox: Inbox, frames: seq<Frame>)
    requires cfg.chunkSize > 0 && InRangeAll(cfg, file, frames)
    ensures forall k :: 0 <= k < |frames| ==> Indices(frames)[k] < ChunkCount(|file|, cfg.chunkSize)
    ensures DeliverAll(z, cfg, file, inbox, frames).accepted
         == inbox.accepted + ChunksOf(file, cfg.chunkSize, Indices(frames))
    decreases frames
  {
    if frames != [] {
      var next := Deliver(file, cfg.chunkSize, inbox, frames[0].index);
      DeliveredChunks(z, cfg, file, next, frames[1..]);
      assert Indices(frames) == [frames[0].index] + Indices(frames[1..]);
      assert ChunksOf(file, cfg.chunkSize, Indices(frames))
          == [Chunk(frames[0].index, ChunkAt(file, cfg.chunkSize, frames[0].index))]
           + ChunksOf(file, cfg.chunkSize, Indices(frames[1..]));
    }
  }

  predicate Packed(groups: seq<seq<Frame>>) {
    forall k :: 0 <= k < |groups| ==> groups[k] != [] && |EncodeAll(groups[k])| <= BATCH_MAX_BYTES
  }

  lemma AcceptOneStream(job: Job, inbox: Inbox, incoming: seq<seq<byte>>, expected: nat, next: Inbox)
    requires |inbox.seen| < expected && incoming != [] && |incoming[0]| <= MAX_STREAM_BYTES
    requires AcceptStream(job, inbox, incoming[0], 0) == Progress(next, None)
    ensures AcceptStreams(job, inbox, incoming, expected) == AcceptStreams(job, next, incoming[1..], expected)
  {
  }

  /** The receive loop runs through all the groups of a sender and stops right after the last one. */
  lemma {:induction false} AcceptAllGroups(job: Job, file: seq<byte>, inbox: Inbox, groups: seq<seq<Frame>>,
                                           later: seq<seq<byte>>, expected: nat)
    requires job.config.ChunkSizeOk() && job.fileSize == |file| && job.Consistent()
    requires Packed(groups) && Ready(job, file, Concat(groups), inbox.seen)
    requires expected == |inbox.seen| + |Concat(groups)|
    ensures AcceptStreams(job, inbox, Streams(groups) + later, expected)
         == (Progress(DeliverAll(job.zstd, job.config, file, inbox, Concat(groups)), None), later)
    decreases groups
  {
    if groups == [] {
      assert Streams(groups) + later == later;
    } else {
      var next := DeliverAll(job.zstd, job.config, file, inbox, groups[0]) by {
        DeliverAppend(job, file, inbox, groups[0], Concat(groups[1..]));
      }
      AcceptFirstGroup(job, file, inbox, groups, later, expected);
      AcceptAllGroups(job, file, next, groups[1..], later, expected);
    }
  }

  /** Where the peer sends no more while chunks are still expected, the loop fails with what came until then. */
  lemma {:induction false} AcceptSomeGroups(job: Job, file: seq<byte>, inbox: Inbox, groups: seq<seq<Frame>>, expected: nat)
    requires job.config.ChunkSizeOk() && job.fileSize == |file| && job.Consistent()
    requires Packed(groups) && Ready(job, file, Concat(groups), inbox.seen)
    requires expected > |inbox.seen| + |Concat(groups)|
    ensures AcceptStreams(job, inbox, Streams(groups), expected)
         == (Progress(DeliverAll(job.zstd, job.config, file, inbox, Concat(groups)), Some(ConnectionLost)), [])
    decreases groups
  {
    if groups != [] {
      var next := DeliverAll(job.zstd, job.config, file, inbox, groups[0]) by {
        DeliverAppend(job, file, inbox, groups[0], Concat(groups[1..]));
      }
      AcceptFirstGroup(job, file, inbox, groups, [], expected);
      assert Streams(groups) + [] == Streams(groups) && Streams(groups[1..]) + [] == Streams(groups[1..]);
      AcceptSomeGroups(job, file, next, groups[1..], expected);
    }
  }

  lemma FirstStream(groups: seq<seq<Frame>>, later: seq<seq<byte>>)
    requires groups != []
    ensures var incoming := Streams(groups) + later;
            incoming[0] == EncodeAll(groups[0]) && incoming[1..] == Streams(groups[1..]) + later
  {
    assert Streams(groups)[1..] == Streams(groups[1..]);
  }

  lemma AcceptFirstGroup(job: Job, file: seq<byte>, inbox: Inbox, groups: seq<seq<Frame>>,
                         later: seq<seq<byte>>, expected: nat)
    requires job.config.ChunkSizeOk() && job.fileSize == |file| && job.Consistent()
    requires groups != [] && Packed(groups) && Ready(job, file, Concat(groups), inbox.seen)
    requires expected >= |inbox.seen| + |Concat(groups)|
    ensures InRangeAll(job.config, file, groups[0]) && InRangeAll(job.config, file, Concat(groups[1..]))
    ensures var next := DeliverAll(job.zstd, job.config, file, inbox, groups[0]);
            && AcceptStreams(job, inbox, Streams(groups) + later, expected)
               == AcceptStreams(job, next, Streams(groups[1..]) + later, expected)
            && Ready(job, file, Concat(groups[1..]), next.seen)
            && |next.seen| + |Concat(groups[1..])| == |inbox.seen| + |Concat(groups)|
            && DeliverAll(job.zstd, job.config, file, inbox, Concat(groups))
               == DeliverAll(job.zstd, job.config, file, next, Concat(groups[1..]))
  {
    var incoming := Streams(groups) + later;
    var g := groups[0];
    DeliverAppend(job, file, inbox, g, Concat(groups[1..]));
    FirstStream(groups, later);
    AcceptGroup(job, file, inbox, g);
    AcceptOneStream(job, inbox, incoming, expected, DeliverAll(job.zstd, job.config, file, inbox, g));
  }

  // ----- the main results -----

  lemma PlanIsFrames(z: Zstd, cfg: Config, file: seq<byte>, completed: set<nat>)
    requires z.Lawful() && Setting(z, cfg, file)
    ensures var groups := Groups(z, cfg, file, completed);
            && Packed(groups)
            && Concat(groups) == Frames(z, cfg, file, completed, NewSampler(cfg.SampleSize()), 0)
            && AllCarry(z, cfg, file, Concat(groups))
            && Indices(Concat(groups)) == Missing(ChunkCount(|file|, cfg.chunkSize), completed, 0)
  {
    var s := NewSampler(cfg.SampleSize());
    var frames := Frames(z, cfg, file, completed, s, 0);
    FramesCarryMissing(z, cfg, file, completed, s, 0);
    PackFlattens(frames, []);
    assert [] + frames == frames;
    forall k | 0 <= k < |frames|
      ensures |Encode(frames[k])| <= BATCH_MAX_BYTES
    {
      assert Carries(z, cfg, file, frames[k]);
    }
    PackBounded(frames, []);
  }

  lemma MissingOf(total: nat, completed: seq<nat>)
    ensures var m := Missing(total, AsSet(completed), 0);
            && Distinct(m) && |m| == Expected(total, completed) <= total
            && (forall i: nat :: i in m <==> i < total && i !in completed)
  {
    MissingFacts(total, AsSet(completed), 0);
    assert (set x | x in AsSet(completed) && 0 <= x < total) == (set x | x in completed && x < total);
  }

  /** The sender's side for any file, chunk size and completed list (with duplicates and out-of-range
      entries): only non-empty streams within the capacity, closed only for a frame that would not have
      gone in, together carrying each missing chunk exactly once, in order, and nothing else. */
  lemma SenderPlan(z: Zstd, cfg: Config, file: seq<byte>, completed: seq<nat>)
    requires z.Lawful() && Setting(z, cfg, file)
    ensures var groups := Groups(z, cfg, file, AsSet(completed));
            var sent := Indices(Concat(groups));
            && (forall k :: 0 <= k < |groups| ==> 0 < |EncodeAll(groups[k])| <= 32 * 0x10_0000)
            && (forall k :: 0 <= k < |groups| ==> ClosedFull(groups, k))
            && AllCarry(z, cfg, file, Concat(groups))
            && Distinct(sent) && |sent| == Expected(ChunkCount(|file|, cfg.chunkSize), completed)
            && (forall i: nat :: i in sent <==> i < ChunkCount(|file|, cfg.chunkSize) && i !in completed)
  {
    SenderStreams(z, cfg, file, AsSet(completed));
    SenderCarries(z, cfg, file, completed);
  }

  lemma SenderStreams(z: Zstd, cfg: Config, file: seq<byte>, completed: set<nat>)
    requires z.Lawful() && Setting(z, cfg, file)
    ensures var groups := Groups(z, cfg, file, completed);
            && (forall k :: 0 <= k < |groups| ==> 0 < |EncodeAll(groups[k])| <= 32 * 0x10_0000)
            && (forall k :: 0 <= k < |groups| ==> ClosedFull(groups, k))
  {
    PlanIsFrames(z, cfg, file, completed);
    PackedFit(Groups(z, cfg, file, completed));
    StreamsAreFull(Frames(z, cfg, file, completed, NewSampler(cfg.SampleSize()), 0), Groups(z, cfg, file, completed));
  }

  lemma StreamsAreFull(frames: seq<Frame>, groups: seq<seq<Frame>>)
    requires groups == Pack(frames, [])
    ensures forall k :: 0 <= k < |groups| ==> ClosedFull(groups, k)
  {
    PackIsGreedy(frames, []);
  }

  lemma SenderCarries(z: Zstd, cfg: Config, file: seq<byte>, completed: seq<nat>)
    requires z.Lawful() && Setting(z, cfg, file)
    ensures var frames := Concat(Groups(z, cfg, file, AsSet(completed)));
            var sent := Indices(frames);
            && AllCarry(z, cfg, file, frames)
            && Distinct(sent) && |sent| == Expected(ChunkCount(|file|, cfg.chunkSize), completed)
            && (forall i: nat :: i in sent <==> i < ChunkCount(|file|, cfg.chunkSize) && i !in completed)
  {
    PlanIsFrames(z, cfg, file, AsSet(completed));
    MissingOf(ChunkCount(|file|, cfg.chunkSize), completed);
  }

  lemma PackedFit(groups: seq<seq<Frame>>)
    requires Packed(groups)
    ensures forall k :: 0 <= k < |groups| ==> 0 < |EncodeAll(groups[k])| <= BATCH_MAX_BYTES
  {
    forall k | 0 <= k < |groups|
      ensures 0 < |EncodeAll(groups[k])| <= BATCH_MAX_BYTES
    {
      assert groups[k] != [];
    }
  }

  // ----- which chunks travel compressed -----

  /** The bytes of these chunks. */
  function DataOf(file: seq<byte>, chunkSize: nat, indices: seq<nat>): (data: seq<seq<byte>>)
    requires chunkSize > 0
    ensures |data| == |indices|
  {
    seq(|indices|, k requires 0 <= k < |indices| =>
          if indices[k] < ChunkCount(|file|, chunkSize) then ChunkAt(file, chunkSize, indices[k]) else [])
  }

  /** The frames' flags and payloads are the compressor's outputs on the missing chunks, one after the other. */
  lemma {:induction false} FramesAreOutputs(z: Zstd, cfg: Config, file: seq<byte>, completed: set<nat>, s: Sampler, i: nat)
    requires cfg.chunkSize > 0 && cfg.compressionEnabled && i <= ChunkCount(|file|, cfg.chunkSize)
    ensures var m, frames := Missing(ChunkCount(|file|, cfg.chunkSize), completed, i), Frames(z, cfg, file, completed, s, i);
            frames == FramesOf(m, Outputs(z, s, DataOf(file, cfg.chunkSize, m)))
    decreases ChunkCount(|file|, cfg.chunkSize) - i
  {
    if i < ChunkCount(|file|, cfg.chunkSize) {
      if i in completed {
        FramesAreOutputs(z, cfg, file, completed, s, i + 1);
      } else {
        FramesAreOutputs(z, cfg, file, completed, Step(z, s, ChunkAt(file, cfg.chunkSize, i)).0, i + 1);
        NextOutput(z, cfg, file, completed, s, i);
      }
    }
  }

  lemma NextOutput(z: Zstd, cfg: Config, file: seq<byte>, completed: set<nat>, s: Sampler, i: nat)
    requires cfg.chunkSize > 0 && cfg.compressionEnabled && i < ChunkCount(|file|, cfg.chunkSize) && i !in completed
    requires var t, later := Step(z, s, ChunkAt(file, cfg.chunkSize, i)).0, Missing(ChunkCount(|file|, cfg.chunkSize), completed, i + 1);
             Frames(z, cfg, file, completed, t, i + 1) == FramesOf(later, Outputs(z, t, DataOf(file, cfg.chunkSize, later)))
    ensures var m := Missing(ChunkCount(|file|, cfg.chunkSize), completed, i);
            Frames(z, cfg, file, completed, s, i) == FramesOf(m, Outputs(z, s, DataOf(file, cfg.chunkSize, m)))
  {
    var data, later := ChunkAt(file, cfg.chunkSize, i), Missing(ChunkCount(|file|, cfg.chunkSize), completed, i + 1);
    FramesFrom(z, cfg, file, completed, s, i);
    OutputsOneMore(z, s, data, DataOf(file, cfg.chunkSize, later));
    DataOneMore(file, cfg.chunkSize, i, later);
    FramesOneMore(i, Step(z, s, data).1, later, Outputs(z, Step(z, s, data).0, DataOf(file, cfg.chunkSize, later)));
  }

  function FramesOf(indices: seq<nat>, outs: seq<Output>): (frames: seq<Frame>)
    requires |indices| == |outs|
    ensures |frames| == |indices| && forall k :: 0 <= k < |frames| ==> frames[k] == FrameOf(indices[k], outs[k])
  {
    seq(|indices|, k requires 0 <= k < |indices| => FrameOf(indices[k], outs[k]))
  }

  lemma FramesOneMore(i: nat, out: Output, indices: seq<nat>, outs: seq<Output>)
    requires |indices| == |outs|
    ensures FramesOf([i] + indices, [out] + outs) == [FrameOf(i, out)] + FramesOf(indices, outs)
  {
  }

  lemma DataOneMore(file: seq<byte>, chunkSize: nat, i: nat, later: seq<nat>)
    requires chunkSize > 0 && i < ChunkCount(|file|, chunkSize)
    ensures DataOf(file, chunkSize, [i] + later) == [ChunkAt(file, chunkSize, i)] + DataOf(file, chunkSize, later)
  {
  }

  lemma OutputsOneMore(z: Zstd, s: Sampler, data: seq<byte>, later: seq<seq<byte>>)
    ensures Outputs(z, s, [data] + later) == [Step(z, s, data).1] + Outputs(z, Step(z, s, data).0, later)
  {
    assert ([data] + later)[1..] == later;
  }

  /** Without compression no chunk travels compressed; with it and no sampling every one does; adaptively the first
      three do, and the others if those three shrank by the ratio of 1.05 at least. */
  lemma WhichAreCompressed(z: Zstd, cfg: Config, file: seq<byte>, completed: set<nat>, k: nat)
    requires 0 < cfg.chunkSize && k < |Missing(ChunkCount(|file|, cfg.chunkSize), completed, 0)|
    ensures var m := Missing(ChunkCount(|file|, cfg.chunkSize), completed, 0);
            var frames := Frames(z, cfg, file, completed, NewSampler(cfg.SampleSize()), 0);
            && k < |frames|
            && frames[k].flags ==
               if !cfg.compressionEnabled then 0
               else if !cfg.adaptive || k < 3 then 1
               else var (o, c) := Sampled(z, DataOf(file, cfg.chunkSize, m)[..3]); if 100 * o >= 105 * c then 1 else 0
  {
    if cfg.compressionEnabled {
      FramesAreOutputs(z, cfg, file, completed, NewSampler(cfg.SampleSize()), 0);
      var m := Missing(ChunkCount(|file|, cfg.chunkSize), completed, 0);
      DecidesOnce(z, cfg.SampleSize(), DataOf(file, cfg.chunkSize, m), k);
    } else {
      PlainFrames(z, cfg, file, completed, NewSampler(cfg.SampleSize()), 0);
    }
  }

  lemma {:induction false} PlainFrames(z: Zstd, cfg: Config, file: seq<byte>, completed: set<nat>, s: Sampler, i: nat)
    requires cfg.chunkSize > 0 && !cfg.compressionEnabled && i <= ChunkCount(|file|, cfg.chunkSize)
    ensures var frames := Frames(z, cfg, file, completed, s, i);
            && |frames| == |Missing(ChunkCount(|file|, cfg.chunkSize), completed, i)|
            && forall k :: 0 <= k < |frames| ==> frames[k].flags == 0
    decreases ChunkCount(|file|, cfg.chunkSize) - i
  {
    if i < ChunkCount(|file|, cfg.chunkSize) {
      PlainFrames(z, cfg, file, completed, s, i + 1);
      FramesFrom(z, cfg, file, completed, s, i);
    }
  }

  // ----- single frames -----

  /** A frame whose chunk has not come before is accepted, as `data`, exactly when its payload decodes to that and that
      has the length the manifest implies. */
  lemma AcceptedIff(job: Job, inbox: Inbox, f: Frame, data: seq<byte>)
    requires f.index !in inbox.seen
    ensures AcceptFrame(job, inbox, f)
            == Progress(Inbox(inbox.seen + {f.index}, inbox.accepted + [Chunk(f.index, data)]), None)
            <==> && |data| == ChunkLen(job.fileSize, job.config.chunkSize, f.index)
                 && if f.Compressed()
                    then job.config.compressionEnabled && job.zstd.decompress(f.payload) == Some(data)
                         && |data| <= 16 * 0x10_0000
                    else f.payload == data
  {
    var p := AcceptFrame(job, inbox, f);
    if p == Progress(Inbox(inbox.seen + {f.index}, inbox.accepted + [Chunk(f.index, data)]), None) {
      assert p.inbox.accepted[|inbox.accepted|] == Chunk(f.index, data);
    }
  }

  /** The error of one that is not: compressed although that was not agreed on, not decodable within a chunk's size,
      or of another length. */
  lemma RejectedBecause(job: Job, inbox: Inbox, f: Frame)
    requires f.index !in inbox.seen && AcceptFrame(job, inbox, f).error.Some?
    ensures AcceptFrame(job, inbox, f).error == Some(
              if f.Compressed() && !job.config.compressionEnabled then CompressionDisabled
              else if f.Compressed() && (match job.zstd.decompress(f.payload) case None => true case Some(d) => |d| > 16 * 0x10_0000)
              then DecompressionFailed
              else WrongLength)
    ensures AcceptFrame(job, inbox, f).inbox.accepted == inbox.accepted
  {
  }

  lemma {:induction false} AcceptFramesAppend(job: Job, inbox: Inbox, a: seq<Frame>, b: seq<Frame>)
    ensures var p := AcceptFrames(job, inbox, a);
            AcceptFrames(job, inbox, a + b) == if p.error.Some? then p else AcceptFrames(job, p.inbox, b)
    ensures forall k :: 0 <= k < |a| && AcceptFrames(job, inbox, a).error.None? ==>
              a[k].index in AcceptFrames(job, inbox, a).inbox.seen
    ensures inbox.seen <= AcceptFrames(job, inbox, a).inbox.seen
    decreases a
  {
    if a == [] {
      assert a + b == b;
    } else {
      assert (a + b)[1..] == a[1..] + b;
      AcceptFramesAppend(job, AcceptFrame(job, inbox, a[0]).inbox, a[1..], b);
    }
  }

  /** A chunk that comes again, whatever the frame carries, changes nothing. */
  lemma RepeatIsIgnored(job: Job, inbox: Inbox, a: seq<Frame>, f: Frame, b: seq<Frame>)
    requires exists k :: 0 <= k < |a| && a[k].index == f.index
    ensures AcceptFrames(job, inbox, a + [f] + b) == AcceptFrames(job, inbox, a + b)
  {
    AcceptFramesAppend(job, inbox, a, b);
    AcceptFramesAppend(job, inbox, a, [f] + b);
    assert a + [f] + b == a + ([f] + b);
    assert ([f] + b)[1..] == b;
  }

  /** Stream agreement: fed the sender's streams and then anything at all, the receiver's loop accepts
      every missing chunk with its true bytes, fails on nothing, and stops exactly after the sender's
      last stream, leaving the rest of the queue untouched. */
  lemma {:induction false} ReceiverStopsAfterLastStream(z: Zstd, cfg: Config, file: seq<byte>, completed: seq<nat>,
        later: seq<seq<byte>>)
    requires z.Lawful() && Setting(z, cfg, file) && ChunkCount(|file|, cfg.chunkSize) <= MAX_CHUNKS_PER_FILE
    ensures var total := ChunkCount(|file|, cfg.chunkSize);
            var job := Job(z, cfg, |file|, total);
            var missing := Missing(total, AsSet(completed), 0);
            && Precheck(job, Expected(total, completed)).None?
            && (forall k :: 0 <= k < |missing| ==> missing[k] < total)
            && (var (p, rest) := AcceptStreams(job, EMPTY, Streams(Groups(z, cfg, file, AsSet(completed))) + later,
                                               Expected(total, completed));
                && rest == later && p.error == None
                && p.inbox.accepted == ChunksOf(file, cfg.chunkSize, missing))
  {
    var total := ChunkCount(|file|, cfg.chunkSize);
    var job := Job(z, cfg, |file|, total);
    var frames := Concat(Groups(z, cfg, file, AsSet(completed)));
    PlanIsFrames(z, cfg, file, AsSet(completed));
    MissingOf(total, completed);
    PlanReady(job, file, frames);
    AcceptAllGroups(job, file, EMPTY, Groups(z, cfg, file, AsSet(completed)), later, Expected(total, completed));
    DeliveredChunks(z, cfg, file, EMPTY, frames);
  }

  /** A stream of more than 64 MiB is an error, whatever is in it; after a shorter one that fails on nothing the loop
      goes on with the next. */
  lemma LongStreamFails(job: Job, inbox: Inbox, raw: seq<byte>, later: seq<seq<byte>>, expected: nat)
    requires |inbox.seen| < expected
    ensures var r, p := AcceptStreams(job, inbox, [raw] + later, expected), AcceptStream(job, inbox, raw, 0);
            r == if |raw| > 64 * 0x10_0000 then (Progress(inbox, Some(StreamTooLong)), later)
                 else if p.error.Some? then (p, later)
                 else AcceptStreams(job, p.inbox, later, expected)
  {
    assert ([raw] + later)[1..] == later;
  }

  /** A sender that fails at flush `failAt` leaves the receiver, when nothing more comes, with the chunks of the streams
      before it, true and in order, and a lost connection. */
  lemma LinkLostAfter(z: Zstd, cfg: Config, file: seq<byte>, completed: seq<nat>, failAt: nat)
    requires z.Lawful() && Setting(z, cfg, file) && ChunkCount(|file|, cfg.chunkSize) <= MAX_CHUNKS_PER_FILE
    requires failAt < |Groups(z, cfg, file, AsSet(completed))|
    ensures var total := ChunkCount(|file|, cfg.chunkSize);
            var sent := Groups(z, cfg, file, AsSet(completed))[..failAt];
            var (p, rest) := AcceptStreams(Job(z, cfg, |file|, total), EMPTY, Streams(sent), Expected(total, completed));
            && rest == [] && p.error == Some(ConnectionLost)
            && (forall k :: 0 <= k < |Indices(Concat(sent))| ==> Indices(Concat(sent))[k] < total)
            && p.inbox.accepted == ChunksOf(file, cfg.chunkSize, Indices(Concat(sent)))
  {
    var total := ChunkCount(|file|, cfg.chunkSize);
    var job := Job(z, cfg, |file|, total);
    var groups := Groups(z, cfg, file, AsSet(completed));
    PlanIsFrames(z, cfg, file, AsSet(completed));
    MissingOf(total, completed);
    PlanReady(job, file, Concat(groups));
    SplitPlan(groups, failAt);
    ReadyPrefix(job, file, Concat(groups[..failAt]), Concat(groups[failAt..]), {});
    AcceptSomeGroups(job, file, EMPTY, groups[..failAt], Expected(total, completed));
    DeliveredChunks(z, cfg, file, EMPTY, Concat(groups[..failAt]));
  }

  lemma SplitPlan(groups: seq<seq<Frame>>, k: nat)
    requires Packed(groups) && k < |groups|
    ensures Concat(groups) == Concat(groups[..k]) + Concat(groups[k..])
    ensures Packed(groups[..k]) && |Concat(groups[..k])| < |Concat(groups)|
  {
    ConcatAppend(groups[..k], groups[k..]);
    assert groups[..k] + groups[k..] == groups;
    assert groups[k..][0] == groups[k] && groups[k] != [];
  }

  lemma PlanReady(job: Job, file: seq<byte>, frames: seq<Frame>)
    requires job.config.chunkSize > 0
    requires AllCarry(job.zstd, job.config, file, frames) && Distinct(Indices(frames))
    ensures Ready(job, file, frames, {})
  {
    forall k | 0 <= k < |frames|
      ensures frames[k].index < ChunkCount(|file|, job.config.chunkSize)
    {
      assert Carries(job.zstd, job.config, file, frames[k]);
    }
    forall i, j | 0 <= i < j < |frames|
      ensures frames[i].index != frames[j].index
    {
      assert Indices(frames)[i] != Indices(frames)[j];
    }
  }

  /** The chunks of a file that are not on the sender's list. */
  function Unlisted(total: nat, completed: seq<nat>): set<nat> { set i: nat | 0 <= i < total && i !in completed }

  /** A whole file, end to end: whatever list the sender goes by, over any leftover partial, the file arrives byte for
      byte exactly when the leftover is right wherever the list made the sender skip; so from scratch it always does,
      and so it does when the leftover holds every chunk listed. */
  lemma {:induction false} FileArrives(z: Zstd, cfg: Config, file: seq<byte>, completed: seq<nat>, leftover: seq<byte>)
    requires z.Lawful() && Setting(z, cfg, file) && ChunkCount(|file|, cfg.chunkSize) <= MAX_CHUNKS_PER_FILE
    ensures var total := ChunkCount(|file|, cfg.chunkSize);
            var job := Job(z, cfg, |file|, total);
            var base := leftover[..Min(|leftover|, |file|)];
            var (p, rest) := AcceptStreams(job, EMPTY, Streams(Groups(z, cfg, file, AsSet(completed))),
                                           Expected(total, completed));
            && p.error == None && rest == []
            && (WriteAll(base, cfg.chunkSize, p.inbox.accepted) == file
                <==> ClaimsHold(file, cfg.chunkSize, Unlisted(total, completed), base))
            && ((forall x: nat :: x < total && x in completed ==> Holds(base, file, cfg.chunkSize, x)) ==>
                  WriteAll(base, cfg.chunkSize, p.inbox.accepted) == file)
  {
    var total := ChunkCount(|file|, cfg.chunkSize);
    var base := leftover[..Min(|leftover|, |file|)];
    var streams := Streams(Groups(z, cfg, file, AsSet(completed)));
    ReceiverStopsAfterLastStream(z, cfg, file, completed, []);
    assert streams + [] == streams;
    MissingOf(total, completed);
    MissingWritten(file, cfg.chunkSize, completed, base);
    if forall x: nat :: x < total && x in completed ==> Holds(base, file, cfg.chunkSize, x) {
      UnneededHeldHold(file, cfg.chunkSize, Unlisted(total, completed), base);
    }
  }

  lemma MissingWritten(file: seq<byte>, chunkSize: nat, completed: seq<nat>, base: seq<byte>)
    requires chunkSize > 0 && |base| <= |file|
    ensures var total := ChunkCount(|file|, chunkSize);
            var missing := Missing(total, AsSet(completed), 0);
            && (forall k :: 0 <= k < |missing| ==> missing[k] < total)
            && (WriteAll(base, chunkSize, ChunksOf(file, chunkSize, missing)) == file
                <==> ClaimsHold(file, chunkSize, Unlisted(total, completed), base))
  {
    var total := ChunkCount(|file|, chunkSize);
    var missing := Missing(total, AsSet(completed), 0);
    MissingOf(total, completed);
    assert forall k :: 0 <= k < |missing| ==> missing[k] in missing;
    var chunks := ChunksOf(file, chunkSize, missing);
    forall x | x in Unlisted(total, completed)
      ensures HasIndex(chunks, x)
    {
      var k :| 0 <= k < |missing| && missing[k] == x;
      assert chunks[k].index == x;
    }
    ReassemblesIff(base, file, chunkSize, Unlisted(total, completed), chunks);
  }
}
