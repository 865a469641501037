/** How a file is cut into chunks, and how a chunk lands on disk (core/src/transfer_file.rs). */
module Chunks {
  import opened Prelude

  const MAX_CHUNK_SIZE: nat := 16 * 1024 * 1024
  const MAX_TRANSFER_FILE_SIZE: nat := 1024 * 1024 * 1024 * 1024
  const MAX_CHUNKS_PER_FILE: nat := 0x100_0000
  const BATCH_MAX_BYTES: nat := 32 * 1024 * 1024
  const MAX_STREAM_BYTES: nat := 64 * 1024 * 1024
  const FLUSH_BATCH_BYTES: nat := 64 * 1024 * 1024

  /** One chunk as it travels: its index in the file and its (uncompressed) bytes. */
  datatype Chunk = Chunk(index: nat, data: seq<byte>)

  /** Ceiling division: whole chunks, plus one for a remainder. */
  function ChunkCount(size: nat, chunkSize: nat): nat
    requires chunkSize > 0
  {
    size / chunkSize + (if size % chunkSize > 0 then 1 else 0)
  }

  /** The size the manifest implies for chunk `i`: the remainder after its offset, capped. */
  function ChunkLen(size: nat, chunkSize: nat, i: nat): nat {
    var offset := i * chunkSize;
    Min(if size < offset then 0 else size - offset, chunkSize)
  }

  function ChunkAt(file: seq<byte>, chunkSize: nat, i: nat): (data: seq<byte>)
    requires chunkSize > 0 && i < ChunkCount(|file|, chunkSize)
    ensures |data| == ChunkLen(|file|, chunkSize, i)
  {
    ChunkBounds(|file|, chunkSize, i);
    file[i * chunkSize..i * chunkSize + ChunkLen(|file|, chunkSize, i)]
  }

  lemma {:induction false} MulGap(i: nat, j: nat, chunkSize: nat)
    requires i < j
    ensures i * chunkSize + chunkSize <= j * chunkSize
  {
    var d := j - i - 1;
    assert j * chunkSize == (i + 1 + d) * chunkSize == i * chunkSize + chunkSize + d * chunkSize;
    assert d * chunkSize >= 0;
  }

  /** A chunk index is in range exactly when its offset lies inside the file. */
  lemma {:induction false} InRange(size: nat, chunkSize: nat, i: nat)
    requires chunkSize > 0
    ensures i < ChunkCount(size, chunkSize) <==> i * chunkSize < size
  {
    var q, r := size / chunkSize, size % chunkSize;
    assert size == q * chunkSize + r;
    if i < q { MulGap(i, q, chunkSize); } else if q < i { MulGap(q, i, chunkSize); }
  }

  /** Every chunk is inside the file, is not empty, and only the last one is short. */
  lemma {:induction false} ChunkBounds(size: nat, chunkSize: nat, i: nat)
    requires chunkSize > 0 && i < ChunkCount(size, chunkSize)
    ensures 0 <= i * chunkSize < size
    ensures 0 < ChunkLen(size, chunkSize, i) <= chunkSize
    ensures i * chunkSize + ChunkLen(size, chunkSize, i) <= size
    ensures i + 1 < ChunkCount(size, chunkSize) ==> ChunkLen(size, chunkSize, i) == chunkSize
    ensures i + 1 < ChunkCount(size, chunkSize) <==> (i + 1) * chunkSize < size
    ensures i + 1 == ChunkCount(size, chunkSize) ==> i * chunkSize + ChunkLen(size, chunkSize, i) == size
  {
    InRange(size, chunkSize, i);
    InRange(size, chunkSize, i + 1);
    assert (i + 1) * chunkSize == i * chunkSize + chunkSize;
  }

  /** Under the receiver's limits no offset product leaves 64 bits, nor does the end of a chunk. */
  lemma {:induction false} OffsetsFit(size: nat, chunkSize: nat, i: nat)
    requires 0 < chunkSize <= MAX_CHUNK_SIZE && ChunkCount(size, chunkSize) <= MAX_CHUNKS_PER_FILE
    requires i < ChunkCount(size, chunkSize)
    ensures i * chunkSize + chunkSize <= MAX_CHUNKS_PER_FILE * MAX_CHUNK_SIZE < U64
  {
    var slack := MAX_CHUNK_SIZE - chunkSize;
    assert (i + 1) * chunkSize + (i + 1) * slack == (i + 1) * MAX_CHUNK_SIZE;
    assert (i + 1) * slack >= 0;
    MulGap(i, MAX_CHUNKS_PER_FILE, MAX_CHUNK_SIZE);
  }

  // ----- reading a file chunk by chunk -----

  function FirstChunks(file: seq<byte>, chunkSize: nat, k: nat): seq<byte>
    requires chunkSize > 0 && k <= ChunkCount(|file|, chunkSize)
  {
    if k == 0 then [] else FirstChunks(file, chunkSize, k - 1) + ChunkAt(file, chunkSize, k - 1)
  }

  /** The first `k` chunks in order are the file's first `k * chunkSize` bytes. */
  lemma {:induction false} FirstChunksArePrefix(file: seq<byte>, chunkSize: nat, k: nat)
    requires chunkSize > 0 && k <= ChunkCount(|file|, chunkSize)
    ensures FirstChunks(file, chunkSize, k) == file[..Min(k * chunkSize, |file|)]
  {
    if k > 0 {
      FirstChunksArePrefix(file, chunkSize, k - 1);
      var offset := (k - 1) * chunkSize;
      var end := offset + ChunkLen(|file|, chunkSize, k - 1);
      assert offset < |file| && end == Min(k * chunkSize, |file|) by {
        ChunkBounds(|file|, chunkSize, k - 1);
        assert offset + chunkSize == k * chunkSize;
      }
      TakeMore(file, offset, end);
    }
  }

  /** All chunks in order are the whole file. */
  lemma AllChunksAreFile(file: seq<byte>, chunkSize: nat)
    requires chunkSize > 0
    ensures FirstChunks(file, chunkSize, ChunkCount(|file|, chunkSize)) == file
  {
    var n := ChunkCount(|file|, chunkSize);
    FirstChunksArePrefix(file, chunkSize, n);
    InRange(|file|, chunkSize, n);
  }

  // ----- writing at an offset -----

  /** What a seek followed by `write_all` leaves: a gap is filled with zeros, no bytes written changes nothing. */
  function WriteAt(disk: seq<byte>, offset: nat, data: seq<byte>): seq<byte> {
    if data == [] then disk else
    var padded := if |disk| < offset then disk + Zeros(offset - |disk|) else disk;
    padded[..offset] + data + (if offset + |data| <= |padded| then padded[offset + |data|..] else [])
  }

  lemma WriteAtBytes(disk: seq<byte>, offset: nat, data: seq<byte>)
    ensures var r := WriteAt(disk, offset, data);
            && |r| == (if data == [] || offset + |data| <= |disk| then |disk| else offset + |data|)
            && (forall p :: 0 <= p < |r| ==>
                  r[p] == if offset <= p < offset + |data| then data[p - offset]
                          else if p < |disk| then disk[p] else 0)
  {
  }

  /** Two adjacent writes are one write of the joined bytes. */
  lemma WriteAtJoin(disk: seq<byte>, offset: nat, a: seq<byte>, b: seq<byte>)
    ensures WriteAt(WriteAt(disk, offset, a), offset + |a|, b) == WriteAt(disk, offset, a + b)
  {
    if a == [] {
      assert a + b == b;
    } else if b == [] {
      assert a + b == a;
    } else {
      var once := WriteAt(disk, offset, a);
      WriteAtBytes(disk, offset, a);
      WriteAtBytes(once, offset + |a|, b);
      WriteAtBytes(disk, offset, a + b);
    }
  }

  /** Chunk-at-a-time writing: the simple form the batched writer must match. */
  function WriteAll(disk: seq<byte>, chunkSize: nat, chunks: seq<Chunk>): seq<byte> {
    if chunks == [] then disk else
    var last := chunks[|chunks| - 1];
    WriteAt(WriteAll(disk, chunkSize, chunks[..|chunks| - 1]), last.index * chunkSize, last.data)
  }

  lemma {:induction false} WriteAllAppend(disk: seq<byte>, chunkSize: nat, a: seq<Chunk>, b: seq<Chunk>)
    ensures WriteAll(disk, chunkSize, a + b) == WriteAll(WriteAll(disk, chunkSize, a), chunkSize, b)
  {
    if b == [] {
      assert a + b == a;
    } else {
      var init := b[..|b| - 1];
      WriteAllAppend(disk, chunkSize, a, init);
      assert (a + b)[..|a + b| - 1] == a + init;
    }
  }

  /** What the receiver's checks leave of a frame: an index in range and exactly the implied size. */
  predicate Sized(c: Chunk, size: nat, chunkSize: nat)
    requires chunkSize > 0
  {
    c.index < ChunkCount(size, chunkSize) && |c.data| == ChunkLen(size, chunkSize, c.index)
  }

  predicate AllSized(chunks: seq<Chunk>, size: nat, chunkSize: nat)
    requires chunkSize > 0
  {
    forall k :: 0 <= k < |chunks| ==> Sized(chunks[k], size, chunkSize)
  }

  ghost predicate DistinctIndices(chunks: seq<Chunk>) {
    forall i, j :: 0 <= i < j < |chunks| ==> chunks[i].index != chunks[j].index
  }

  /** The indices of a run go up by one. */
  predicate Contiguous(chunks: seq<Chunk>) {
    forall k :: 0 <= k < |chunks| ==> chunks[k].index == chunks[0].index + k
  }

  function Payload(chunks: seq<Chunk>): seq<byte> {
    if chunks == [] then [] else Payload(chunks[..|chunks| - 1]) + chunks[|chunks| - 1].data
  }
}
