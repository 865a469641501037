/** The receiver's disk writer: incremental hash, merged writes, and the background write loop
    (core/src/transfer_file.rs). The hasher is the sequence of bytes fed to it. */
module ChunkWriting {
  import opened Prelude
  import opened Chunks

  type Digest = seq<byte>

  const READ_BUFFER: nat := 1024 * 1024

  /** The hash bookkeeping of a writer. */
  datatype Tally = Tally(hashed: seq<byte>, nextExpected: nat, outOfOrder: bool)

  const FRESH := Tally([], 0, false)

  function Record(t: Tally, chunkSize: nat, c: Chunk): Tally {
    var offset := c.index * chunkSize;
    if t.outOfOrder then t
    else if offset == t.nextExpected then Tally(t.hashed + c.data, t.nextExpected + |c.data|, false)
    else if offset < t.nextExpected then t
    else t.(outOfOrder := true)
  }

  function RecordAll(t: Tally, chunkSize: nat, chunks: seq<Chunk>): Tally {
    if chunks == [] then t else
    Record(RecordAll(t, chunkSize, chunks[..|chunks| - 1]), chunkSize, chunks[|chunks| - 1])
  }

  /** The checksum `finalize` reports: the incremental hash if the prefix is the whole file, else a re-read. */
  function Checksum(hash: seq<byte> -> Digest, t: Tally, fileSize: nat, disk: seq<byte>): Digest {
    if !t.outOfOrder && t.nextExpected == fileSize then hash(t.hashed) else hash(disk)
  }

  /** One call of `write_chunks`: a contiguous run goes out as a single write at the first chunk's offset. */
  function Merged(disk: seq<byte>, chunkSize: nat, chunks: seq<Chunk>): seq<byte> {
    if chunks == [] then disk
    else if Contiguous(chunks) then WriteAt(disk, chunks[0].index * chunkSize, Payload(chunks))
    else WriteAll(disk, chunkSize, chunks)
  }

  /** Every chunk of a run but its last has the full chunk size. */
  predicate FullRun(chunks: seq<Chunk>, chunkSize: nat) {
    forall k :: 0 <= k < |chunks| - 1 ==> |chunks[k].data| == chunkSize
  }

  /** In a full run each chunk starts where the payload before it ends. */
  lemma {:induction false} RunOffset(chunkSize: nat, chunks: seq<Chunk>, n: nat)
    requires n < |chunks| && Contiguous(chunks) && FullRun(chunks, chunkSize)
    ensures chunks[n].index * chunkSize == chunks[0].index * chunkSize + |Payload(chunks[..n])|
  {
    if n > 0 {
      RunOffset(chunkSize, chunks, n - 1);
      assert chunks[..n][..n - 1] == chunks[..n - 1];
      NextOffset(chunks[n - 1].index, chunkSize);
    }
  }

  /** Chunk `k`, if it has bytes in it, starts where the payload before it ends. */
  predicate Fits(chunks: seq<Chunk>, chunkSize: nat, k: nat)
    requires k < |chunks|
  {
    chunks[k].data != [] ==> chunks[k].index * chunkSize == chunks[0].index * chunkSize + |Payload(chunks[..k])|
  }

  predicate Fitted(chunks: seq<Chunk>, chunkSize: nat) {
    forall k :: 0 <= k < |chunks| ==> Fits(chunks, chunkSize, k)
  }

  lemma FullIsFitted(chunks: seq<Chunk>, chunkSize: nat)
    requires Contiguous(chunks) && FullRun(chunks, chunkSize)
    ensures Fitted(chunks, chunkSize)
  {
    forall k | 0 <= k < |chunks|
      ensures Fits(chunks, chunkSize, k)
    {
      RunOffset(chunkSize, chunks, k);
    }
  }

  /** A fitted run, chunk by chunk, is one write of its joined payload. */
  lemma {:induction false} RunIsOneWrite(disk: seq<byte>, chunkSize: nat, chunks: seq<Chunk>, n: nat)
    requires 0 < n <= |chunks| && Fitted(chunks, chunkSize)
    ensures WriteAll(disk, chunkSize, chunks[..n]) == WriteAt(disk, chunks[0].index * chunkSize, Payload(chunks[..n]))
  {
    var m := n - 1;
    OneMoreChunk(disk, chunkSize, chunks, m);
    if m == 0 {
      assert chunks[..0] == [];
    } else {
      RunIsOneWrite(disk, chunkSize, chunks, m);
      OneMoreWrite(disk, chunkSize, chunks, m);
    }
  }

  lemma OneMoreWrite(disk: seq<byte>, chunkSize: nat, chunks: seq<Chunk>, m: nat)
    requires 0 < m < |chunks| && Fitted(chunks, chunkSize)
    ensures var start := chunks[0].index * chunkSize;
            WriteAt(WriteAt(disk, start, Payload(chunks[..m])), chunks[m].index * chunkSize, chunks[m].data)
            == WriteAt(disk, start, Payload(chunks[..m]) + chunks[m].data)
  {
    assert Fits(chunks, chunkSize, m);
    if chunks[m].data == [] {
      assert Payload(chunks[..m]) + [] == Payload(chunks[..m]);
    } else {
      WriteAtJoin(disk, chunks[0].index * chunkSize, Payload(chunks[..m]), chunks[m].data);
    }
  }

  lemma OneMoreChunk(disk: seq<byte>, chunkSize: nat, chunks: seq<Chunk>, m: nat)
    requires m < |chunks|
    ensures Payload(chunks[..m + 1]) == Payload(chunks[..m]) + chunks[m].data
    ensures WriteAll(disk, chunkSize, chunks[..m + 1])
            == WriteAt(WriteAll(disk, chunkSize, chunks[..m]), chunks[m].index * chunkSize, chunks[m].data)
  {
    assert chunks[..m + 1][..m] == chunks[..m];
  }

  lemma NextOffset(i: nat, chunkSize: nat)
    ensures (i + 1) * chunkSize == i * chunkSize + chunkSize
  {
  }

  /** Merging is chunk-at-a-time writing whenever only a run's last chunk may be short. */
  lemma MergedIsChunkwise(disk: seq<byte>, chunkSize: nat, chunks: seq<Chunk>)
    requires Contiguous(chunks) ==> FullRun(chunks, chunkSize)
    ensures Merged(disk, chunkSize, chunks) == WriteAll(disk, chunkSize, chunks)
  {
    if Contiguous(chunks) {
      FullIsFitted(chunks, chunkSize);
    }
    FittedIsChunkwise(disk, chunkSize, chunks);
  }

  lemma FittedIsChunkwise(disk: seq<byte>, chunkSize: nat, chunks: seq<Chunk>)
    requires Contiguous(chunks) ==> Fitted(chunks, chunkSize)
    ensures Merged(disk, chunkSize, chunks) == WriteAll(disk, chunkSize, chunks)
  {
    if chunks != [] && Contiguous(chunks) {
      RunIsOneWrite(disk, chunkSize, chunks, |chunks|);
      assert chunks[..|chunks|] == chunks;
    }
  }

  /** Without that the merged write lands elsewhere: a short chunk inside a run shifts what follows. */
  lemma ShortInnerChunkShifts()
    ensures var run := [Chunk(0, [7]), Chunk(1, [8, 9])];
            Contiguous(run) && !FullRun(run, 2) && Merged([], 2, run) != WriteAll([], 2, run)
  {
    var run := [Chunk(0, [7]), Chunk(1, [8, 9])];
    assert run[..1] == [run[0]] && run[..1][..0] == [];
    assert Payload(run) == Payload(run[..1]) + [8, 9];
    assert Payload(run[..1]) == Payload([]) + [7] == [7];
    assert Merged([], 2, run) == WriteAt([], 0, [7, 8, 9]);
    assert WriteAll([], 2, run[..1]) == WriteAt([], 0, [7]);
    assert WriteAll([], 2, run) == WriteAt(WriteAt([], 0, [7]), 2, [8, 9]);
  }

  /** Chunks of the implied sizes form full runs: only the file's last chunk may be short. */
  lemma {:induction false} SizedRunIsFull(chunks: seq<Chunk>, size: nat, chunkSize: nat)
    requires chunkSize > 0 && AllSized(chunks, size, chunkSize) && Contiguous(chunks)
    ensures FullRun(chunks, chunkSize)
  {
    forall k | 0 <= k < |chunks| - 1
      ensures |chunks[k].data| == chunkSize
    {
      assert Sized(chunks[k + 1], size, chunkSize) && Sized(chunks[k], size, chunkSize);
      ChunkBounds(size, chunkSize, chunks[k].index);
    }
  }

  // ----- the incremental hash -----

  lemma {:induction false} SizedWritesStayInside(disk: seq<byte>, size: nat, chunkSize: nat, chunks: seq<Chunk>)
    requires chunkSize > 0 && |disk| <= size && AllSized(chunks, size, chunkSize)
    ensures |WriteAll(disk, chunkSize, chunks)| <= size
  {
    if chunks != [] {
      var init, last := chunks[..|chunks| - 1], chunks[|chunks| - 1];
      assert forall k :: 0 <= k < |init| ==> init[k] == chunks[k];
      SizedWritesStayInside(disk, size, chunkSize, init);
      assert Sized(last, size, chunkSize);
      ChunkBounds(size, chunkSize, last.index);
      WriteAtBytes(WriteAll(disk, chunkSize, init), last.index * chunkSize, last.data);
    }
  }

  lemma {:induction false} LastIndexAtLeast(chunks: seq<Chunk>, k: nat)
    requires k < |chunks| && DistinctIndices(chunks)
    requires forall j :: 0 <= j < |chunks| - 1 ==> chunks[j].index == j
    ensures chunks[|chunks| - 1].index >= k
  {
    if k > 0 {
      LastIndexAtLeast(chunks, k - 1);
      assert chunks[k - 1].index == k - 1;
    }
  }

  /** As long as nothing came out of order, the chunks so far are 0, 1, 2, ... and all of them are hashed. */
  lemma {:induction false} InOrderPrefix(size: nat, chunkSize: nat, chunks: seq<Chunk>)
    requires chunkSize > 0 && AllSized(chunks, size, chunkSize) && DistinctIndices(chunks)
    requires !RecordAll(FRESH, chunkSize, chunks).outOfOrder
    ensures forall j :: 0 <= j < |chunks| ==> chunks[j].index == j
    ensures RecordAll(FRESH, chunkSize, chunks).hashed == Payload(chunks)
    ensures RecordAll(FRESH, chunkSize, chunks).nextExpected == |Payload(chunks)| == Min(|chunks| * chunkSize, size)
  {
    if chunks != [] {
      var n := |chunks| - 1;
      var init, last := chunks[..n], chunks[n];
      var t := RecordAll(FRESH, chunkSize, init);
      assert forall k :: 0 <= k < n ==> init[k] == chunks[k];
      assert RecordAll(FRESH, chunkSize, chunks) == Record(t, chunkSize, last) && Sized(last, size, chunkSize);
      InOrderPrefix(size, chunkSize, init);
      LastIndexAtLeast(chunks, n);
      RecordInOrder(t, size, chunkSize, n, last);
    }
  }

  /** After the first `n` chunks in order, a later one that is not out of order is the next and is hashed. */
  lemma RecordInOrder(t: Tally, size: nat, chunkSize: nat, n: nat, c: Chunk)
    requires chunkSize > 0 && Sized(c, size, chunkSize) && n <= c.index
    requires t.nextExpected == Min(n * chunkSize, size) && !Record(t, chunkSize, c).outOfOrder && !t.outOfOrder
    ensures c.index == n
    ensures Record(t, chunkSize, c) == Tally(t.hashed + c.data, t.nextExpected + |c.data|, false)
    ensures t.nextExpected + |c.data| == Min((n + 1) * chunkSize, size)
  {
    NextInOrder(size, chunkSize, n, c.index);
  }

  /** A chunk in range, no earlier than the `n`-th, that starts where the first `n` end, is the `n`-th. */
  lemma NextInOrder(size: nat, chunkSize: nat, n: nat, index: nat)
    requires chunkSize > 0 && n <= index < ChunkCount(size, chunkSize)
    ensures index * chunkSize >= Min(n * chunkSize, size)
    ensures index * chunkSize == Min(n * chunkSize, size) ==>
              index == n && index * chunkSize + ChunkLen(size, chunkSize, index) == Min((n + 1) * chunkSize, size)
  {
    ChunkBounds(size, chunkSize, index);
    NextOffset(n, chunkSize);
    if n < index {
      MulGap(n, index, chunkSize);
    }
  }

  lemma {:induction false} InOrderStays(size: nat, chunkSize: nat, chunks: seq<Chunk>)
    requires chunkSize > 0 && AllSized(chunks, size, chunkSize) && forall j :: 0 <= j < |chunks| ==> chunks[j].index == j
    ensures !RecordAll(FRESH, chunkSize, chunks).outOfOrder
    ensures RecordAll(FRESH, chunkSize, chunks).nextExpected == Min(|chunks| * chunkSize, size)
  {
    if chunks != [] {
      var n := |chunks| - 1;
      var init, last := chunks[..n], chunks[n];
      assert forall k :: 0 <= k < n ==> init[k] == chunks[k];
      InOrderStays(size, chunkSize, init);
      assert Sized(last, size, chunkSize);
      InRange(size, chunkSize, n);
      NextInOrder(size, chunkSize, n, n);
    }
  }

  /** The incremental hash serves exactly when the chunks came in order; and no re-read is needed exactly when all
      of the file's did. */
  lemma NoRereadIff(size: nat, chunkSize: nat, chunks: seq<Chunk>)
    requires chunkSize > 0 && AllSized(chunks, size, chunkSize) && DistinctIndices(chunks)
    ensures var t := RecordAll(FRESH, chunkSize, chunks);
            && (!t.outOfOrder <==> forall j :: 0 <= j < |chunks| ==> chunks[j].index == j)
            && (!t.outOfOrder && t.nextExpected == size <==>
                  |chunks| == ChunkCount(size, chunkSize) && forall j :: 0 <= j < |chunks| ==> chunks[j].index == j)
  {
    var t := RecordAll(FRESH, chunkSize, chunks);
    if forall j :: 0 <= j < |chunks| ==> chunks[j].index == j {
      InOrderStays(size, chunkSize, chunks);
      InRange(size, chunkSize, |chunks|);
      if chunks != [] {
        assert Sized(chunks[|chunks| - 1], size, chunkSize);
      }
    }
    if !t.outOfOrder {
      InOrderPrefix(size, chunkSize, chunks);
    }
  }

  /** `finalize` always reports the hash of the bytes on disk: for any leftover partial cut to the file
      size and any distinct correctly sized chunks in any order, the fast path agrees with a re-read. */
  lemma {:induction false} FinalizeHashesDisk(hash: seq<byte> -> Digest, disk: seq<byte>, size: nat, chunkSize: nat,
        chunks: seq<Chunk>)
    requires chunkSize > 0 && |disk| <= size
    requires AllSized(chunks, size, chunkSize) && DistinctIndices(chunks)
    ensures var after := WriteAll(disk, chunkSize, chunks);
            Checksum(hash, RecordAll(FRESH, chunkSize, chunks), size, after) == hash(after)
  {
    var t := RecordAll(FRESH, chunkSize, chunks);
    if !t.outOfOrder && t.nextExpected == size {
      InOrderPrefix(size, chunkSize, chunks);
      SizedWritesStayInside(disk, size, chunkSize, chunks);
      if chunks != [] {
        SizedRunIsFull(chunks, size, chunkSize);
        MergedIsChunkwise(disk, chunkSize, chunks);
        WriteAtBytes(disk, 0, Payload(chunks));
        assert WriteAll(disk, chunkSize, chunks) == WriteAt(disk, 0, Payload(chunks));
        assert WriteAll(disk, chunkSize, chunks) == t.hashed;
      }
    }
  }

  // ----- the writer object -----

  class ChunkWriter {
    const chunkSize: nat
    const fileSize: nat
    var disk: seq<byte>
    var hasher: seq<byte>
    var nextExpected: nat
    var outOfOrder: bool
    var renamed: bool

    function Book(): Tally
      reads this
    {
      Tally(hasher, nextExpected, outOfOrder)
    }

    /** Open `<path>.partial` with whatever it already holds, cutting it back to the file size. */
    constructor (leftover: seq<byte>, chunkSize: nat, fileSize: nat)
      ensures this.chunkSize == chunkSize && this.fileSize == fileSize && Book() == Tally([], 0, false) && !renamed
      ensures disk == leftover[..Min(|leftover|, fileSize)]
    {
      this.chunkSize, this.fileSize := chunkSize, fileSize;
      disk := if |leftover| > fileSize then leftover[..fileSize] else leftover;
      hasher, nextExpected, outOfOrder, renamed := [], 0, false, false;
    }

    method RecordHash(index: nat, data: seq<byte>)
      modifies this`hasher, this`nextExpected, this`outOfOrder
      ensures Book() == Record(old(Book()), chunkSize, Chunk(index, data))
      ensures old(outOfOrder) || index * chunkSize < old(nextExpected) ==> Book() == old(Book())
      ensures !old(outOfOrder) && index * chunkSize == old(nextExpected) ==>
                Book() == Tally(old(hasher) + data, old(nextExpected) + |data|, false)
      ensures !old(outOfOrder) && index * chunkSize > old(nextExpected) ==>
                Book() == Tally(old(hasher), old(nextExpected), true)
    {
      if outOfOrder {
        return;
      }
      var offset := index * chunkSize;
      if offset == nextExpected {
        hasher := hasher + data;
        nextExpected := nextExpected + |data|;
      } else if offset < nextExpected {
      } else {
        outOfOrder := true;
      }
    }

    method WriteChunk(index: nat, data: seq<byte>)
      modifies this
      ensures disk == WriteAll(old(disk), chunkSize, [Chunk(index, data)])
      ensures Book() == RecordAll(old(Book()), chunkSize, [Chunk(index, data)])
      ensures renamed == old(renamed)
    {
      disk := WriteAt(disk, index * chunkSize, data);
      RecordHash(index, data);
      assert [Chunk(index, data)][..0] == [];
    }

    method WriteChunks(chunks: seq<Chunk>)
      modifies this
      ensures disk == Merged(old(disk), chunkSize, chunks)
      ensures Book() == RecordAll(old(Book()), chunkSize, chunks)
      ensures renamed == old(renamed)
    {
      if chunks == [] {
        return;
      }
      if Contiguous(chunks) {
        var buf := Join(chunks);
        disk := WriteAt(disk, chunks[0].index * chunkSize, buf);
        RecordRun(chunks);
      } else {
        WriteEach(chunks);
      }
    }

    static method Join(chunks: seq<Chunk>) returns (buf: seq<byte>)
      ensures buf == Payload(chunks)
    {
      buf := [];
      for i := 0 to |chunks|
        invariant buf == Payload(chunks[..i])
      {
        buf := buf + chunks[i].data;
        assert chunks[..i + 1][..i] == chunks[..i];
      }
      assert chunks[..|chunks|] == chunks;
    }

    method RecordRun(chunks: seq<Chunk>)
      requires Contiguous(chunks)
      modifies this`hasher, this`nextExpected, this`outOfOrder
      ensures Book() == RecordAll(old(Book()), chunkSize, chunks)
    {
      for i := 0 to |chunks|
        invariant Book() == RecordAll(old(Book()), chunkSize, chunks[..i])
      {
        assert chunks[i] == Chunk(chunks[0].index + i, chunks[i].data);
        RecordHash(chunks[0].index + i, chunks[i].data);
        assert chunks[..i + 1][..i] == chunks[..i];
      }
      assert chunks[..|chunks|] == chunks;
    }

    method WriteEach(chunks: seq<Chunk>)
      modifies this
      ensures disk == WriteAll(old(disk), chunkSize, chunks)
      ensures Book() == RecordAll(old(Book()), chunkSize, chunks)
      ensures renamed == old(renamed)
    {
      for i := 0 to |chunks|
        invariant Book() == RecordAll(old(Book()), chunkSize, chunks[..i])
        invariant disk == WriteAll(old(disk), chunkSize, chunks[..i]) && renamed == old(renamed)
      {
        assert chunks[i] == Chunk(chunks[i].index, chunks[i].data);
        disk := WriteAt(disk, chunks[i].index * chunkSize, chunks[i].data);
        RecordHash(chunks[i].index, chunks[i].data);
        assert chunks[..i + 1][..i] == chunks[..i];
      }
      assert chunks[..|chunks|] == chunks;
    }

    /** Rename into place and report the checksum, re-reading the file when the prefix is not whole. */
    method Finalize(hash: seq<byte> -> Digest) returns (digest: Digest)
      modifies this`renamed
      ensures renamed && digest == Checksum(hash, Book(), fileSize, disk)
      ensures digest == hash(if !outOfOrder && nextExpected == fileSize then hasher else disk)
    {
      renamed := true;
      if !outOfOrder && nextExpected == fileSize {
        return hash(hasher);
      }
      var reread, at := [], 0;
      while at < |disk|
        invariant at <= |disk| && reread == disk[..at]
      {
        var n := Min(READ_BUFFER, |disk| - at);
        reread := reread + disk[at..at + n];
        at := at + n;
      }
      assert reread == disk;
      return hash(reread);
    }
  }

  // ----- the background write loop -----

  datatype WriteItem = Batch(chunks: seq<Chunk>) | Finalize

  /** The chunks of the batches up to the first `Finalize`. */
  function Drained(items: seq<WriteItem>): seq<Chunk> {
    if items == [] || items[0].Finalize? then [] else items[0].chunks + Drained(items[1..])
  }

  predicate Finalizes(items: seq<WriteItem>) {
    exists k :: 0 <= k < |items| && items[k].Finalize?
  }

  lemma {:induction false} DrainedSnoc(items: seq<WriteItem>, k: nat)
    requires k < |items| && forall j :: 0 <= j <= k ==> items[j].Batch?
    ensures Drained(items[..k + 1]) == Drained(items[..k]) + items[k].chunks
  {
    if k > 0 {
      DrainedSnoc(items[1..], k - 1);
      assert items[..k + 1][1..] == items[1..][..k] && items[..k][1..] == items[1..][..k - 1];
    } else {
      assert items[..1][1..] == [];
    }
  }

  lemma {:induction false} DrainedPrefix(items: seq<WriteItem>, k: nat)
    requires k <= |items| && forall j :: 0 <= j < k ==> items[j].Batch?
    requires k < |items| ==> items[k].Finalize?
    ensures Drained(items) == Drained(items[..k])
  {
    if k > 0 {
      DrainedPrefix(items[1..], k - 1);
      assert items[..k][1..] == items[1..][..k - 1];
    }
  }

  lemma {:induction false} RecordAllAppend(t: Tally, chunkSize: nat, a: seq<Chunk>, b: seq<Chunk>)
    ensures RecordAll(t, chunkSize, a + b) == RecordAll(RecordAll(t, chunkSize, a), chunkSize, b)
  {
    if b == [] {
      assert a + b == a;
    } else {
      RecordAllAppend(t, chunkSize, a, b[..|b| - 1]);
      assert (a + b)[..|a + b| - 1] == a + b[..|b| - 1];
    }
  }

  /** Flush the pending run. The receiver's size checks make the merged write a chunk-wise one. */
  method WriteContiguous(writer: ChunkWriter, group: seq<Chunk>)
    requires writer.chunkSize > 0
    requires AllSized(group, writer.fileSize, writer.chunkSize)
    modifies writer
    ensures writer.disk == WriteAll(old(writer.disk), writer.chunkSize, group)
    ensures writer.Book() == RecordAll(old(writer.Book()), writer.chunkSize, group)
    ensures writer.renamed == old(writer.renamed)
  {
    if group == [] {
      return;
    }
    if Contiguous(group) {
      SizedRunIsFull(group, writer.fileSize, writer.chunkSize);
      MergedIsChunkwise(writer.disk, writer.chunkSize, group);
    }
    writer.WriteChunks(group);
  }

  /** One batch: grow a run while indices go up by one, write it when they do not, flush at the end. */
  method WriteBatch(writer: ChunkWriter, batch: seq<Chunk>)
    requires writer.chunkSize > 0
    requires AllSized(batch, writer.fileSize, writer.chunkSize)
    modifies writer
    ensures writer.disk == WriteAll(old(writer.disk), writer.chunkSize, batch)
    ensures writer.Book() == RecordAll(old(writer.Book()), writer.chunkSize, batch)
    ensures writer.renamed == old(writer.renamed)
  {
    ghost var disk0, book0 := writer.disk, writer.Book();
    var group: seq<Chunk> := [];
    ghost var written := 0;
    for i := 0 to |batch|
      invariant 0 <= written <= i && group == batch[written..i]
      invariant Written(writer, disk0, book0, batch[..written])
      invariant writer.renamed == old(writer.renamed)
    {
      if group != [] && group[|group| - 1].index + 1 == batch[i].index {
        group := group + [batch[i]];
      } else {
        WriteGroup(writer, disk0, book0, batch[..written], group);
        assert batch[..written] + group == batch[..i];
        written := i;
        group := [batch[i]];
      }
    }
    WriteGroup(writer, disk0, book0, batch[..written], group);
    assert batch[..written] + group == batch;
  }

  ghost predicate Written(writer: ChunkWriter, disk0: seq<byte>, book0: Tally, chunks: seq<Chunk>)
    reads writer
  {
    && writer.disk == WriteAll(disk0, writer.chunkSize, chunks)
    && writer.Book() == RecordAll(book0, writer.chunkSize, chunks)
  }

  /** `WriteContiguous`, continuing from a state in which `before` is already written. */
  method WriteGroup(writer: ChunkWriter, ghost disk0: seq<byte>, ghost book0: Tally, ghost before: seq<Chunk>,
        group: seq<Chunk>)
    requires writer.chunkSize > 0 && Written(writer, disk0, book0, before)
    requires AllSized(group, writer.fileSize, writer.chunkSize)
    modifies writer
    ensures Written(writer, disk0, book0, before + group)
    ensures writer.renamed == old(writer.renamed)
  {
    WriteAllAppend(disk0, writer.chunkSize, before, group);
    RecordAllAppend(book0, writer.chunkSize, before, group);
    WriteContiguous(writer, group);
  }

  /** The write loop over everything it receives before the channel closes: whatever the batch
      boundaries, the disk and the hash are those of chunk-at-a-time writing, and the partial is
      renamed exactly when `Finalize` arrived. */
  method WriteLoop(writer: ChunkWriter, items: seq<WriteItem>, hash: seq<byte> -> Digest)
    returns (result: Result<Digest, string>)
    requires writer.chunkSize > 0
    requires AllSized(Drained(items), writer.fileSize, writer.chunkSize)
    modifies writer
    ensures writer.disk == WriteAll(old(writer.disk), writer.chunkSize, Drained(items))
    ensures writer.Book() == RecordAll(old(writer.Book()), writer.chunkSize, Drained(items))
    ensures result.Ok? <==> Finalizes(items)
    ensures result.Ok? ==> writer.renamed && result.value == Checksum(hash, writer.Book(), writer.fileSize, writer.disk)
    ensures result.Err? ==> writer.renamed == old(writer.renamed)
  {
    ghost var disk0, book0 := writer.disk, writer.Book();
    var finalized := false;
    var k := 0;
    while k < |items|
      invariant k <= |items| && !finalized
      invariant forall j :: 0 <= j < k ==> items[j].Batch?
      invariant Written(writer, disk0, book0, Drained(items[..k]))
      invariant writer.renamed == old(writer.renamed)
    {
      if items[k].Finalize? {
        finalized := true;
        break;
      }
      DrainedSnoc(items, k);
      ExtendWritten(disk0, book0, writer.fileSize, writer.chunkSize, items, k);
      WriteBatch(writer, items[k].chunks);
      k := k + 1;
    }
    DrainedPrefix(items, k);
    if finalized {
      var digest := writer.Finalize(hash);
      result := Ok(digest);
    } else {
      result := Err("receive aborted before Finalize; partial retained for resume");
    }
  }

  lemma {:induction false} DrainedSplit(items: seq<WriteItem>, k: nat)
    requires k < |items| && forall j :: 0 <= j <= k ==> items[j].Batch?
    ensures Drained(items) == Drained(items[..k]) + items[k].chunks + Drained(items[k + 1..])
  {
    if k > 0 {
      DrainedSplit(items[1..], k - 1);
      assert items[..k][1..] == items[1..][..k - 1];
      assert items[1..][k..] == items[k + 1..];
    }
  }

  lemma ExtendWritten(disk0: seq<byte>, book0: Tally, size: nat, chunkSize: nat, items: seq<WriteItem>, k: nat)
    requires k < |items| && forall j :: 0 <= j <= k ==> items[j].Batch?
    requires chunkSize > 0 && AllSized(Drained(items), size, chunkSize)
    ensures AllSized(items[k].chunks, size, chunkSize)
    ensures WriteAll(disk0, chunkSize, Drained(items[..k]) + items[k].chunks)
              == WriteAll(WriteAll(disk0, chunkSize, Drained(items[..k])), chunkSize, items[k].chunks)
    ensures RecordAll(book0, chunkSize, Drained(items[..k]) + items[k].chunks)
              == RecordAll(RecordAll(book0, chunkSize, Drained(items[..k])), chunkSize, items[k].chunks)
  {
    DrainedSplit(items, k);
    var done := Drained(items[..k]);
    forall j | 0 <= j < |items[k].chunks|
      ensures Sized(items[k].chunks[j], size, chunkSize)
    {
      assert items[k].chunks[j] == Drained(items)[|done| + j];
    }
    WriteAllAppend(disk0, chunkSize, done, items[k].chunks);
    RecordAllAppend(book0, chunkSize, done, items[k].chunks);
  }

  /** A whole receive on one partial: any leftover, any batching of distinct sized chunks, in any order.
      The checksum is the hash of what is on disk, and the disk is the leftover, cut, with each chunk
      written at its offset. */
  method WritePartial(leftover: seq<byte>, chunkSize: nat, fileSize: nat, items: seq<WriteItem>,
        hash: seq<byte> -> Digest)
    returns (result: Result<Digest, string>, onDisk: seq<byte>)
    requires chunkSize > 0
    requires AllSized(Drained(items), fileSize, chunkSize) && DistinctIndices(Drained(items))
    ensures onDisk == WriteAll(leftover[..Min(|leftover|, fileSize)], chunkSize, Drained(items))
    ensures result.Ok? <==> Finalizes(items)
    ensures result.Ok? ==> result.value == hash(onDisk)
  {
    var writer := new ChunkWriter(leftover, chunkSize, fileSize);
    ghost var start := writer.disk;
    result := WriteLoop(writer, items, hash);
    onDisk := writer.disk;
    FinalizeHashesDisk(hash, start, fileSize, chunkSize, Drained(items));
  }
}
