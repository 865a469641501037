/** When writing a contiguous run of chunks at once is writing them one by one, for all bytes they may carry
    (core/src/transfer_file.rs). */
module MergedWrites {
  import opened Prelude
  import opened Chunks
  import opened ChunkWriting

  /** The same indices and lengths. */
  predicate SameShape(a: seq<Chunk>, b: seq<Chunk>) {
    |a| == |b| && forall k :: 0 <= k < |a| ==> a[k].index == b[k].index && |a[k].data| == |b[k].data|
  }

  lemma {:induction false} ShapePayload(a: seq<Chunk>, b: seq<Chunk>, n: nat)
    requires SameShape(a, b) && n <= |a|
    ensures |Payload(a[..n])| == |Payload(b[..n])|
  {
    if n > 0 {
      ShapePayload(a, b, n - 1);
      assert a[..n][..n - 1] == a[..n - 1] && b[..n][..n - 1] == b[..n - 1];
    }
  }

  function Filled(n: nat, b: byte): (bytes: seq<byte>)
    ensures |bytes| == n && forall x :: x in bytes ==> x == b
  {
    seq(n, _ => b)
  }

  /** The shape filled with zeros, but with ones in chunk `k`. */
  function Probe(shape: seq<Chunk>, k: nat): (chunks: seq<Chunk>)
    ensures SameShape(chunks, shape)
  {
    seq(|shape|, i requires 0 <= i < |shape| => Chunk(shape[i].index, Filled(|shape[i].data|, if i == k then 1 else 0)))
  }

  predicate Covers(c: Chunk, chunkSize: nat, p: nat) { c.index * chunkSize <= p < c.index * chunkSize + |c.data| }

  /** Written chunk by chunk over zeros, a byte is one if chunk `k` covers it and no later one does, zero if it does not. */
  lemma {:induction false} ProbeWritten(shape: seq<Chunk>, chunkSize: nat, k: nat, size: nat, p: nat, n: nat)
    requires k < |shape| && n <= |shape| && p < size
    ensures var w := WriteAll(Zeros(size), chunkSize, Probe(shape, k)[..n]);
            && |w| >= size
            && (n <= k || !Covers(shape[k], chunkSize, p) ==> w[p] == 0)
            && (n > k && Covers(shape[k], chunkSize, p) && (forall j :: k < j < n ==> !Covers(shape[j], chunkSize, p)) ==>
                  w[p] == 1)
  {
    var chunks := Probe(shape, k);
    if n > 0 {
      ProbeWritten(shape, chunkSize, k, size, p, n - 1);
      OneMoreChunk(Zeros(size), chunkSize, chunks, n - 1);
      WrittenByte(WriteAll(Zeros(size), chunkSize, chunks[..n - 1]), chunkSize, chunks[n - 1], p);
      assert Covers(chunks[n - 1], chunkSize, p) == Covers(shape[n - 1], chunkSize, p);
    }
  }

  lemma WrittenByte(w: seq<byte>, chunkSize: nat, c: Chunk, p: nat)
    requires p < |w|
    ensures var r := WriteAt(w, c.index * chunkSize, c.data);
            && |r| >= |w| && (!Covers(c, chunkSize, p) ==> r[p] == w[p])
            && (Covers(c, chunkSize, p) ==> r[p] in c.data)
  {
    WriteAtBytes(w, c.index * chunkSize, c.data);
  }

  lemma {:induction false} PayloadGrows(chunks: seq<Chunk>, k: nat, n: nat)
    requires k < n <= |chunks|
    ensures |Payload(chunks[..k])| + |chunks[k].data| <= |Payload(chunks[..n])|
  {
    assert chunks[..n][..n - 1] == chunks[..n - 1];
    if k < n - 1 {
      PayloadGrows(chunks, k, n - 1);
    }
  }

  /** Ones from `before` on, zeros elsewhere. */
  function Marked(before: nat, len: nat, rest: nat): (s: seq<byte>)
    ensures |s| == before + len + rest
    ensures forall q :: 0 <= q < |s| ==> s[q] == if before <= q < before + len then 1 else 0
  {
    Filled(before, 0) + (Filled(len, 1) + Filled(rest, 0))
  }

  /** In the joined payload the ones stand where the payload before chunk `k` ends. */
  lemma {:induction false} ProbePayload(shape: seq<Chunk>, k: nat, n: nat)
    requires k < n <= |shape|
    ensures |Payload(shape[..n])| >= |Payload(shape[..k])| + |shape[k].data|
    ensures var before, len := |Payload(shape[..k])|, |shape[k].data|;
            Payload(Probe(shape, k)[..n]) == Marked(before, len, |Payload(shape[..n])| - before - len)
  {
    PayloadGrows(shape, k, n);
    PayloadSnoc(Probe(shape, k), n);
    PayloadSnoc(shape, n);
    var before, len := |Payload(shape[..k])|, |shape[k].data|;
    if n - 1 == k {
      ZerosBefore(shape, k, k);
      assert Filled(len, 1) + Filled(0, 0) == Filled(len, 1);
    } else {
      ProbePayload(shape, k, n - 1);
      MoreZeros(before, len, |Payload(shape[..n - 1])| - before - len, |shape[n - 1].data|);
    }
  }

  lemma MoreZeros(before: nat, len: nat, rest: nat, more: nat)
    ensures Marked(before, len, rest) + Filled(more, 0) == Marked(before, len, rest + more)
  {
  }

  lemma {:induction false} ZerosBefore(shape: seq<Chunk>, k: nat, n: nat)
    requires n <= k < |shape|
    ensures Payload(Probe(shape, k)[..n]) == Filled(|Payload(shape[..n])|, 0)
  {
    if n > 0 {
      ZerosBefore(shape, k, n - 1);
      PayloadSnoc(Probe(shape, k), n);
      PayloadSnoc(shape, n);
    }
  }

  lemma PayloadSnoc(chunks: seq<Chunk>, n: nat)
    requires 0 < n <= |chunks|
    ensures Payload(chunks[..n]) == Payload(chunks[..n - 1]) + chunks[n - 1].data
  {
    assert chunks[..n][..n - 1] == chunks[..n - 1];
  }

  /** The last chunk that does not fit. */
  lemma {:induction false} LastUnfitted(chunks: seq<Chunk>, chunkSize: nat, n: nat) returns (k: nat)
    requires n <= |chunks| && !Fitted(chunks, chunkSize)
    requires forall j :: n <= j < |chunks| ==> Fits(chunks, chunkSize, j)
    ensures k < |chunks| && !Fits(chunks, chunkSize, k)
    ensures forall j :: k < j < |chunks| ==> Fits(chunks, chunkSize, j)
  {
    if !Fits(chunks, chunkSize, n - 1) {
      k := n - 1;
    } else {
      k := LastUnfitted(chunks, chunkSize, n - 1);
    }
  }

  lemma ProbeAlone(shape: seq<Chunk>, chunkSize: nat, k: nat, size: nat, p: nat)
    requires k < |shape| && p < size
    ensures var w := WriteAll(Zeros(size), chunkSize, Probe(shape, k));
            && |w| >= size && (!Covers(shape[k], chunkSize, p) ==> w[p] == 0)
            && (Covers(shape[k], chunkSize, p) && (forall j :: k < j < |shape| ==> !Covers(shape[j], chunkSize, p)) ==>
                  w[p] == 1)
  {
    ProbeWritten(shape, chunkSize, k, size, p, |shape|);
    assert Probe(shape, k)[..|shape|] == Probe(shape, k);
  }

  lemma ProbeWhole(shape: seq<Chunk>, k: nat)
    requires k < |shape|
    ensures |Payload(shape)| >= |Payload(shape[..k])| + |shape[k].data|
    ensures var before, len := |Payload(shape[..k])|, |shape[k].data|;
            Payload(Probe(shape, k)) == Marked(before, len, |Payload(shape)| - before - len)
  {
    ProbePayload(shape, k, |shape|);
    assert Probe(shape, k)[..|shape|] == Probe(shape, k) && shape[..|shape|] == shape;
  }

  lemma ProbeMerged(shape: seq<Chunk>, chunkSize: nat, k: nat, size: nat, start: nat, q: nat)
    requires Contiguous(shape) && k < |shape| && q < |Payload(shape)|
    requires start == shape[0].index * chunkSize && start + q < size
    ensures var w, before := Merged(Zeros(size), chunkSize, Probe(shape, k)), |Payload(shape[..k])|;
            |w| >= size && w[start + q] == if before <= q < before + |shape[k].data| then 1 else 0
  {
    ProbeWhole(shape, k);
    ProbeIsMerged(shape, chunkSize, k, Zeros(size));
    PlacedByte(Zeros(size), start, Payload(Probe(shape, k)), q);
  }

  lemma ProbeIsMerged(shape: seq<Chunk>, chunkSize: nat, k: nat, disk: seq<byte>)
    requires Contiguous(shape) && k < |shape|
    ensures Merged(disk, chunkSize, Probe(shape, k)) == WriteAt(disk, shape[0].index * chunkSize, Payload(Probe(shape, k)))
  {
    assert Contiguous(Probe(shape, k));
  }

  lemma PlacedByte(disk: seq<byte>, offset: nat, data: seq<byte>, q: nat)
    requires q < |data|
    ensures var r := WriteAt(disk, offset, data); |r| >= |disk| && offset + q < |r| && r[offset + q] == data[q]
  {
    WriteAtBytes(disk, offset, data);
  }

  /** Chunk `k` starts too early: its first byte is one by itself, and lies among the zeros before it when merged. */
  lemma StartsEarly(shape: seq<Chunk>, chunkSize: nat, k: nat, start: nat, p: nat)
    requires Contiguous(shape) && k < |shape| && shape[k].data != []
    requires start == shape[0].index * chunkSize && p == shape[k].index * chunkSize
    requires p < start + |Payload(shape[..k])| && forall j :: k < j < |shape| ==> Fits(shape, chunkSize, j)
    ensures Merged(Zeros(p + 1), chunkSize, Probe(shape, k)) != WriteAll(Zeros(p + 1), chunkSize, Probe(shape, k))
  {
    forall j | k < j < |shape|
      ensures !Covers(shape[j], chunkSize, p)
    {
      assert Fits(shape, chunkSize, j);
      PayloadGrows(shape, k, j);
    }
    IndexGrows(shape, chunkSize, k);
    WholePayload(shape, k);
    ProbeAlone(shape, chunkSize, k, p + 1, p);
    ProbeMerged(shape, chunkSize, k, p + 1, start, p - start);
  }

  /** Chunk `k` starts too late: where its first byte comes when merged, it leaves a zero by itself. */
  lemma StartsLate(shape: seq<Chunk>, chunkSize: nat, k: nat, start: nat, p: nat)
    requires Contiguous(shape) && k < |shape| && shape[k].data != []
    requires start == shape[0].index * chunkSize && p == start + |Payload(shape[..k])|
    requires shape[k].index * chunkSize > p
    ensures Merged(Zeros(p + 1), chunkSize, Probe(shape, k)) != WriteAll(Zeros(p + 1), chunkSize, Probe(shape, k))
  {
    assert !Covers(shape[k], chunkSize, p);
    WholePayload(shape, k);
    ProbeAlone(shape, chunkSize, k, p + 1, p);
    ProbeMerged(shape, chunkSize, k, p + 1, start, p - start);
  }

  lemma WholePayload(chunks: seq<Chunk>, k: nat)
    requires k < |chunks|
    ensures |Payload(chunks[..k])| + |chunks[k].data| <= |Payload(chunks)|
  {
    PayloadGrows(chunks, k, |chunks|);
    assert chunks[..|chunks|] == chunks;
  }

  lemma ProbeDiffers(shape: seq<Chunk>, chunkSize: nat) returns (disk: seq<byte>, chunks: seq<Chunk>)
    requires Contiguous(shape) && !Fitted(shape, chunkSize)
    ensures SameShape(chunks, shape) && Merged(disk, chunkSize, chunks) != WriteAll(disk, chunkSize, chunks)
  {
    var k := LastUnfitted(shape, chunkSize, |shape|);
    var start, alone := shape[0].index * chunkSize, shape[k].index * chunkSize;
    var merged := start + |Payload(shape[..k])|;
    chunks := Probe(shape, k);
    if alone < merged {
      StartsEarly(shape, chunkSize, k, start, alone);
      disk := Zeros(alone + 1);
    } else {
      StartsLate(shape, chunkSize, k, start, merged);
      disk := Zeros(merged + 1);
    }
  }

  lemma IndexGrows(chunks: seq<Chunk>, chunkSize: nat, k: nat)
    requires Contiguous(chunks) && k < |chunks|
    ensures chunks[0].index * chunkSize <= chunks[k].index * chunkSize
  {
    if k > 0 {
      MulGap(chunks[0].index, chunks[k].index, chunkSize);
    }
  }

  /** Merging a contiguous run is chunk-at-a-time writing, whatever the bytes and whatever was on disk, exactly when
      its lengths fit. */
  lemma MergedIff(shape: seq<Chunk>, chunkSize: nat)
    requires Contiguous(shape)
    ensures (forall disk, chunks :: SameShape(chunks, shape) ==>
               Merged(disk, chunkSize, chunks) == WriteAll(disk, chunkSize, chunks))
            <==> Fitted(shape, chunkSize)
  {
    if Fitted(shape, chunkSize) {
      forall disk, chunks | SameShape(chunks, shape)
        ensures Merged(disk, chunkSize, chunks) == WriteAll(disk, chunkSize, chunks)
      {
        ShapeFits(chunks, shape, chunkSize);
        FittedIsChunkwise(disk, chunkSize, chunks);
      }
    } else {
      var disk, chunks := ProbeDiffers(shape, chunkSize);
    }
  }

  lemma ShapeFits(chunks: seq<Chunk>, shape: seq<Chunk>, chunkSize: nat)
    requires SameShape(chunks, shape) && Fitted(shape, chunkSize)
    ensures Fitted(chunks, chunkSize)
  {
    forall k | 0 <= k < |chunks|
      ensures Fits(chunks, chunkSize, k)
    {
      assert Fits(shape, chunkSize, k);
      ShapePayload(chunks, shape, k);
    }
  }
}
