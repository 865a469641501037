/** When the bytes on disk agree with the source file, and what a write of a true chunk keeps. */
module Coverage {
  import opened Prelude
  import opened Chunks

  /** Bytes `lo..hi` are on disk and equal to the source's. */
  ghost predicate Agrees(disk: seq<byte>, file: seq<byte>, lo: nat, hi: nat) {
    lo <= hi <= |disk| && hi <= |file| && forall p :: lo <= p < hi ==> disk[p] == file[p]
  }

  /** Chunk `i` is on disk. */
  ghost predicate Holds(disk: seq<byte>, file: seq<byte>, chunkSize: nat, i: nat) {
    Agrees(disk, file, i * chunkSize, i * chunkSize + ChunkLen(|file|, chunkSize, i))
  }

  /** A chunk that is in range and carries the source's bytes. */
  ghost predicate TrueChunk(c: Chunk, file: seq<byte>, chunkSize: nat) {
    chunkSize > 0 && c.index < ChunkCount(|file|, chunkSize) && c.data == ChunkAt(file, chunkSize, c.index)
  }

  /** Writing a true chunk keeps the length bound, puts the chunk on disk, and spoils nothing. */
  lemma {:induction false} WriteTrueChunk(disk: seq<byte>, file: seq<byte>, chunkSize: nat, c: Chunk)
    requires TrueChunk(c, file, chunkSize) && |disk| <= |file|
    ensures var r := WriteAt(disk, c.index * chunkSize, c.data);
            && |r| <= |file|
            && |disk| <= |r|
            && Holds(r, file, chunkSize, c.index)
            && (forall size, i :: Holds(disk, file, size, i) ==> Holds(r, file, size, i))
            && (disk == file ==> r == file)
  {
    var offset := c.index * chunkSize;
    TrueBytes(file, chunkSize, c);
    WriteTrueBytes(disk, file, offset, c.data);
    HoldsWhereAgrees(disk, WriteAt(disk, offset, c.data), file);
  }

  lemma HoldsWhereAgrees(disk: seq<byte>, r: seq<byte>, file: seq<byte>)
    requires forall lo, hi :: Agrees(disk, file, lo, hi) ==> Agrees(r, file, lo, hi)
    ensures forall size, i :: Holds(disk, file, size, i) ==> Holds(r, file, size, i)
  {
  }

  lemma TrueBytes(file: seq<byte>, chunkSize: nat, c: Chunk)
    requires TrueChunk(c, file, chunkSize)
    ensures |c.data| == ChunkLen(|file|, chunkSize, c.index) > 0 && c.index * chunkSize + |c.data| <= |file|
    ensures c.data == file[c.index * chunkSize..c.index * chunkSize + |c.data|]
  {
    ChunkBounds(|file|, chunkSize, c.index);
  }

  /** The same for any stretch of the source's bytes. */
  lemma WriteTrueBytes(disk: seq<byte>, file: seq<byte>, offset: nat, data: seq<byte>)
    requires |disk| <= |file| && data != [] && offset + |data| <= |file| && data == file[offset..offset + |data|]
    ensures var r := WriteAt(disk, offset, data);
            && |disk| <= |r| <= |file|
            && Agrees(r, file, offset, offset + |data|)
            && (forall lo, hi :: Agrees(disk, file, lo, hi) ==> Agrees(r, file, lo, hi))
            && (disk == file ==> r == file)
  {
    WriteAtBytes(disk, offset, data);
    var r := WriteAt(disk, offset, data);
    forall p | offset <= p < offset + |data|
      ensures r[p] == file[p]
    {
      assert r[p] == data[p - offset];
    }
  }

  lemma Quotient(p: nat, chunkSize: nat)
    requires chunkSize > 0
    ensures p / chunkSize * chunkSize <= p < p / chunkSize * chunkSize + chunkSize
  {
    assert p == p / chunkSize * chunkSize + p % chunkSize;
  }

  /** All chunks on disk and nothing past the end: the disk is the file. */
  lemma AllHeldIsFile(disk: seq<byte>, file: seq<byte>, chunkSize: nat)
    requires chunkSize > 0 && |disk| <= |file|
    requires forall i :: 0 <= i < ChunkCount(|file|, chunkSize) ==> Holds(disk, file, chunkSize, i)
    ensures disk == file
  {
    var n := ChunkCount(|file|, chunkSize);
    if |file| > 0 {
      InRange(|file|, chunkSize, 0);
      ChunkBounds(|file|, chunkSize, n - 1);
      assert Holds(disk, file, chunkSize, n - 1);
    }
    forall p | 0 <= p < |file|
      ensures disk[p] == file[p]
    {
      var i := p / chunkSize;
      Quotient(p, chunkSize);
      InRange(|file|, chunkSize, i);
      assert Holds(disk, file, chunkSize, i);
    }
  }

  ghost predicate HasIndex(chunks: seq<Chunk>, i: nat) {
    exists k :: 0 <= k < |chunks| && chunks[k].index == i
  }

  /** True chunks covering every index, in any order, over any leftover no longer than the file,
      leave exactly the file. */
  lemma {:induction false} Reassembles(disk: seq<byte>, file: seq<byte>, chunkSize: nat, chunks: seq<Chunk>)
    requires chunkSize > 0 && |disk| <= |file|
    requires forall k :: 0 <= k < |chunks| ==> TrueChunk(chunks[k], file, chunkSize)
    requires forall i :: 0 <= i < ChunkCount(|file|, chunkSize) ==> HasIndex(chunks, i)
    ensures WriteAll(disk, chunkSize, chunks) == file
  {
    WrittenAreHeld(disk, file, chunkSize, chunks);
    var r := WriteAll(disk, chunkSize, chunks);
    forall i | 0 <= i < ChunkCount(|file|, chunkSize)
      ensures Holds(r, file, chunkSize, i)
    {
      assert HasIndex(chunks, i);
      var k :| 0 <= k < |chunks| && chunks[k].index == i;
      assert Holds(r, file, chunkSize, chunks[k].index);
    }
    AllHeldIsFile(r, file, chunkSize);
  }

  lemma {:induction false} WrittenAreHeld(disk: seq<byte>, file: seq<byte>, chunkSize: nat, chunks: seq<Chunk>)
    requires |disk| <= |file|
    requires forall k :: 0 <= k < |chunks| ==> TrueChunk(chunks[k], file, chunkSize)
    ensures var r := WriteAll(disk, chunkSize, chunks);
            |r| <= |file| && forall k :: 0 <= k < |chunks| ==> Holds(r, file, chunkSize, chunks[k].index)
  {
    if chunks != [] {
      var init := chunks[..|chunks| - 1];
      WrittenAreHeld(disk, file, chunkSize, init);
      WriteTrueChunk(WriteAll(disk, chunkSize, init), file, chunkSize, chunks[|chunks| - 1]);
      var r := WriteAll(disk, chunkSize, chunks);
      forall k | 0 <= k < |chunks|
        ensures Holds(r, file, chunkSize, chunks[k].index)
      {
        if k < |init| {
          assert Holds(WriteAll(disk, chunkSize, init), file, chunkSize, init[k].index);
        }
      }
    }
  }

  // ----- what nothing is written over -----

  /** Writing needed chunks over `base` leaves the bytes of the others as they were, or zero past its end. */
  ghost predicate Untouched(file: seq<byte>, chunkSize: nat, needed: set<nat>, base: seq<byte>, bytes: seq<byte>)
    requires chunkSize > 0
  {
    && |base| <= |bytes|
    && forall p: nat :: p < |bytes| ==>
         && (p / chunkSize in needed || bytes[p] == if p < |base| then base[p] else 0)
         && (p < |base| || Beneath(chunkSize, needed, p))
  }

  /** A needed chunk is at position `p` or behind it. */
  ghost predicate Beneath(chunkSize: nat, needed: set<nat>, p: nat)
    requires chunkSize > 0
  {
    exists x :: x in needed && p / chunkSize <= x
  }

  /** Every byte that no needed chunk brings is right in the leftover; past its end a zero is, where a later chunk
      has the gap filled. */
  ghost predicate ClaimsHold(file: seq<byte>, chunkSize: nat, needed: set<nat>, base: seq<byte>)
    requires chunkSize > 0
  {
    forall p: nat :: p < |file| && p / chunkSize !in needed ==>
      if p < |base| then base[p] == file[p]
      else file[p] == 0 && Beneath(chunkSize, needed, p)
  }

  lemma BeforeChunk(p: nat, chunkSize: nat, x: nat)
    requires chunkSize > 0
    ensures p / chunkSize < x <==> p < x * chunkSize
  {
    Quotient(p, chunkSize);
    if p / chunkSize < x {
      MulGap(p / chunkSize, x, chunkSize);
    } else if x < p / chunkSize {
      MulGap(x, p / chunkSize, chunkSize);
    }
  }

  lemma ChunkOf(size: nat, chunkSize: nat, x: nat, p: nat)
    requires chunkSize > 0 && x < ChunkCount(size, chunkSize)
    ensures x * chunkSize <= p < x * chunkSize + ChunkLen(size, chunkSize, x) <==> p < size && p / chunkSize == x
  {
    BeforeChunk(p, chunkSize, x);
    BeforeChunk(p, chunkSize, x + 1);
    assert (x + 1) * chunkSize == x * chunkSize + chunkSize;
    ChunkBounds(size, chunkSize, x);
  }

  lemma WriteUntouched(file: seq<byte>, chunkSize: nat, needed: set<nat>, base: seq<byte>, bytes: seq<byte>, c: Chunk)
    requires chunkSize > 0 && Untouched(file, chunkSize, needed, base, bytes)
    requires TrueChunk(c, file, chunkSize) && c.index in needed
    ensures Untouched(file, chunkSize, needed, base, WriteAt(bytes, c.index * chunkSize, c.data))
  {
    var size, x := |file|, c.index;
    ChunkBounds(size, chunkSize, x);
    WriteAtBytes(bytes, x * chunkSize, c.data);
    var r := WriteAt(bytes, x * chunkSize, c.data);
    forall p: nat | p < |r|
      ensures p / chunkSize in needed || r[p] == if p < |base| then base[p] else 0
      ensures p < |base| || Beneath(chunkSize, needed, p)
    {
      ChunkOf(size, chunkSize, x, p);
      if p < |bytes| {
        assert p / chunkSize == x || r[p] == bytes[p];
      } else {
        BeforeChunk(p, chunkSize, x + 1);
        assert (x + 1) * chunkSize == x * chunkSize + chunkSize;
        assert p / chunkSize <= x;
      }
    }
  }

  /** Writing any true bytes makes nothing that is right wrong. */
  lemma WriteClaims(file: seq<byte>, chunkSize: nat, needed: set<nat>, bytes: seq<byte>, offset: nat, data: seq<byte>)
    requires chunkSize > 0 && |bytes| <= |file| && ClaimsHold(file, chunkSize, needed, bytes)
    requires data != [] && offset + |data| <= |file| && data == file[offset..offset + |data|]
    ensures ClaimsHold(file, chunkSize, needed, WriteAt(bytes, offset, data))
  {
    WriteAtBytes(bytes, offset, data);
    var r := WriteAt(bytes, offset, data);
    forall p: nat | p < |file| && p / chunkSize !in needed && p < |r|
      ensures r[p] == file[p]
    {
      if offset <= p < offset + |data| {
        assert r[p] == data[p - offset];
      }
    }
  }

  /** With all needed chunks written the bytes are the source's exactly when the claims hold. */
  lemma WrittenIff(file: seq<byte>, chunkSize: nat, needed: set<nat>, base: seq<byte>, bytes: seq<byte>)
    requires chunkSize > 0 && Untouched(file, chunkSize, needed, base, bytes)
    requires |bytes| <= |file|
    requires forall x :: x in needed ==> Holds(bytes, file, chunkSize, x)
    ensures bytes == file <==> ClaimsHold(file, chunkSize, needed, base)
  {
    if ClaimsHold(file, chunkSize, needed, base) {
      forall i | 0 <= i < ChunkCount(|file|, chunkSize)
        ensures Holds(bytes, file, chunkSize, i)
      {
        if i !in needed {
          UnneededHeld(file, chunkSize, needed, base, bytes, i);
        }
      }
      AllHeldIsFile(bytes, file, chunkSize);
    }
  }

  lemma UnneededByte(file: seq<byte>, chunkSize: nat, needed: set<nat>, base: seq<byte>, bytes: seq<byte>, p: nat)
    requires chunkSize > 0 && Untouched(file, chunkSize, needed, base, bytes)
    requires forall x :: x in needed ==> Holds(bytes, file, chunkSize, x)
    requires ClaimsHold(file, chunkSize, needed, base)
    requires p < |file| && p / chunkSize !in needed
    ensures p < |bytes| && bytes[p] == file[p]
  {
    if p >= |base| {
      assert Beneath(chunkSize, needed, p);
      var x :| x in needed && p / chunkSize <= x;
      BeforeChunk(p, chunkSize, x);
      assert Holds(bytes, file, chunkSize, x);
    }
  }

  lemma UnneededHeld(file: seq<byte>, chunkSize: nat, needed: set<nat>, base: seq<byte>, bytes: seq<byte>, i: nat)
    requires chunkSize > 0 && Untouched(file, chunkSize, needed, base, bytes)
    requires forall x :: x in needed ==> Holds(bytes, file, chunkSize, x)
    requires ClaimsHold(file, chunkSize, needed, base)
    requires i < ChunkCount(|file|, chunkSize) && i !in needed
    ensures Holds(bytes, file, chunkSize, i)
  {
    var size := |file|;
    ChunkBounds(size, chunkSize, i);
    var end := i * chunkSize + ChunkLen(size, chunkSize, i);
    ChunkOf(size, chunkSize, i, end - 1);
    UnneededByte(file, chunkSize, needed, base, bytes, end - 1);
    forall p: nat | i * chunkSize <= p < end
      ensures bytes[p] == file[p]
    {
      ChunkOf(size, chunkSize, i, p);
      UnneededByte(file, chunkSize, needed, base, bytes, p);
    }
  }

  /** In particular they do if every chunk that is not needed lies in the leftover. */
  lemma UnneededHeldHold(file: seq<byte>, chunkSize: nat, needed: set<nat>, base: seq<byte>)
    requires chunkSize > 0
    requires forall x: nat :: x < ChunkCount(|file|, chunkSize) && x !in needed ==> Holds(base, file, chunkSize, x)
    ensures ClaimsHold(file, chunkSize, needed, base)
  {
    forall p: nat | p < |file| && p / chunkSize !in needed
      ensures p < |base| && base[p] == file[p]
    {
      Quotient(p, chunkSize);
      InRange(|file|, chunkSize, p / chunkSize);
      ChunkOf(|file|, chunkSize, p / chunkSize, p);
      assert Holds(base, file, chunkSize, p / chunkSize);
    }
  }

  /** But they need not: a chunk of zeros before a missing one comes right out of nothing. */
  lemma ZerosHold()
    ensures !Holds([], [0, 1], 1, 0) && ClaimsHold([0, 1], 1, {1}, [])
    ensures WriteAll([], 1, [Chunk(1, [1])]) == [0, 1]
  {
    assert Beneath(1, {1}, 0);
    ChunkBounds(2, 1, 0);
  }

  lemma {:induction false} WrittenUntouched(file: seq<byte>, chunkSize: nat, needed: set<nat>, base: seq<byte>,
        chunks: seq<Chunk>)
    requires chunkSize > 0
    requires forall k :: 0 <= k < |chunks| ==> TrueChunk(chunks[k], file, chunkSize) && chunks[k].index in needed
    ensures Untouched(file, chunkSize, needed, base, WriteAll(base, chunkSize, chunks))
  {
    if chunks != [] {
      var init := chunks[..|chunks| - 1];
      WrittenUntouched(file, chunkSize, needed, base, init);
      WriteUntouched(file, chunkSize, needed, base, WriteAll(base, chunkSize, init), chunks[|chunks| - 1]);
    }
  }

  /** True chunks with just the needed indices, over any leftover no longer than the file, leave the file exactly when
      the leftover is right everywhere else. */
  lemma ReassemblesIff(disk: seq<byte>, file: seq<byte>, chunkSize: nat, needed: set<nat>, chunks: seq<Chunk>)
    requires chunkSize > 0 && |disk| <= |file|
    requires forall k :: 0 <= k < |chunks| ==> TrueChunk(chunks[k], file, chunkSize) && chunks[k].index in needed
    requires forall x :: x in needed ==> HasIndex(chunks, x)
    ensures WriteAll(disk, chunkSize, chunks) == file <==> ClaimsHold(file, chunkSize, needed, disk)
  {
    WrittenUntouched(file, chunkSize, needed, disk, chunks);
    WrittenAreHeld(disk, file, chunkSize, chunks);
    var r := WriteAll(disk, chunkSize, chunks);
    forall x | x in needed
      ensures Holds(r, file, chunkSize, x)
    {
      var k :| 0 <= k < |chunks| && chunks[k].index == x;
      assert Holds(r, file, chunkSize, chunks[k].index);
    }
    WrittenIff(file, chunkSize, needed, disk, r);
  }
}
