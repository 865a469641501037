/** The chunk bitmap: which chunk comes next, and what marking one does (core/src/state.rs). */
module Scheduler {
  import opened Prelude
  import opened Chunks

  datatype FileStatus = Pending | InProgress | Complete | Verified | Failed

  datatype FileState = FileState(size: nat, bits: seq<bool>, status: FileStatus)

  type Position = (nat, nat)

  function Fresh(size: nat, chunkSize: nat): FileState
    requires chunkSize > 0
  {
    FileState(size, seq(ChunkCount(size, chunkSize), _ => false), Pending)
  }

  predicate AllSet(bits: seq<bool>) { forall k :: 0 <= k < |bits| ==> bits[k] }

  function StatusAfter(f: FileState, bits: seq<bool>): FileStatus {
    if AllSet(bits) && f.status == InProgress then Complete
    else if f.status == Pending then InProgress
    else f.status
  }

  /** Chunks outside the file, and files outside the transfer, are ignored. */
  function Marked(files: seq<FileState>, i: nat, c: nat): seq<FileState> {
    if i < |files| && c < |files[i].bits| then
      var bits := files[i].bits[c := true];
      files[i := files[i].(bits := bits, status := StatusAfter(files[i], bits))]
    else files
  }

  predicate IsOpen(f: FileState) { f.status == Pending || f.status == InProgress }

  /** The first clear bit from `k` on. */
  function FirstClear(bits: seq<bool>, k: nat): Option<nat>
    requires k <= |bits|
    decreases |bits| - k
  {
    if k == |bits| then None else if !bits[k] then Some(k) else FirstClear(bits, k + 1)
  }

  function NextFrom(files: seq<FileState>, i: nat): Option<Position>
    requires i <= |files|
    decreases |files| - i
  {
    if i == |files| then None
    else if IsOpen(files[i]) && FirstClear(files[i].bits, 0).Some? then Some((i, FirstClear(files[i].bits, 0).value))
    else NextFrom(files, i + 1)
  }

  class TransferState {
    var files: seq<FileState>
    var transferredBytes: nat
    const totalBytes: nat

    constructor (sizes: seq<nat>, chunkSize: nat)
      requires chunkSize > 0
      ensures files == FreshFiles(sizes, chunkSize) && transferredBytes == 0 && totalBytes == Sum(sizes)
    {
      totalBytes, transferredBytes := Sum(sizes), 0;
      files := FreshFiles(sizes, chunkSize);
    }

    method MarkChunkComplete(fileIndex: nat, chunkIndex: nat, chunkSize: nat)
      modifies this
      ensures files == Marked(old(files), fileIndex, chunkIndex)
      ensures transferredBytes == old(transferredBytes) +
                if fileIndex < |old(files)| && chunkIndex < |old(files)[fileIndex].bits| then chunkSize else 0
    {
      if fileIndex < |files| {
        var file := files[fileIndex];
        if chunkIndex < |file.bits| {
          file := file.(bits := file.bits[chunkIndex := true]);
          transferredBytes := transferredBytes + chunkSize;
          if AllSet(file.bits) && file.status == InProgress {
            file := file.(status := Complete);
          } else if file.status == Pending {
            file := file.(status := InProgress);
          }
          files := files[fileIndex := file];
        }
      }
    }

    method NextChunk() returns (r: Option<Position>)
      ensures r == NextFrom(files, 0)
    {
      for i := 0 to |files|
        invariant NextFrom(files, 0) == NextFrom(files, i)
      {
        if IsOpen(files[i]) {
          var bits := files[i].bits;
          var k := 0;
          while k < |bits| && bits[k]
            invariant 0 <= k <= |bits| && FirstClear(bits, 0) == FirstClear(bits, k)
          {
            k := k + 1;
          }
          if k < |bits| {
            return Some((i, k));
          }
        }
      }
      r := None;
    }
  }

  function FreshFiles(sizes: seq<nat>, chunkSize: nat): (files: seq<FileState>)
    requires chunkSize > 0
    ensures |files| == |sizes|
  {
    seq(|sizes|, i requires 0 <= i < |sizes| => Fresh(sizes[i], chunkSize))
  }

  // ----- what is left -----

  /** What new files have and marking keeps: a file that is complete has every bit set. */
  predicate Sane(f: FileState) { IsOpen(f) || (f.status == Complete && AllSet(f.bits)) }

  predicate AllSane(files: seq<FileState>) { forall i :: 0 <= i < |files| ==> Sane(files[i]) }

  lemma MarkingKeepsSane(files: seq<FileState>, i: nat, c: nat)
    requires AllSane(files)
    ensures AllSane(Marked(files, i, c))
  {
  }

  /** The clear bits of file `i` from `k` on, in order. */
  function ClearBits(bits: seq<bool>, i: nat, k: nat): seq<Position>
    requires k <= |bits|
    decreases |bits| - k
  {
    if k == |bits| then []
    else if bits[k] then ClearBits(bits, i, k + 1)
    else [(i, k)] + ClearBits(bits, i, k + 1)
  }

  /** The chunks still to do, in order of file and chunk. */
  function Left(files: seq<FileState>, i: nat): seq<Position>
    requires i <= |files|
    decreases |files| - i
  {
    if i == |files| then [] else ClearBits(files[i].bits, i, 0) + Left(files, i + 1)
  }

  predicate Before(a: Position, b: Position) { a.0 < b.0 || (a.0 == b.0 && a.1 < b.1) }

  ghost predicate Lexicographic(s: seq<Position>) {
    forall m, n :: 0 <= m < n < |s| ==> Before(s[m], s[n])
  }

  lemma {:induction false} ClearBitsAre(bits: seq<bool>, i: nat, k: nat)
    requires k <= |bits|
    ensures Lexicographic(ClearBits(bits, i, k))
    ensures forall p :: p in ClearBits(bits, i, k) <==> p.0 == i && k <= p.1 < |bits| && !bits[p.1]
    decreases |bits| - k
  {
    if k < |bits| {
      ClearBitsAre(bits, i, k + 1);
      if bits[k] {
        SetBitsSkip(bits, i, k);
      } else {
        var rest := ClearBits(bits, i, k + 1);
        assert ClearBits(bits, i, k) == [(i, k)] + rest;
        PrependLeast((i, k), rest);
      }
    }
  }

  lemma PrependLeast(p: Position, rest: seq<Position>)
    requires Lexicographic(rest) && forall q :: q in rest ==> Before(p, q)
    ensures Lexicographic([p] + rest) && forall q :: q in [p] + rest <==> q == p || q in rest
  {
    forall m, n | 0 <= m < n < |[p] + rest|
      ensures Before(([p] + rest)[m], ([p] + rest)[n])
    {
      assert rest[n - 1] in rest;
    }
  }

  /** The list is what its name says: exactly the chunks not set, each once, lexicographically. */
  lemma {:induction false} LeftIsTheRest(files: seq<FileState>, i: nat)
    requires i <= |files|
    ensures Lexicographic(Left(files, i))
    ensures forall p :: p in Left(files, i) <==> i <= p.0 < |files| && p.1 < |files[p.0].bits| && !files[p.0].bits[p.1]
    decreases |files| - i
  {
    if i < |files| {
      ClearBitsAre(files[i].bits, i, 0);
      LeftIsTheRest(files, i + 1);
      var here, later := ClearBits(files[i].bits, i, 0), Left(files, i + 1);
      forall m, n | 0 <= m < n < |here + later|
        ensures Before((here + later)[m], (here + later)[n])
      {
        assert m < |here| <= n ==> here[m] in here && later[n - |here|] in later;
      }
    }
  }

  lemma {:induction false} FirstClearIsHead(bits: seq<bool>, i: nat, k: nat)
    requires k <= |bits|
    ensures match FirstClear(bits, k)
            case None => ClearBits(bits, i, k) == []
            case Some(c) => k <= c < |bits| && !bits[c]
                            && ClearBits(bits, i, k) == [(i, c)] + ClearBits(bits[c := true], i, k)
    decreases |bits| - k
  {
    if k < |bits| && bits[k] {
      FirstClearIsHead(bits, i, k + 1);
      SetBitsSkip(bits, i, k);
      if FirstClear(bits, k + 1).Some? {
        SetBitsSkip(bits[FirstClear(bits, k + 1).value := true], i, k);
      }
    } else if k < |bits| {
      SetBitsSkip(bits[k := true], i, k);
      SameClearBits(bits, bits[k := true], i, k + 1);
    }
  }

  lemma SetBitsSkip(bits: seq<bool>, i: nat, k: nat)
    requires k < |bits| && bits[k]
    ensures ClearBits(bits, i, k) == ClearBits(bits, i, k + 1)
  {
  }

  lemma {:induction false} SameClearBits(a: seq<bool>, b: seq<bool>, i: nat, k: nat)
    requires k <= |a| == |b| && forall j :: k <= j < |a| ==> a[j] == b[j]
    ensures ClearBits(a, i, k) == ClearBits(b, i, k)
    decreases |a| - k
  {
    if k < |a| {
      SameClearBits(a, b, i, k + 1);
    }
  }

  lemma {:induction false} SameLeft(a: seq<FileState>, b: seq<FileState>, i: nat)
    requires i <= |a| == |b| && forall j :: i <= j < |a| ==> a[j].bits == b[j].bits
    ensures Left(a, i) == Left(b, i)
    decreases |a| - i
  {
    if i < |a| {
      SameLeft(a, b, i + 1);
    }
  }

  /** `next_chunk` is the first of the chunks left, or nothing when none is; marking it leaves the others. */
  lemma {:induction false} NextIsHead(files: seq<FileState>, i: nat)
    requires AllSane(files) && i <= |files|
    ensures match NextFrom(files, i)
            case None => Left(files, i) == []
            case Some((j, c)) => i <= j < |files| && c < |files[j].bits| && !files[j].bits[c]
                                 && Left(files, i) == [(j, c)] + Left(Marked(files, j, c), i)
    decreases |files| - i
  {
    if i < |files| {
      if IsOpen(files[i]) && FirstClear(files[i].bits, 0).Some? {
        OpenFileIsHead(files, i);
      } else {
        NothingInFile(files[i], i);
        NextIsHead(files, i + 1);
        if NextFrom(files, i + 1).Some? {
          var (j, c) := NextFrom(files, i + 1).value;
          MarkedBits(files, j, c);
          SkipFile(files, i);
          SkipFile(Marked(files, j, c), i);
        }
      }
    }
  }

  lemma OpenFileIsHead(files: seq<FileState>, i: nat)
    requires i < |files| && FirstClear(files[i].bits, 0).Some?
    ensures var c := FirstClear(files[i].bits, 0).value;
            && c < |files[i].bits| && !files[i].bits[c]
            && Left(files, i) == [(i, c)] + Left(Marked(files, i, c), i)
  {
    var c := FirstClear(files[i].bits, 0).value;
    FirstClearIsHead(files[i].bits, i, 0);
    MarkedBits(files, i, c);
    SameLeft(files, Marked(files, i, c), i + 1);
    PrependOne((i, c), ClearBits(files[i].bits[c := true], i, 0), Left(files, i + 1));
  }

  lemma MarkedBits(files: seq<FileState>, j: nat, c: nat)
    requires j < |files| && c < |files[j].bits|
    ensures var m := Marked(files, j, c);
            && |m| == |files| && m[j].bits == files[j].bits[c := true]
            && forall i :: 0 <= i < |files| && i != j ==> m[i] == files[i]
  {
  }

  lemma PrependOne(p: Position, a: seq<Position>, b: seq<Position>)
    ensures ([p] + a) + b == [p] + (a + b)
  {
  }

  lemma SkipFile(files: seq<FileState>, i: nat)
    requires i < |files| && ClearBits(files[i].bits, i, 0) == []
    ensures Left(files, i) == Left(files, i + 1)
  {
  }

  lemma NothingInFile(f: FileState, i: nat)
    requires Sane(f) && !(IsOpen(f) && FirstClear(f.bits, 0).Some?)
    ensures ClearBits(f.bits, i, 0) == []
  {
    FirstClearIsHead(f.bits, i, 0);
  }

  /** Nothing is next exactly when every bit of every file is set. */
  lemma NextIsNoneIff(files: seq<FileState>)
    requires AllSane(files)
    ensures NextFrom(files, 0) == None <==> forall i :: 0 <= i < |files| ==> AllSet(files[i].bits)
  {
    NextIsHead(files, 0);
    LeftIsTheRest(files, 0);
    if NextFrom(files, 0) == None {
      forall i, k | 0 <= i < |files| && 0 <= k < |files[i].bits|
        ensures files[i].bits[k]
      {
        assert (i, k) !in Left(files, 0);
      }
    }
  }

  // ----- doing them all -----

  /** Mark what is next, with its true length, until nothing is: the order, the files and the bytes counted. */
  function Drained(files: seq<FileState>, chunkSize: nat, bytes: nat): (seq<Position>, seq<FileState>, nat)
    requires AllSane(files)
    decreases |Left(files, 0)|
  {
    NextIsHead(files, 0);
    match NextFrom(files, 0)
    case None => ([], files, bytes)
    case Some((i, c)) =>
      MarkingKeepsSane(files, i, c);
      var (order, after, total) := Drained(Marked(files, i, c), chunkSize, bytes + ChunkLen(files[i].size, chunkSize, c));
      ([(i, c)] + order, after, total)
  }

  function Lens(positions: seq<Position>, sizes: seq<nat>, chunkSize: nat): nat {
    if positions == [] then 0
    else (if positions[0].0 < |sizes| then ChunkLen(sizes[positions[0].0], chunkSize, positions[0].1) else 0)
         + Lens(positions[1..], sizes, chunkSize)
  }

  lemma {:induction false} DrainedIsLeft(files: seq<FileState>, sizes: seq<nat>, chunkSize: nat, bytes: nat)
    requires AllSane(files) && |files| == |sizes| && forall i :: 0 <= i < |files| ==> files[i].size == sizes[i]
    ensures var (order, after, total) := Drained(files, chunkSize, bytes);
            && order == Left(files, 0) && total == bytes + Lens(order, sizes, chunkSize)
            && AllSane(after) && NextFrom(after, 0) == None
    decreases |Left(files, 0)|
  {
    NextIsHead(files, 0);
    if NextFrom(files, 0).Some? {
      var (i, c) := NextFrom(files, 0).value;
      MarkingKeepsSane(files, i, c);
      DrainedIsLeft(Marked(files, i, c), sizes, chunkSize, bytes + ChunkLen(files[i].size, chunkSize, c));
      assert Left(files, 0)[1..] == Left(Marked(files, i, c), 0);
    }
  }

  lemma {:induction false} LensAppend(a: seq<Position>, b: seq<Position>, sizes: seq<nat>, chunkSize: nat)
    ensures Lens(a + b, sizes, chunkSize) == Lens(a, sizes, chunkSize) + Lens(b, sizes, chunkSize)
  {
    if a == [] {
      assert a + b == b;
    } else {
      LensAppend(a[1..], b, sizes, chunkSize);
      assert (a + b)[1..] == a[1..] + b;
    }
  }

  /** The chunks of a file add up to the file. */
  lemma {:induction false} FileAddsUp(sizes: seq<nat>, chunkSize: nat, i: nat, k: nat)
    requires chunkSize > 0 && i < |sizes| && k <= ChunkCount(sizes[i], chunkSize)
    ensures Lens(ClearBits(Fresh(sizes[i], chunkSize).bits, i, k), sizes, chunkSize)
            == if k == ChunkCount(sizes[i], chunkSize) then 0 else sizes[i] - k * chunkSize
    decreases ChunkCount(sizes[i], chunkSize) - k
  {
    if k < ChunkCount(sizes[i], chunkSize) {
      var bits := Fresh(sizes[i], chunkSize).bits;
      ChunkBounds(sizes[i], chunkSize, k);
      FileAddsUp(sizes, chunkSize, i, k + 1);
      assert ClearBits(bits, i, k)[1..] == ClearBits(bits, i, k + 1);
      assert (k + 1) * chunkSize == k * chunkSize + chunkSize;
    }
  }

  function BytesFrom(sizes: seq<nat>, i: nat): nat
    requires i <= |sizes|
    decreases |sizes| - i
  {
    if i == |sizes| then 0 else sizes[i] + BytesFrom(sizes, i + 1)
  }

  lemma {:induction false} TransferAddsUp(sizes: seq<nat>, chunkSize: nat, i: nat)
    requires chunkSize > 0 && i <= |sizes|
    ensures Lens(Left(FreshFiles(sizes, chunkSize), i), sizes, chunkSize) == BytesFrom(sizes, i)
    decreases |sizes| - i
  {
    if i < |sizes| {
      TransferAddsUp(sizes, chunkSize, i + 1);
      FileAddsUp(sizes, chunkSize, i, 0);
      LensAppend(ClearBits(Fresh(sizes[i], chunkSize).bits, i, 0), Left(FreshFiles(sizes, chunkSize), i + 1), sizes, chunkSize);
    }
  }

  lemma {:induction false} TotalIsSum(sizes: seq<nat>, i: nat)
    requires i <= |sizes|
    ensures Sum(sizes[..i]) + BytesFrom(sizes, i) == Sum(sizes)
    decreases |sizes| - i
  {
    if i == |sizes| {
      assert sizes[..i] == sizes;
    } else {
      TotalIsSum(sizes, i + 1);
      assert sizes[..i + 1][..i] == sizes[..i];
    }
  }

  /** From a new transfer, marking what is next until nothing is visits every chunk of every file exactly once, in
      lexicographic order, leaves every bit set, and counts exactly the transfer's bytes. */
  lemma SchedulesEverything(sizes: seq<nat>, chunkSize: nat)
    requires chunkSize > 0
    ensures var (order, after, bytes) := Drained(FreshFiles(sizes, chunkSize), chunkSize, 0);
            && Lexicographic(order)
            && (forall p :: p in order <==> p.0 < |sizes| && p.1 < ChunkCount(sizes[p.0], chunkSize))
            && (forall i :: 0 <= i < |after| ==> AllSet(after[i].bits)) && NextFrom(after, 0) == None
            && bytes == Sum(sizes)
  {
    var files := FreshFiles(sizes, chunkSize);
    DrainedIsLeft(files, sizes, chunkSize, 0);
    LeftIsTheRest(files, 0);
    NextIsNoneIff(Drained(files, chunkSize, 0).1);
    TransferAddsUp(sizes, chunkSize, 0);
    TotalIsSum(sizes, 0);
  }

  // ----- the status label -----

  /** What the label says of the bits: a file of one chunk never gets beyond `InProgress`. */
  predicate LabelOk(f: FileState) {
    if forall k :: 0 <= k < |f.bits| ==> !f.bits[k] then f.status == Pending
    else if AllSet(f.bits) && |f.bits| >= 2 then f.status == Complete
    else f.status == InProgress
  }

  ghost predicate AllLabelled(files: seq<FileState>) {
    forall j :: 0 <= j < |files| ==> LabelOk(files[j])
  }

  ghost predicate SameShape(a: seq<FileState>, b: seq<FileState>) {
    |a| == |b| && forall j :: 0 <= j < |a| ==> |a[j].bits| == |b[j].bits|
  }

  lemma MarkingKeepsLabels(files: seq<FileState>, i: nat, c: nat)
    requires AllLabelled(files) && i < |files| && c < |files[i].bits| && !files[i].bits[c]
    ensures AllLabelled(Marked(files, i, c)) && SameShape(files, Marked(files, i, c))
  {
    var f := Marked(files, i, c)[i];
    assert f.bits[c];
    assert LabelOk(files[i]);
    if |f.bits| >= 2 {
      var other := if c == 0 then 1 else 0;
      assert f.bits[other] == files[i].bits[other];
    }
  }

  lemma DrainedNext(files: seq<FileState>, chunkSize: nat, bytes: nat, i: nat, c: nat)
    requires AllSane(files) && AllSane(Marked(files, i, c)) && NextFrom(files, 0) == Some((i, c)) && i < |files|
    ensures Drained(files, chunkSize, bytes).1
            == Drained(Marked(files, i, c), chunkSize, bytes + ChunkLen(files[i].size, chunkSize, c)).1
  {
  }

  lemma {:induction false} DrainedLabels(files: seq<FileState>, chunkSize: nat, bytes: nat)
    requires AllSane(files) && AllLabelled(files)
    ensures AllLabelled(Drained(files, chunkSize, bytes).1) && SameShape(files, Drained(files, chunkSize, bytes).1)
    decreases |Left(files, 0)|
  {
    NextIsHead(files, 0);
    if NextFrom(files, 0).Some? {
      var (i, c) := NextFrom(files, 0).value;
      var next, more := Marked(files, i, c), bytes + ChunkLen(files[i].size, chunkSize, c);
      MarkingKeepsSane(files, i, c);
      MarkingKeepsLabels(files, i, c);
      DrainedLabels(next, chunkSize, more);
      DrainedNext(files, chunkSize, bytes, i, c);
      SameShapeTwice(files, next, Drained(next, chunkSize, more).1);
    }
  }

  lemma SameShapeTwice(a: seq<FileState>, b: seq<FileState>, c: seq<FileState>)
    requires SameShape(a, b) && SameShape(b, c)
    ensures SameShape(a, c)
  {
  }

  /** When everything is marked a file is labelled complete exactly if it has at least two chunks. */
  lemma CompletesIff(sizes: seq<nat>, chunkSize: nat, i: nat)
    requires chunkSize > 0 && i < |sizes|
    ensures var after := Drained(FreshFiles(sizes, chunkSize), chunkSize, 0).1;
            |after| == |sizes| && (after[i].status == Complete <==> ChunkCount(sizes[i], chunkSize) >= 2)
  {
    DrainedLabels(FreshFiles(sizes, chunkSize), chunkSize, 0);
    SchedulesEverything(sizes, chunkSize);
    var f := Drained(FreshFiles(sizes, chunkSize), chunkSize, 0).1[i];
    assert LabelOk(f) && AllSet(f.bits);
    if |f.bits| > 0 {
      assert f.bits[0];
    }
  }
}
