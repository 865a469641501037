/** The state a folder transfer keeps across sessions, and the retry loop that carries it
    (core/src/transfer_folder.rs, core/src/session.rs). */
module FolderState {
  import opened Prelude
  import opened FileSending
  import opened StreamAgreement
  import opened TransferModel

  /** The sizes of these files, each counted as often as it is listed; an index outside the transfer counts nothing. */
  function BytesOf(sizes: seq<nat>, indices: seq<nat>): nat {
    if indices == [] then 0
    else BytesOf(sizes, indices[..|indices| - 1])
         + if indices[|indices| - 1] < |sizes| then sizes[indices[|indices| - 1]] else 0
  }

  /** The chunks of file `f` among these marks, in the order of marking. */
  function MarkedOf(marks: seq<(nat, nat)>, f: nat): seq<nat> {
    if marks == [] then []
    else MarkedOf(marks[..|marks| - 1], f)
         + if marks[|marks| - 1].0 == f then [marks[|marks| - 1].1] else []
  }

  function NextOf(total: nat, completed: set<nat>): Option<nat> {
    var todo := Missing(total, completed, 0);
    if todo == [] then None else Some(todo[0])
  }

  class FolderTransferState {
    const sizes: seq<nat>
    const totalBytes: nat
    var completedFiles: seq<nat>
    var transferredBytes: nat
    var fileChunks: map<nat, seq<nat>>
    /** Every chunk marked since the bitmaps were last cleared: file and chunk, in order. */
    ghost var marks: seq<(nat, nat)>

    /** No file is listed twice, the byte count is theirs, and the bitmaps hold what was marked. */
    ghost predicate Valid()
      reads this
    {
      && Distinct(completedFiles) && transferredBytes == BytesOf(sizes, completedFiles) && totalBytes == Sum(sizes)
      && forall f :: BitmapOf(fileChunks, f) == MarkedOf(marks, f)
    }

    ghost function Done(): set<nat>
      reads this`completedFiles
    {
      AsSet(completedFiles)
    }

    constructor (sizes: seq<nat>)
      ensures Valid() && this.sizes == sizes && Done() == {} && marks == []
    {
      this.sizes, totalBytes := sizes, Sum(sizes);
      completedFiles, transferredBytes, fileChunks, marks := [], 0, map[], [];
    }

    method MarkChunkComplete(fileIndex: nat, chunkIndex: nat)
      requires Valid()
      modifies this`fileChunks, this`marks
      ensures Valid() && marks == old(marks) + [(fileIndex, chunkIndex)]
    {
      var chunks := if fileIndex in fileChunks then fileChunks[fileIndex] else [];
      fileChunks := fileChunks[fileIndex := chunks + [chunkIndex]];
      marks := marks + [(fileIndex, chunkIndex)];
      assert marks[..|marks| - 1] == old(marks);
    }

    /** The chunks of the file marked since the bitmaps were cleared, and no others. */
    method GetCompletedChunks(fileIndex: nat) returns (chunks: seq<nat>)
      requires Valid()
      ensures chunks == MarkedOf(marks, fileIndex)
      ensures forall c :: c in chunks <==> (fileIndex, c) in marks
    {
      chunks := if fileIndex in fileChunks then fileChunks[fileIndex] else [];
      assert chunks == BitmapOf(fileChunks, fileIndex);
      MarkedIff(marks, fileIndex);
    }

    /** Marking a file twice counts it once. */
    method MarkFileComplete(fileIndex: nat)
      requires Valid()
      modifies this`completedFiles, this`transferredBytes
      ensures Valid() && Done() == old(Done()) + {fileIndex}
      ensures completedFiles == old(completedFiles) + if fileIndex in old(completedFiles) then [] else [fileIndex]
    {
      if fileIndex !in completedFiles {
        completedFiles := completedFiles + [fileIndex];
        assert completedFiles[..|completedFiles| - 1] == old(completedFiles);
        if fileIndex < |sizes| {
          transferredBytes := transferredBytes + sizes[fileIndex];
        }
      }
    }

    method ClearChunkBitmaps()
      requires Valid()
      modifies this`fileChunks, this`marks
      ensures Valid() && marks == [] && fileChunks == map[]
    {
      fileChunks, marks := map[], [];
    }

    /** The first file that is not complete. */
    method NextFile() returns (r: Option<nat>)
      ensures r == NextOf(|sizes|, Done())
      ensures r.Some? ==> r.value < |sizes| && r.value !in Done() && forall i :: 0 <= i < r.value ==> i in Done()
      ensures r.None? ==> forall i :: 0 <= i < |sizes| ==> i in Done()
    {
      for i := 0 to |sizes|
        invariant Missing(|sizes|, Done(), 0) == Missing(|sizes|, Done(), i)
        invariant forall j :: 0 <= j < i ==> j in Done()
      {
        if i !in completedFiles {
          return Some(i);
        }
      }
      r := None;
    }

    /** A comparison of counts: it means that all is done exactly as far as no index outside the transfer has been
        marked, for as many strays as files missing make up for them. */
    method IsComplete() returns (r: bool)
      requires Valid()
      ensures r <==> |Strays(|sizes|, Done())| == |Missing(|sizes|, Done(), 0)|
      ensures Strays(|sizes|, Done()) == {} ==> (r <==> NextOf(|sizes|, Done()) == None)
      ensures transferredBytes + BytesOf(sizes, Missing(|sizes|, Done(), 0)) == totalBytes
    {
      r := |completedFiles| == |sizes|;
      CompleteIff(sizes, completedFiles);
    }
  }

  lemma {:induction false} MarkedIff(marks: seq<(nat, nat)>, f: nat)
    ensures forall c :: c in MarkedOf(marks, f) <==> (f, c) in marks
  {
    if marks != [] {
      MarkedIff(marks[..|marks| - 1], f);
      assert marks == marks[..|marks| - 1] + [marks[|marks| - 1]];
    }
  }

  /** ... in the order of marking. */
  lemma {:induction false} MarkedInOrder(a: seq<(nat, nat)>, b: seq<(nat, nat)>, f: nat, c: nat)
    ensures MarkedOf(a + b, f) == MarkedOf(a, f) + MarkedOf(b, f)
    ensures MarkedOf([(f, c)], f) == [c]
    decreases |b|
  {
    assert [(f, c)][..0] == [];
    if b == [] {
      assert a + b == a && MarkedOf(a, f) + [] == MarkedOf(a, f);
    } else {
      MarkedInOrder(a, b[..|b| - 1], f, c);
      assert (a + b)[..|a + b| - 1] == a + b[..|b| - 1];
    }
  }

  // ----- what the counts mean -----

  /** Completed indices that name no file of the transfer. */
  function Strays(total: nat, completed: set<nat>): set<nat> {
    set i | i in completed && i >= total
  }

  /** Distinct indices below `n`: at most `n` of them, and if there are `n` their sizes add up to everything. */
  lemma {:induction false} DistinctBelow(sizes: seq<nat>, indices: seq<nat>, n: nat)
    requires Distinct(indices) && n <= |sizes| && forall k :: 0 <= k < |indices| ==> indices[k] < n
    ensures |indices| <= n && BytesOf(sizes, indices) <= Sum(sizes[..n])
    ensures |indices| == n <==> forall i :: 0 <= i < n ==> i in indices
    ensures |indices| == n ==> BytesOf(sizes, indices) == Sum(sizes[..n])
    decreases n
  {
    assert |indices| > 0 ==> indices[0] < n;
    if n > 0 {
      assert sizes[..n][..n - 1] == sizes[..n - 1];
      if n - 1 in indices {
        var k :| 0 <= k < |indices| && indices[k] == n - 1;
        RestIsBelow(indices, k);
        DistinctBelow(sizes, indices[..k] + indices[k + 1..], n - 1);
        WithoutOne(sizes, indices, k);
      } else {
        DistinctBelow(sizes, indices, n - 1);
      }
    }
  }

  lemma RestIsBelow(indices: seq<nat>, k: nat)
    requires Distinct(indices) && k < |indices| && forall j :: 0 <= j < |indices| ==> indices[j] <= indices[k]
    ensures var rest := indices[..k] + indices[k + 1..];
            && Distinct(rest) && (forall j :: 0 <= j < |rest| ==> rest[j] < indices[k])
            && (forall i :: i in indices <==> i == indices[k] || i in rest)
  {
    var rest := indices[..k] + indices[k + 1..];
    assert forall j :: 0 <= j < |rest| ==> rest[j] == indices[if j < k then j else j + 1];
    forall i | i in indices && i != indices[k]
      ensures i in rest
    {
      var j :| 0 <= j < |indices| && indices[j] == i;
      assert rest[if j < k then j else j - 1] == i;
    }
  }

  lemma {:induction false} WithoutOne(sizes: seq<nat>, indices: seq<nat>, k: nat)
    requires k < |indices| && indices[k] < |sizes|
    ensures BytesOf(sizes, indices) == BytesOf(sizes, indices[..k] + indices[k + 1..]) + sizes[indices[k]]
    decreases |indices|
  {
    var n := |indices| - 1;
    var rest := indices[..k] + indices[k + 1..];
    if k == n {
      assert rest == indices[..n];
    } else {
      WithoutOne(sizes, indices[..n], k);
      assert rest[..n - 1] == indices[..n][..k] + indices[..n][k + 1..];
      assert rest[n - 1] == indices[n];
    }
  }

  /** The indices below `n`, in order. */
  function Within(indices: seq<nat>, n: nat): seq<nat> {
    if indices == [] then []
    else Within(indices[..|indices| - 1], n)
         + if indices[|indices| - 1] < n then [indices[|indices| - 1]] else []
  }

  lemma {:induction false} WithinBytes(sizes: seq<nat>, indices: seq<nat>)
    ensures BytesOf(sizes, Within(indices, |sizes|)) == BytesOf(sizes, indices)
    decreases |indices|
  {
    if indices != [] {
      var init, last := indices[..|indices| - 1], indices[|indices| - 1];
      WithinBytes(sizes, init);
      if last < |sizes| {
        BytesOfSnoc(sizes, Within(init, |sizes|), last);
      } else {
        assert Within(init, |sizes|) + [] == Within(init, |sizes|);
      }
    }
  }

  lemma BytesOfSnoc(sizes: seq<nat>, indices: seq<nat>, x: nat)
    requires x < |sizes|
    ensures BytesOf(sizes, indices + [x]) == BytesOf(sizes, indices) + sizes[x]
  {
    assert (indices + [x])[..|indices|] == indices;
  }

  lemma {:induction false} WithinMembers(indices: seq<nat>, n: nat)
    ensures forall x :: x in Within(indices, n) <==> x in indices && x < n
    ensures Distinct(indices) ==> Distinct(Within(indices, n))
    decreases |indices|
  {
    if indices != [] {
      var init, last := indices[..|indices| - 1], indices[|indices| - 1];
      WithinMembers(init, n);
      assert indices == init + [last];
      assert Distinct(indices) ==> last !in init;
    }
  }

  lemma {:induction false} BytesOfAppend(sizes: seq<nat>, a: seq<nat>, b: seq<nat>)
    ensures BytesOf(sizes, a + b) == BytesOf(sizes, a) + BytesOf(sizes, b)
    decreases |b|
  {
    if b == [] {
      assert a + b == a;
    } else {
      BytesOfAppend(sizes, a, b[..|b| - 1]);
      assert (a + b)[..|a + b| - 1] == a + b[..|b| - 1];
    }
  }

  /** What has been counted and what the missing files hold add up to the transfer, whatever has been marked. */
  lemma CountedAndMissing(sizes: seq<nat>, completed: seq<nat>)
    requires Distinct(completed)
    ensures BytesOf(sizes, completed) + BytesOf(sizes, Missing(|sizes|, AsSet(completed), 0)) == Sum(sizes)
  {
    var n := |sizes|;
    var todo := Missing(n, AsSet(completed), 0);
    WithinBytes(sizes, completed);
    BytesOfAppend(sizes, Within(completed, n), todo);
    EachIsCountedOrMissing(n, completed);
    DistinctBelow(sizes, Within(completed, n) + todo, n);
    assert sizes[..n] == sizes;
  }

  lemma EachIsCountedOrMissing(n: nat, completed: seq<nat>)
    requires Distinct(completed)
    ensures var all := Within(completed, n) + Missing(n, AsSet(completed), 0);
            && Distinct(all) && (forall k :: 0 <= k < |all| ==> all[k] < n)
            && forall i :: 0 <= i < n ==> i in all
  {
    var counted, todo := Within(completed, n), Missing(n, AsSet(completed), 0);
    WithinMembers(completed, n);
    MissingFacts(n, AsSet(completed), 0);
    assert forall k :: 0 <= k < |counted| ==> counted[k] in counted;
    assert forall k :: 0 <= k < |todo| ==> todo[k] in todo;
  }

  /** The counts are equal exactly when as many strays have been marked as files are missing: with none, exactly
      when no file is next, and then exactly the transfer's bytes have been counted. */
  lemma CompleteIff(sizes: seq<nat>, completed: seq<nat>)
    requires Distinct(completed)
    ensures var total, done := |sizes|, AsSet(completed);
            && (|completed| == total <==> |Strays(total, done)| == |Missing(total, done, 0)|)
            && (Strays(total, done) == {} ==> (|completed| == total <==> NextOf(total, done) == None))
            && BytesOf(sizes, completed) + BytesOf(sizes, Missing(total, done, 0)) == Sum(sizes)
  {
    var total, done := |sizes|, AsSet(completed);
    CountedAndMissing(sizes, completed);
    MissingFacts(total, done, 0);
    DistinctSize(completed);
    assert done == Strays(total, done) + set x | x in done && 0 <= x < total;
  }

  /** A stray index can make an unfinished transfer look complete. */
  lemma StrayIndexLooksComplete()
    ensures var sizes, completed := [10, 20], [0, 7];
            && Distinct(completed) && |completed| == |sizes|
            && NextOf(|sizes|, AsSet(completed)) == Some(1) && BytesOf(sizes, completed) + 20 == Sum(sizes)
  {
    var sizes, completed := [10, 20], [0, 7];
    CompleteIff(sizes, completed);
    assert Missing(2, AsSet(completed), 0) == Missing(2, AsSet(completed), 1) == [1] + Missing(2, AsSet(completed), 2);
    assert BytesOf(sizes, [1]) == BytesOf(sizes, []) + 20;
  }

  // ----- the retry loop -----

  /** What one call of `send` does to the state, and how it ends; an error says whether it is recoverable. */
  datatype Session = Session(chunks: seq<(nat, nat)>, files: seq<nat>, result: Result<(), bool>)

  /** What session `k + 1` finds marked, session `k` having found `before`. */
  function MarksAfter(before: seq<(nat, nat)>, hasStatePath: bool, session: Session): seq<(nat, nat)> {
    if hasStatePath && session.result.Err? then [] else before + session.chunks
  }

  ghost predicate Logged(starts: seq<seq<(nat, nat)>>, hasStatePath: bool, sessions: seq<Session>, n: nat) {
    |starts| == n + 1 && n <= |sessions|
    && forall k :: 0 <= k < n ==> starts[k + 1] == MarksAfter(starts[k], hasStatePath, sessions[k])
  }

  /** Session `k` has marked file `i`. */
  predicate Marks(sessions: seq<Session>, k: nat, i: nat)
    requires k < |sessions|
  {
    i in sessions[k].files
  }

  function FilesOf(sessions: seq<Session>, n: nat): set<nat>
    requires n <= |sessions|
  {
    if n == 0 then {} else FilesOf(sessions, n - 1) + AsSet(sessions[n - 1].files)
  }

  lemma {:induction false} FilesAreMarked(sessions: seq<Session>, n: nat)
    requires n <= |sessions|
    ensures forall i :: i in FilesOf(sessions, n) <==> exists k :: 0 <= k < n && Marks(sessions, k, i)
  {
    if n > 0 {
      FilesAreMarked(sessions, n - 1);
      forall i
        ensures i in FilesOf(sessions, n) <==> i in FilesOf(sessions, n - 1) || Marks(sessions, n - 1, i)
      {
      }
    }
  }

  lemma FilesSnoc(done: set<nat>, sessions: seq<Session>, n: nat)
    requires n < |sessions|
    ensures done + FilesOf(sessions, n) + AsSet(sessions[n].files) == done + FilesOf(sessions, n + 1)
  {
  }

  lemma LoggedSnoc(starts: seq<seq<(nat, nat)>>, hasStatePath: bool, sessions: seq<Session>, n: nat, marks: seq<(nat, nat)>)
    requires n < |sessions| && Logged(starts, hasStatePath, sessions, n)
    requires marks == MarksAfter(starts[n], hasStatePath, sessions[n])
    ensures Logged(starts + [marks], hasStatePath, sessions, n + 1)
  {
  }

  method RunSession(session: Session, state: FolderTransferState)
    requires state.Valid()
    modifies state
    ensures state.Valid() && state.Done() == old(state.Done()) + AsSet(session.files)
    ensures state.marks == old(state.marks) + session.chunks
  {
    MarkChunks(session.chunks, state);
    MarkFiles(session.files, state);
  }

  method MarkChunks(chunks: seq<(nat, nat)>, state: FolderTransferState)
    requires state.Valid()
    modifies state`fileChunks, state`marks
    ensures state.Valid() && state.marks == old(state.marks) + chunks
  {
    for n := 0 to |chunks|
      invariant state.Valid() && state.marks == old(state.marks) + chunks[..n]
    {
      state.MarkChunkComplete(chunks[n].0, chunks[n].1);
      assert chunks[..n + 1] == chunks[..n] + [chunks[n]];
    }
    assert chunks[..|chunks|] == chunks;
  }

  method MarkFiles(files: seq<nat>, state: FolderTransferState)
    requires state.Valid()
    modifies state`completedFiles, state`transferredBytes
    ensures state.Valid() && state.Done() == old(state.Done()) + AsSet(files)
  {
    ghost var done := state.Done();
    for n := 0 to |files|
      invariant state.Valid() && state.Done() == done + AsSet(files[..n])
    {
      state.MarkFileComplete(files[n]);
      AsSetSnoc(files, n);
    }
    assert files[..|files|] == files;
  }

  lemma AsSetSnoc(files: seq<nat>, n: nat)
    requires n < |files|
    ensures AsSet(files[..n + 1]) == AsSet(files[..n]) + {files[n]}
  {
    assert files[..n + 1] == files[..n] + [files[n]];
  }

  /** One turn of the loop: the session, and after an error the bitmaps cleared if there is a state file. */
  method Attempt(hasStatePath: bool, session: Session, state: FolderTransferState)
    requires state.Valid()
    modifies state
    ensures state.Valid() && state.Done() == old(state.Done()) + AsSet(session.files)
    ensures state.marks == MarksAfter(old(state.marks), hasStatePath, session)
  {
    RunSession(session, state);
    if session.result.Err? && hasStatePath {
      state.ClearChunkBitmaps();
    }
  }

  /** `sessions` are the sessions as they would turn out, one after the other; `starts` logs the marked chunks each
      of those that took place began with, and what is marked in the end. The answer is missing when the list ends
      before the loop does. Every session but the last failed recoverably; one that did is the last only if its error
      used up the attempts. A later session finds nothing marked if there is a state file, and whatever the sessions
      before it flushed if there is none. */
  method SendPath(w: World, hasStatePath: bool, sessions: seq<Session>, state: FolderTransferState)
    returns (r: Option<Result<(), bool>>, ran: nat, ghost starts: seq<seq<(nat, nat)>>)
    requires state.Valid()
    modifies state
    ensures ran <= |sessions| && (w.maxAttempts > 0 ==> ran <= w.maxAttempts)
    ensures forall k :: 0 <= k < ran - 1 ==> sessions[k].result == Err(true)
    ensures r.Some? ==> ran > 0 && r.value == sessions[ran - 1].result
    ensures r == Some(Err(true)) ==> w.maxAttempts > 0 && ran == w.maxAttempts
    ensures r.None? ==> ran == |sessions| && forall k :: 0 <= k < ran ==> sessions[k].result == Err(true)
    ensures r.None? && w.maxAttempts > 0 ==> ran < w.maxAttempts
    ensures state.Valid()
    ensures forall i :: i in state.Done() <==>
              i in old(state.Done()) || exists k :: 0 <= k < ran && Marks(sessions, k, i)
    ensures |starts| == ran + 1 && starts[0] == old(state.marks) && starts[ran] == state.marks
    ensures forall k :: 0 <= k < ran && sessions[k].result.Err? && hasStatePath ==> starts[k + 1] == []
    ensures forall k :: 0 <= k < ran && (sessions[k].result.Ok? || !hasStatePath) ==>
              starts[k + 1] == starts[k] + sessions[k].chunks
  {
    r, ran, starts := RetryLoop(w, hasStatePath, sessions, state);
    FilesAreMarked(sessions, ran);
  }

  /** How far the loop has come when it stops after `ran` sessions. */
  ghost predicate Stopped(w: World, sessions: seq<Session>, r: Option<Result<(), bool>>, ran: nat) {
    && ran <= |sessions| && (w.maxAttempts > 0 ==> ran <= w.maxAttempts)
    && (forall k :: 0 <= k < ran - 1 ==> sessions[k].result == Err(true))
    && match r
       case None => ran == |sessions| && (w.maxAttempts > 0 ==> ran < w.maxAttempts)
                    && (ran > 0 ==> sessions[ran - 1].result == Err(true))
       case Some(result) => ran > 0 && result == sessions[ran - 1].result
                            && (result == Err(true) ==> w.maxAttempts > 0 && ran == w.maxAttempts)
  }

  ghost predicate Going(w: World, sessions: seq<Session>, ran: nat) {
    && ran <= |sessions| && (w.maxAttempts > 0 ==> ran < w.maxAttempts)
    && forall k :: 0 <= k < ran ==> sessions[k].result == Err(true)
  }

  method RetryLoop(w: World, hasStatePath: bool, sessions: seq<Session>, state: FolderTransferState)
    returns (r: Option<Result<(), bool>>, ran: nat, ghost starts: seq<seq<(nat, nat)>>)
    requires state.Valid()
    modifies state
    ensures Stopped(w, sessions, r, ran) && Logged(starts, hasStatePath, sessions, ran)
    ensures state.Valid() && starts[0] == old(state.marks) && starts[ran] == state.marks
    ensures state.Done() == old(state.Done()) + FilesOf(sessions, ran)
  {
    ran := 0;
    starts := [state.marks];
    ghost var done := state.Done();
    while ran < |sessions|
      invariant Going(w, sessions, ran) && Logged(starts, hasStatePath, sessions, ran)
      invariant state.Valid() && starts[0] == old(state.marks) && starts[ran] == state.marks
      invariant state.Done() == done + FilesOf(sessions, ran)
    {
      Attempt(hasStatePath, sessions[ran], state);
      LoggedSnoc(starts, hasStatePath, sessions, ran, state.marks);
      starts := starts + [state.marks];
      FilesSnoc(done, sessions, ran);
      var attempt := ran;
      ran := ran + 1;
      match sessions[attempt].result
      case Ok(_) => return Some(sessions[attempt].result), ran, starts;
      case Err(recoverable) =>
        if !recoverable || !w.ShouldRetry(attempt) {
          return Some(sessions[attempt].result), ran, starts;
        }
    }
    r := None;
  }
}
