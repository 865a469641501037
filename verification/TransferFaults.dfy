/** What can go wrong in a transfer, and what is done about it: the checks that end a session, the writer an aborted
    session leaves, and how often `send_path` tries again. */
module TransferFaults {
  import opened Prelude
  import opened Chunks
  import opened TransferModel
  import opened TransferInvariant
  import opened TransferSafety

  // ----- interruptions -----

  /** Either side may break off at any moment before its end, and the sender also just after its stream, or its last
      message, got through. */
  lemma MayBreakOff(w: World, s: State, recoverable: bool)
    requires s.chunkSize > 0
    ensures Enabled(w, s, BySender(SenderFails(recoverable))) <==> !s.snd.pc.SFailed? && !s.snd.pc.SDone?
    ensures Enabled(w, s, ByReceiver(ReceiverFails(0))) <==> !s.rcv.pc.RFailed? && !s.rcv.pc.RDone?
    ensures forall n :: Enabled(w, s, BySender(Flush(n))) <==>
              s.snd.pc.SSending? && Enabled(w, s, BySender(FailsAfterWrite(recoverable, n)))
    ensures Enabled(w, s, BySender(SendComplete)) ==> Enabled(w, s, BySender(FailsAfterWrite(recoverable, 0)))
  {
  }

  /** The last of the writers left over from earlier sessions. */
  function LastStraggler(s: State): Writer
    requires s.stragglers != []
  {
    s.stragglers[|s.stragglers| - 1]
  }

  function WritesOf(k: nat, count: nat): seq<Action> { seq(count, i requires 0 <= i < count => ByStraggler(StragglerWrite(k))) }

  /** A receive that fails leaves its writer behind, with as many of the chunks handed to it as it had taken... */
  lemma LeavesItsWriter(w: World, s: State, keep: nat)
    requires Enabled(w, s, ByReceiver(ReceiverFails(keep))) && s.rcv.pc.RReceiving?
    ensures var z, wr := Apply(w, s, ByReceiver(ReceiverFails(keep))), s.rcv.pc.writer;
            && z.rcv.pc.RFailed? && z.disk == s.disk && |z.stragglers| == |s.stragglers| + 1
            && LastStraggler(z) == Writer(wr.file, wr.inode, wr.chunkSize, wr.pending[..keep], wr.finalize)
  {
  }

  /** ... and that writer goes on: whatever session is under way by then, its chunks end up in the file it had open. */
  lemma {:induction false} LeftWriterGoesOn(w: World, s: State, k: nat, count: nat) returns (z: State)
    requires s.chunkSize > 0 && k < |s.stragglers| && count <= |s.stragglers[k].pending|
    requires s.stragglers[k].inode in s.disk.inodes
    ensures Reaches(w, s, WritesOf(k, count), z)
    ensures s.stragglers[k].inode in z.disk.inodes
    ensures z.disk.inodes[s.stragglers[k].inode].bytes
            == WriteAll(s.disk.inodes[s.stragglers[k].inode].bytes, s.stragglers[k].chunkSize, s.stragglers[k].pending[..count])
    ensures z.stragglers == s.stragglers[k := s.stragglers[k].(pending := s.stragglers[k].pending[count..])]
    ensures z.chunkSize == s.chunkSize && z.snd == s.snd && z.rcv == s.rcv && z.net == s.net
  {
    var wr := s.stragglers[k];
    if count == 0 {
      z := s;
      assert wr.pending[0..] == wr.pending;
    } else {
      var y := LeftWriterGoesOn(w, s, k, count - 1);
      var a := ByStraggler(StragglerWrite(k));
      z := Apply(w, y, a);
      Extend(w, s, WritesOf(k, count - 1), y, a);
      assert WritesOf(k, count) == WritesOf(k, count - 1) + [a];
      assert wr.pending[..count][..count - 1] == wr.pending[..count - 1];
    }
  }

  // ----- checks -----

  /** The file has the source's length: the final one if there is one, else the partial. */
  predicate HasLength(w: World, d: Disk, i: nat)
    requires i < |w.files|
  {
    var names := if i in d.final then d.final else d.partial;
    i in names && names[i] in d.inodes && |d.inodes[names[i]].bytes| == |w.files[i]|
  }

  /** The receiver opens its next file exactly if all those before it that the sender called complete are there in
      full length, and the file has at most 2^24 chunks of at most 16 MiB; otherwise the session ends for it. */
  lemma OpensIff(w: World, s: State, node: nat)
    requires Enabled(w, s, ByReceiver(OpenFile(node)))
    ensures var z, i := Apply(w, s, ByReceiver(OpenFile(node))), Todo(w, s.rcv.manifest)[s.rcv.pc.t];
            && (z.rcv.pc.RReceiving? <==>
                  && (forall j: nat :: j in s.rcv.manifest.completed && j < i ==> HasLength(w, s.disk, j))
                  && w.Count(i, s.chunkSize) <= 0x100_0000 && s.chunkSize <= 0x100_0000)
            && (!z.rcv.pc.RReceiving? ==> z.rcv.pc.RFailed? && z.disk == s.disk)
  {
    var i := Todo(w, s.rcv.manifest)[s.rcv.pc.t];
    assert forall j: nat :: j < i ==> Present(w, s.disk, j) == HasLength(w, s.disk, j);
  }

  /** It ends well exactly if, besides, the sender says so and the same holds of all it called complete. */
  lemma EndsWellIff(w: World, s: State)
    requires Enabled(w, s, ByReceiver(GetComplete))
    ensures var z := Apply(w, s, ByReceiver(GetComplete));
            && (z.rcv.pc.RDone? <==>
                  s.net.s2r[0] == Complete && forall j: nat :: j in s.rcv.manifest.completed && j < |w.files| ==> HasLength(w, s.disk, j))
            && (!z.rcv.pc.RDone? ==> z.rcv.pc.RFailed?)
  {
    assert forall j: nat :: j < |w.files| ==> Present(w, s.disk, j) == HasLength(w, s.disk, j);
  }

  /** It takes the offer exactly if there are files, none over a tebibyte. */
  lemma TakesOfferIff(w: World, s: State)
    requires Enabled(w, s, ByReceiver(GetInfo))
    ensures var z := Apply(w, s, ByReceiver(GetInfo));
            && (z.rcv.pc.RSendReady? <==>
                  s.net.s2r[0].TransferInfo? && w.files != [] && forall j :: 0 <= j < |w.files| ==> |w.files[j]| <= 0x100_0000_0000)
            && (z.rcv.pc.RSendReady? ==> z.rcv.manifest == s.net.s2r[0].manifest)
            && (!z.rcv.pc.RSendReady? ==> z.rcv.pc.RFailed?)
  {
  }

  /** Each side goes on after a file exactly if the other reports its own checksum; the sender then marks it, and
      otherwise gives up for good. */
  lemma GoesOnIff(w: World, s: State)
    ensures Enabled(w, s, BySender(GetSum)) ==>
              var z, i := Apply(w, s, BySender(GetSum)), Todo(w, s.manifest)[s.snd.pc.t];
              if s.net.r2s[0].FileChecksum? && s.net.r2s[0].digest == w.hash(w.files[i])
              then z.snd.pc == SNext(s.snd.pc.t + 1) && z.snd.completed == s.snd.completed + {i}
              else z.snd.pc == SFailed(false) && z.snd.completed == s.snd.completed
    ensures Enabled(w, s, ByReceiver(GetRSum)) ==>
              var z, i := Apply(w, s, ByReceiver(GetRSum)), Todo(w, s.rcv.manifest)[s.rcv.pc.t];
              if s.net.s2r[0] == FileChecksum(i, s.rcv.pc.digest) then z.rcv.pc == RNext(s.rcv.pc.t + 1) else z.rcv.pc.RFailed?
  {
  }

  /** Chunk `c` stands at `k`, and none before it has its index. */
  ghost predicate FirstAt(chunks: seq<Chunk>, k: nat, c: Chunk) {
    k < |chunks| && chunks[k] == c && forall j :: 0 <= j < k ==> chunks[j].index != c.index
  }

  ghost predicate IsFirst(chunks: seq<Chunk>, c: Chunk) { exists k: nat :: FirstAt(chunks, k, c) }

  /** Of a stream's chunks the receiver keeps just the first of each index it had not seen. */
  lemma {:induction false} KeepsFirst(seen: set<nat>, chunks: seq<Chunk>)
    ensures forall c :: c in DropSeen(seen, chunks) <==> c.index !in seen && IsFirst(chunks, c)
    ensures Distinct(Idx(DropSeen(seen, chunks)))
  {
    if chunks != [] {
      var init, last := chunks[..|chunks| - 1], chunks[|chunks| - 1];
      KeepsFirst(seen, init);
      FirstOfMore(init, last);
      assert chunks == init + [last];
      KeptAreListed(seen, init);
      if last.index !in seen && last.index !in IndexSet(init) {
        assert Idx(DropSeen(seen, chunks)) == Idx(DropSeen(seen, init)) + [last.index];
      }
    }
  }

  lemma KeptAreListed(seen: set<nat>, chunks: seq<Chunk>)
    requires forall c :: c in DropSeen(seen, chunks) <==> c.index !in seen && IsFirst(chunks, c)
    ensures forall x :: x in Idx(DropSeen(seen, chunks)) ==> x in IndexSet(chunks)
  {
    var kept := DropSeen(seen, chunks);
    forall k | 0 <= k < |kept|
      ensures kept[k].index in IndexSet(chunks)
    {
      assert kept[k] in kept;
      assert IsFirst(chunks, kept[k]);
    }
  }

  lemma FirstOfMore(init: seq<Chunk>, last: Chunk)
    ensures forall c :: IsFirst(init + [last], c) <==> IsFirst(init, c) || (c == last && last.index !in IndexSet(init))
  {
    forall c
      ensures IsFirst(init + [last], c) <==> IsFirst(init, c) || (c == last && last.index !in IndexSet(init))
    {
      if k: nat :| FirstAt(init + [last], k, c) {
        if k < |init| {
          assert forall j :: 0 <= j < k ==> init[j] == (init + [last])[j];
          assert FirstAt(init, k, c);
        } else {
          assert forall j :: 0 <= j < |init| ==> init[j] == (init + [last])[j];
        }
      }
      if k: nat :| FirstAt(init, k, c) {
        assert FirstAt(init + [last], k, c);
      }
      if c == last && last.index !in IndexSet(init) {
        assert FirstAt(init + [last], |init|, c);
      }
    }
  }

  // ----- streams in flight -----

  lemma WindowKeptByStep(w: World, s: State, a: Action)
    requires Enabled(w, s, a) && |s.net.uni| <= w.window
    ensures |Apply(w, s, a).net.uni| <= w.window
  {
  }

  /** The sender never has more streams open than the transport takes. */
  lemma {:induction false} WindowKept(w: World, s: State, run: seq<Action>, z: State)
    requires Reaches(w, s, run, z) && |s.net.uni| <= w.window
    ensures |z.net.uni| <= w.window
    decreases run
  {
    if run != [] {
      WindowKeptByStep(w, s, run[0]);
      WindowKept(w, Apply(w, s, run[0]), run[1..], z);
    }
  }

  // ----- trying again -----

  function Retries(run: seq<Action>): nat {
    if run == [] then 0 else (if run[0].ByLoop? && run[0].l.Retry? then 1 else 0) + Retries(run[1..])
  }

  predicate NoRerun(run: seq<Action>) { forall k :: 0 <= k < |run| ==> !(run[k].ByLoop? && run[k].l.Rerun?) }

  lemma AttemptsOfStep(w: World, s: State, a: Action)
    requires Enabled(w, s, a) && !(a.ByLoop? && a.l.Rerun?)
    ensures Apply(w, s, a).snd.attempt == s.snd.attempt + Retries([a])
    ensures a.ByLoop? ==> s.snd.pc == SFailed(true) && (w.maxAttempts == 0 || s.snd.attempt + 1 < w.maxAttempts)
  {
  }

  /** One `send_path` call starts at most `max_attempts` sessions, its first among them, unless that is zero. */
  lemma {:induction false} RetriesBounded(w: World, s: State, run: seq<Action>, z: State)
    requires Reaches(w, s, run, z) && NoRerun(run)
    ensures z.snd.attempt == s.snd.attempt + Retries(run)
    ensures s.snd.attempt == 0 && w.maxAttempts > 0 ==> 1 + Retries(run) <= w.maxAttempts
    decreases run
  {
    if run != [] {
      AttemptsOfStep(w, s, run[0]);
      assert forall k :: 0 <= k < |run[1..]| ==> run[1..][k] == run[k + 1];
      RetriesBounded(w, Apply(w, s, run[0]), run[1..], z);
      AttemptsBoundedBy(w, s, run, z);
    }
  }

  lemma AttemptsBoundedBy(w: World, s: State, run: seq<Action>, z: State)
    requires Reaches(w, s, run, z)
    ensures w.maxAttempts > 0 && s.snd.attempt < w.maxAttempts ==> z.snd.attempt < w.maxAttempts
  {
    if w.maxAttempts > 0 && s.snd.attempt < w.maxAttempts {
      AttemptsBounded(w, s, run, z);
    }
  }

  /** ... and it does start another one after a recoverable failure while that many are not used up: with what it had
      marked complete, and with its chunk bitmaps unless there is a state file. */
  lemma RetriesIff(w: World, s: State, chunkSize: nat)
    requires s.chunkSize > 0 && chunkSize > 0 && (s.rcv.pc.RFailed? || s.rcv.pc.RDone?)
    ensures Enabled(w, s, ByLoop(Retry(chunkSize))) <==>
              s.snd.pc == SFailed(true) && (w.maxAttempts == 0 || s.snd.attempt + 1 < w.maxAttempts)
    ensures Enabled(w, s, ByLoop(Retry(chunkSize))) ==>
              var z := Apply(w, s, ByLoop(Retry(chunkSize)));
              && z.snd == Sender(SStart, s.snd.completed, s.snd.bitmap, s.snd.attempt + 1)
              && z.rcv.pc == RAwaitInfo && z.net == Net([], [], []) && z.disk == s.disk && z.stragglers == s.stragglers
    ensures !s.snd.pc.SFailed? && !s.snd.pc.SDone? ==>
              var z := Apply(w, s, BySender(SenderFails(true)));
              z.snd.bitmap == (if w.statePath then map[] else s.snd.bitmap) && z.snd.completed == s.snd.completed
  {
  }

  /** A call that has come to an end may be repeated at any time: with what the sender kept, or, anew and also after
      a success, with nothing. */
  lemma RepeatsIff(w: World, s: State, chunkSize: nat, forget: bool)
    requires s.chunkSize > 0 && chunkSize > 0 && (s.rcv.pc.RFailed? || s.rcv.pc.RDone?)
    ensures Enabled(w, s, ByLoop(Rerun(chunkSize, forget))) <==> s.snd.pc.SFailed? || (s.snd.pc.SDone? && forget)
    ensures Enabled(w, s, ByLoop(Rerun(chunkSize, forget))) ==>
              var z := Apply(w, s, ByLoop(Rerun(chunkSize, forget)));
              && z.snd == (if forget then Sender(SStart, {}, map[], 0) else Sender(SStart, s.snd.completed, s.snd.bitmap, 0))
              && z.rcv.pc == RAwaitInfo && z.net == Net([], [], []) && z.disk == s.disk && z.stragglers == s.stragglers
  {
  }
}
