/** How a session that nothing interrupts ends, from any start: it arrives exactly when what its bitmap claims is right
    and no writer left over from an aborted session is about to rename one of its files. */
module TransferOutcome {
  import opened Coverage
  import opened TransferModel
  import opened TransferDisk
  import opened TransferInvariant
  import opened TransferSafety
  import opened TransferProgress
  import opened TransferResume

  /** What the session's bitmap claims of its first file is right in that file's partial. */
  ghost predicate ClaimsRight(w: World, s: State)
    requires s.chunkSize > 0
  {
    var todo := Todo(w, s.manifest);
    todo != [] ==>
      ClaimsHold(w.files[todo[0]], s.chunkSize, Needed(w, s.manifest, s.chunkSize, todo[0]), PartialOf(w, s.disk, todo[0]))
  }

  lemma TrustedClaims(w: World, s: State)
    requires Inv(w, s) && w.trusted && s.rcv.pc.RAwaitInfo?
    ensures ClaimsRight(w, s)
  {
    var todo := Todo(w, s.manifest);
    if todo != [] {
      forall x: nat | Claimed(w, s.manifest, s.chunkSize, todo[0], x)
        ensures Holds(PartialOf(w, s.disk, todo[0]), w.files[todo[0]], s.chunkSize, x)
      {
        assert Relied(w, s.manifest, s.chunkSize, todo[0], x);
        assert HeldOn(w, s.disk, s.disk.partial[todo[0]], s.chunkSize, x);
      }
      HeldClaimsHold(w, s.chunkSize, s.manifest, todo[0], PartialOf(w, s.disk, todo[0]));
    }
  }

  /** The receiver has reported, or is about to report, a checksum of the first file that is not the source's. */
  ghost predicate Wrong(w: World, s: State) {
    && s.chunkSize > 0 && Todo(w, s.manifest) != []
    && match s.rcv.pc
       case RSendSum(t, digest) => t == 0 && digest != w.hash(w.files[Todo(w, s.manifest)[0]])
       case RAwaitSum(t, digest) => t == 0 && digest != w.hash(w.files[Todo(w, s.manifest)[0]])
       case _ => false
  }

  lemma WrongStays(w: World, s: State, a: Action)
    requires Wrong(w, s) && s.rcv.manifest == s.manifest && Enabled(w, s, a) && PeerAction(a) && ReceiverAlive(Apply(w, s, a))
    requires s.rcv.pc.RAwaitSum? ==> ToReceiverInv(w, s.manifest, 1, s.net.s2r)
    ensures Wrong(w, Apply(w, s, a))
  {
    if a == ByReceiver(GetRSum) {
      GetRSumReads(w, s.manifest, 0, s.net.s2r);
    }
  }

  /** Then one of the two sides fails in the end, over the comparison. */
  lemma {:induction false} WrongEnds(w: World, s: State) returns (run: seq<Action>, z: State)
    requires Running(w, s) && Wrong(w, s)
    ensures SessionRun(w, s, run, z) && !(SenderAlive(z) && ReceiverAlive(z))
    decreases Measure(w, s)
  {
    MeasureNat(w, s);
    var a := NoDeadlock(w, s);
    var y := Apply(w, s, a);
    if SenderAlive(y) && ReceiverAlive(y) {
      PeerProgress(w, s, a);
      WrongStays(w, s, a);
      run, z := WrongEnds(w, y);
    } else {
      run, z := [], y;
    }
    RunsThen(w, s, a, run, z);
    run := [a] + run;
  }

  lemma WrongFails(w: World, s: State) returns (run: seq<Action>, z: State)
    requires Running(w, s) && s.rcv.pc.RAwaitInfo? && !ClaimsRight(w, s)
    ensures SessionRun(w, s, run, z) && !(SenderAlive(z) && ReceiverAlive(z))
  {
    if w.trusted {
      TrustedClaims(w, s);
    }
    var head, m := RunToRename(w, s, 0);
    FinalizedIff(w, s, head, m);
    var y := Apply(w, m, ByReceiver(FinalizeLive));
    PeerProgress(w, m, ByReceiver(FinalizeLive));
    run, z := WrongEnds(w, y);
    RunsThen(w, m, ByReceiver(FinalizeLive), run, z);
    RunsJoin(w, s, head, m, [ByReceiver(FinalizeLive)] + run, z);
    run := head + ([ByReceiver(FinalizeLive)] + run);
  }

  /** Any session about to begin, with a state file or without: all its uninterrupted runs arrive exactly when what it
      claims is right and no leftover writer is about to rename one of its files. */
  lemma SessionArrivesIff(w: World, s: State)
    requires Running(w, s) && s.rcv.pc.RAwaitInfo?
    ensures AlwaysArrives(w, s) <==> ClaimsRight(w, s) && forall k :: 0 <= k < |s.stragglers| ==> !Clashes(w, s, k)
  {
    if ClaimsRight(w, s) {
      assert s.net.r2s == [];
      ArrivesIff(w, s);
    } else {
      var run, z := WrongFails(w, s);
    }
  }

  /** Any first session: exactly when what it claims is right. */
  lemma StartArrivesIff(w: World, s: State)
    requires Init(w, s) && Workable(w, s.chunkSize)
    ensures AlwaysArrives(w, s) <==> ClaimsRight(w, s)
  {
    InitInv(w, s);
    SessionArrivesIff(w, s);
  }

  /** A retried or repeated transfer: with a state file it claims nothing, so its session arrives exactly when no
      writer left over from an earlier one is about to rename a file the sender still has to send; without one, what
      it claims has to be right besides. */
  lemma NextSessionArrivesIff(w: World, s: State, l: LoopAction)
    requires Inv(w, s) && LoopEnabled(w, s, l) && Workable(w, l.chunkSize)
    ensures var z := LoopApply(w, s, l);
            && Running(w, z) && (w.statePath ==> ClaimsRight(w, z))
            && (AlwaysArrives(w, z) <==>
                  && ClaimsRight(w, z)
                  && forall k :: 0 <= k < |z.stragglers| && z.stragglers[k].finalize ==> z.stragglers[k].file in z.snd.completed)
  {
    var z := LoopApply(w, s, l);
    LoopKeeps(w, s, l);
    SessionArrivesIff(w, z);
    TodoFacts(w, z.manifest);
    forall k | 0 <= k < |z.stragglers|
      ensures Clashes(w, z, k) <==> z.stragglers[k].finalize && z.stragglers[k].file !in z.snd.completed
    {
      assert GoodWriter(w, z.disk, z.stragglers[k]);
    }
    if w.statePath && Todo(w, z.manifest) != [] {
      ClearedClaims(w, s, l);
    }
  }

  lemma ClearedClaims(w: World, s: State, l: LoopAction)
    requires Inv(w, s) && LoopEnabled(w, s, l) && w.statePath
    ensures ClaimsRight(w, LoopApply(w, s, l))
  {
    var z := LoopApply(w, s, l);
    var todo := Todo(w, z.manifest);
    assert z.manifest.resume.None?;
    if todo != [] {
      HeldClaimsHold(w, z.chunkSize, z.manifest, todo[0], PartialOf(w, z.disk, todo[0]));
    }
  }

  /** Both peers fail while the receiver is about to rename its first file; the writer task goes on. */
  lemma BreakOff(w: World, s: State) returns (run: seq<Action>, z: State)
    requires Running(w, s) && AboutToRename(s, 0)
    ensures Reaches(w, s, run, z) && Inv(w, z) && z.snd.pc == SFailed(true) && z.rcv.pc.RFailed?
    ensures z.snd.attempt == s.snd.attempt && z.stragglers == s.stragglers + [s.rcv.pc.writer]
    ensures s.rcv.pc.writer.finalize && z.snd.completed == s.manifest.completed && z.chunkSize == s.chunkSize
    ensures Todo(w, s.manifest) != [] && s.rcv.pc.writer.file == Todo(w, s.manifest)[0]
  {
    var a, b := ByReceiver(ReceiverFails(0)), BySender(SenderFails(true));
    NoneDoneYet(w, s);
    var y := Apply(w, s, a);
    ReceiverKeeps(w, s, ReceiverFails(0));
    SenderKeeps(w, y, SenderFails(true));
    z := Apply(w, y, b);
    assert Reaches(w, z, [], z);
    ReachesThen(w, y, b, [], z);
    ReachesThen(w, s, a, [b] + [], z);
    run := [a] + ([b] + []);
  }

  /** The session has completed no file yet. */
  lemma NoneDoneYet(w: World, s: State)
    requires Running(w, s) && AboutToRename(s, 0)
    ensures !s.snd.pc.SDone? && s.snd.completed == s.manifest.completed
    ensures Todo(w, s.manifest) != [] && s.rcv.pc.writer.file == Todo(w, s.manifest)[0] && s.rcv.pc.writer.finalize
  {
    assert Todo(w, s.manifest)[..0] == [];
  }

  /** Any transfer can be broken off there. */
  lemma StartBroken(w: World, s: State) returns (broken: seq<Action>, y: State)
    requires Init(w, s) && Workable(w, s.chunkSize) && Todo(w, s.manifest) != []
    ensures Reaches(w, s, broken, y) && Inv(w, y) && y.snd.pc == SFailed(true) && y.rcv.pc.RFailed?
    ensures y.snd.attempt == s.snd.attempt && y.chunkSize == s.chunkSize && y.snd.completed == s.manifest.completed
    ensures y.stragglers != [] && y.stragglers[|y.stragglers| - 1].finalize
    ensures y.stragglers[|y.stragglers| - 1].file == Todo(w, s.manifest)[0]
  {
    InitInv(w, s);
    var m, head, tail;
    head, m := RunToRename(w, s, 0);
    tail, y := BreakOff(w, m);
    ReachesJoin(w, s, head, m, tail, y);
    broken := head + tail;
  }

  /** Such a writer does occur: any transfer that may be retried can be broken off there, and then the retried
      session can fail with nothing interrupting it. */
  lemma LeftoverRenameFails(w: World, s: State) returns (broken: seq<Action>, y: State, run: seq<Action>, z: State)
    requires Init(w, s) && Workable(w, s.chunkSize) && Todo(w, s.manifest) != [] && w.ShouldRetry(s.snd.attempt)
    ensures Reaches(w, s, broken, y) && Enabled(w, y, ByLoop(Retry(s.chunkSize)))
    ensures SessionRun(w, Apply(w, y, ByLoop(Retry(s.chunkSize))), run, z) && z.rcv.pc.RFailed?
  {
    broken, y := StartBroken(w, s);
    var next := Apply(w, y, ByLoop(Retry(s.chunkSize)));
    NextSessionArrivesIff(w, y, Retry(s.chunkSize));
    assert Todo(w, next.manifest) == Todo(w, s.manifest);
    run, z := ClashFails(w, next, |next.stragglers| - 1, 0);
  }
}
