/** A session that nothing interrupts: it never deadlocks, every step brings its end nearer, and it ends with
    both sides done and every file in place; unless a writer left over from an aborted session is about to rename
    a file this one has yet to finish. */
module TransferProgress {
  import opened Prelude
  import opened Chunks
  import opened Coverage
  import opened StreamAgreement
  import opened TransferModel
  import opened TransferDisk
  import opened TransferInvariant
  import opened TransferSafety

  /** Within the receiver's limits, and with room for at least one unread stream. */
  ghost predicate Workable(w: World, chunkSize: nat) {
    && 0 < chunkSize <= MAX_CHUNK_SIZE && w.window > 0 && |w.files| > 0
    && forall i :: 0 <= i < |w.files| ==>
         |w.files[i]| <= MAX_TRANSFER_FILE_SIZE && w.Count(i, chunkSize) <= MAX_CHUNKS_PER_FILE
  }

  /** Nothing has failed: both sides are up, and the partial being received is there. */
  ghost predicate Running(w: World, s: State) {
    && Inv(w, s) && Workable(w, s.chunkSize) && SenderAlive(s) && ReceiverAlive(s)
    && (Live(s) ==> s.rcv.pc.writer.file in s.disk.partial)
  }

  /** A file with these bytes will be the source's once all it needs is written. */
  ghost predicate FileRight(w: World, chunkSize: nat, m: Manifest, file: nat, bytes: seq<byte>)
    requires chunkSize > 0 && file < |w.files|
  {
    w.trusted || ClaimsHold(w.files[file], chunkSize, Needed(w, m, chunkSize, file), bytes)
  }

  ghost predicate StartRight(w: World, chunkSize: nat, m: Manifest, d: Disk)
    requires chunkSize > 0
  {
    var todo := Todo(w, m);
    todo != [] ==> FileRight(w, chunkSize, m, todo[0], PartialOf(w, d, todo[0]))
  }

  ghost predicate ReceiverRight(w: World, chunkSize: nat, m: Manifest, pc: ReceiverPc, d: Disk)
    requires chunkSize > 0 && ReceiverBounds(pc, |Todo(w, m)|)
  {
    var todo := Todo(w, m);
    match pc
    case RAwaitInfo => StartRight(w, chunkSize, m, d)
    case RSendReady => StartRight(w, chunkSize, m, d)
    case RNext(t) => t == 0 ==> StartRight(w, chunkSize, m, d)
    case RReceiving(t, _, wr) => wr.inode in d.inodes ==> FileRight(w, chunkSize, m, todo[t], d.inodes[wr.inode].bytes)
    case RFinalizing(t, wr) => wr.inode in d.inodes ==> FileRight(w, chunkSize, m, todo[t], d.inodes[wr.inode].bytes)
    case RSendSum(t, digest) => digest == w.hash(w.files[todo[t]])
    case RAwaitSum(t, digest) => digest == w.hash(w.files[todo[t]])
    case _ => true
  }

  ghost predicate SumsRight(w: World, r2s: seq<Msg>) {
    forall k :: 0 <= k < |r2s| && r2s[k].FileChecksum? && r2s[k].file < |w.files| ==>
      r2s[k].digest == w.hash(w.files[r2s[k].file])
  }

  /** Every checksum the receiver has reported or will report is the source's. */
  ghost predicate Right(w: World, s: State)
    requires Running(w, s)
  {
    ReceiverRight(w, s.chunkSize, s.manifest, s.rcv.pc, s.disk) && SumsRight(w, s.net.r2s)
  }

  /** Leftover writer `k` is about to rename a file that the session has not renamed yet. */
  ghost predicate Clashes(w: World, s: State, k: nat)
    requires k < |s.stragglers|
  {
    var todo := Todo(w, s.manifest);
    s.stragglers[k].finalize
    && exists t :: FinishedCount(s.rcv.pc, |todo|) <= t < |todo| && todo[t] == s.stragglers[k].file
  }

  ghost predicate OnTrack(w: World, s: State) {
    Running(w, s) && Right(w, s) && forall k :: 0 <= k < |s.stragglers| ==> !Clashes(w, s, k)
  }

  /** The actions of an uninterrupted session. */
  predicate SessionAction(a: Action) {
    match a
    case BySender(x) => !BreaksOff(x)
    case ByReceiver(x) => !x.ReceiverFails?
    case ByLoop(_) => false
    case ByStraggler(_) => true
  }

  predicate PeerAction(a: Action) { SessionAction(a) && !a.ByStraggler? }

  predicate PeersOnly(run: seq<Action>) { forall k :: 0 <= k < |run| ==> PeerAction(run[k]) }

  lemma PeersThen(a: Action, run: seq<Action>)
    requires PeerAction(a) && PeersOnly(run)
    ensures PeersOnly([a] + run)
  {
  }

  // ----- measure -----

  function CountOf(w: World, s: State, k: nat): nat
    requires s.chunkSize > 0 && k < |Todo(w, s.manifest)|
  {
    w.Count(Todo(w, s.manifest)[k], s.chunkSize)
  }

  /** Steps for the files from position `k` on, each costing `per` per chunk and `flat` besides. */
  function Work(w: World, chunkSize: nat, todo: seq<nat>, k: nat, per: nat, flat: nat): nat
    requires chunkSize > 0 && k <= |todo| && forall j :: 0 <= j < |todo| ==> todo[j] < |w.files|
    decreases |todo| - k
  {
    if k == |todo| then 0 else per * w.Count(todo[k], chunkSize) + flat + Work(w, chunkSize, todo, k + 1, per, flat)
  }

  function SenderLeft(w: World, chunkSize: nat, m: Manifest, pc: SenderPc): nat
    requires chunkSize > 0 && SenderBounds(pc, |Todo(w, m)|)
  {
    var todo := Todo(w, m);
    match pc
    case SStart => Work(w, chunkSize, todo, 0, 1, 4) + 3
    case SAwaitReady => Work(w, chunkSize, todo, 0, 1, 4) + 2
    case SNext(t) => Work(w, chunkSize, todo, t, 1, 4) + 1
    case SSending(t, rest) => Work(w, chunkSize, todo, t + 1, 1, 4) + |rest| + 3
    case SAwaitSum(t) => Work(w, chunkSize, todo, t + 1, 1, 4) + 2
    case _ => 0
  }

  function ReceiverLeft(w: World, chunkSize: nat, m: Manifest, pc: ReceiverPc): int
    requires chunkSize > 0 && ReceiverBounds(pc, |Todo(w, m)|)
  {
    var todo := Todo(w, m);
    match pc
    case RAwaitInfo => Work(w, chunkSize, todo, 0, 2, 7) + 3
    case RSendReady => Work(w, chunkSize, todo, 0, 2, 7) + 2
    case RNext(t) => Work(w, chunkSize, todo, t, 2, 7) + 1
    case RReceiving(t, seen, wr) =>
      Work(w, chunkSize, todo, t + 1, 2, 7) + 2 * (w.Count(todo[t], chunkSize) - |seen|) + |wr.pending| + 5
    case RFinalizing(t, wr) => Work(w, chunkSize, todo, t + 1, 2, 7) + |wr.pending| + 4
    case RSendSum(t, _) => Work(w, chunkSize, todo, t + 1, 2, 7) + 3
    case RAwaitSum(t, _) => Work(w, chunkSize, todo, t + 1, 2, 7) + 2
    case _ => 0
  }

  function Leftover(stragglers: seq<Writer>): nat {
    if stragglers == [] then 0
    else Leftover(stragglers[..|stragglers| - 1]) + |stragglers[|stragglers| - 1].pending| + 1
  }

  predicate Bounded(w: World, s: State) {
    s.chunkSize > 0 && SenderBounds(s.snd.pc, |Todo(w, s.manifest)|) && ReceiverBounds(s.rcv.pc, |Todo(w, s.manifest)|)
  }

  function Measure(w: World, s: State): int
    requires Bounded(w, s)
  {
    SenderLeft(w, s.chunkSize, s.manifest, s.snd.pc) + ReceiverLeft(w, s.chunkSize, s.manifest, s.rcv.pc)
      + Leftover(s.stragglers)
  }

  lemma SeenBelowCount(w: World, chunkSize: nat, m: Manifest, file: nat, seen: set<nat>)
    requires chunkSize > 0 && file < |w.files| && seen <= Needed(w, m, chunkSize, file)
    ensures |seen| <= |Needed(w, m, chunkSize, file)| <= w.Count(file, chunkSize)
  {
    SubsetSize(seen, Needed(w, m, chunkSize, file));
    NeededSize(w, m, chunkSize, file);
  }

  lemma MeasureNat(w: World, s: State)
    requires Inv(w, s) && ReceiverAlive(s)
    ensures Bounded(w, s) && Measure(w, s) >= 0
  {
    if s.rcv.pc.RReceiving? {
      SeenBelowCount(w, s.chunkSize, s.manifest, Todo(w, s.manifest)[s.rcv.pc.t], s.rcv.pc.seen);
    }
  }

  lemma {:induction false} LeftoverSplit(a: seq<Writer>, b: seq<Writer>)
    ensures Leftover(a + b) == Leftover(a) + Leftover(b)
  {
    if b == [] {
      assert a + b == a;
    } else {
      LeftoverSplit(a, b[..|b| - 1]);
      assert (a + b)[..|a + b| - 1] == a + b[..|b| - 1];
    }
  }

  // ----- every step makes progress and nothing goes wrong -----

  lemma SenderStaysUp(w: World, s: State, a: SenderAction)
    requires Running(w, s) && SenderEnabled(w, s, a) && !BreaksOff(a) && !a.GetSum?
    ensures SenderAlive(SenderApply(w, s, a))
  {
    if a.GetReady? {
      ToSenderPop(w, s.manifest, 0, s.net.r2s, s.disk);
    }
  }

  /** No checksum of the receiver's makes the sender fail, and it reports no other. */
  lemma SenderStaysRight(w: World, s: State, a: SenderAction)
    requires Running(w, s) && Right(w, s) && SenderEnabled(w, s, a) && !BreaksOff(a)
    ensures SenderAlive(SenderApply(w, s, a))
    ensures SumsRight(w, SenderApply(w, s, a).net.r2s)
  {
    if a.GetSum? {
      GetSumOutcome(w, s);
    } else {
      SenderStaysUp(w, s, a);
    }
  }

  lemma SenderLeftFalls(w: World, s: State, a: SenderAction)
    requires Bounded(w, s) && SenderEnabled(w, s, a) && SenderAlive(SenderApply(w, s, a))
    ensures var z := SenderApply(w, s, a);
            && SenderBounds(z.snd.pc, |Todo(w, s.manifest)|)
            && SenderLeft(w, s.chunkSize, s.manifest, z.snd.pc) < SenderLeft(w, s.chunkSize, s.manifest, s.snd.pc)
  {
    match a
    case StartFile =>
      var file := Todo(w, s.manifest)[s.snd.pc.t];
      MissingOf(w.Count(file, s.chunkSize), BitmapOf(s.snd.bitmap, file));
    case _ =>
  }

  lemma SenderProgress(w: World, s: State, a: SenderAction)
    requires Running(w, s) && SenderEnabled(w, s, a) && SenderAlive(SenderApply(w, s, a))
    ensures var z := SenderApply(w, s, a);
            Running(w, z) && Measure(w, z) < Measure(w, s)
  {
    SenderKeeps(w, s, a);
    SenderLeftFalls(w, s, a);
  }

  lemma AllPresent(w: World, s: State, bound: nat)
    requires Inv(w, s)
    ensures SkippedPresent(w, s.disk, s.manifest, bound)
  {
    forall i | i in s.manifest.completed && i < bound
      ensures Present(w, s.disk, i)
    {
      assert Finished(w, s.disk, i);
    }
  }

  /** In a running session the receiver's checks all pass, but for its comparison of checksums. */
  lemma ReceiverStaysUp(w: World, s: State, a: ReceiverAction)
    requires Running(w, s) && ReceiverEnabled(w, s, a) && !a.ReceiverFails? && !a.GetRSum?
    ensures ReceiverAlive(ReceiverApply(w, s, a))
  {
    match a
    case OpenFile(n) => AllPresent(w, s, Todo(w, s.manifest)[s.rcv.pc.t]);
    case GetInfo => ToReceiverPop(w, s.manifest, 0, s.net.s2r);
    case GetComplete =>
      AllPresent(w, s, |w.files|);
      ToReceiverPop(w, s.manifest, 1 + s.rcv.pc.t, s.net.s2r);
    case _ =>
  }

  lemma NeedsAll(w: World, chunkSize: nat, m: Manifest, file: nat, bytes: seq<byte>)
    requires chunkSize > 0 && file < |w.files| && Listed(m, file) == []
    ensures FileRight(w, chunkSize, m, file, bytes)
  {
    forall p: nat | p < |w.files[file]|
      ensures p / chunkSize in Needed(w, m, chunkSize, file)
    {
      Quotient(p, chunkSize);
      InRange(|w.files[file]|, chunkSize, p / chunkSize);
    }
  }

  lemma OpenRight(w: World, s: State, newNode: nat)
    requires Running(w, s) && Right(w, s) && ReceiverEnabled(w, s, OpenFile(newNode))
    requires ReceiverAlive(ReceiverApply(w, s, OpenFile(newNode)))
    ensures var z := ReceiverApply(w, s, OpenFile(newNode));
            z.rcv.pc.RReceiving? && ReceiverRight(w, s.chunkSize, s.manifest, z.rcv.pc, z.disk)
  {
    var todo, t := Todo(w, s.manifest), s.rcv.pc.t;
    OpenedIsPartial(w, s.disk, todo[t], newNode);
    if t > 0 {
      TodoFacts(w, s.manifest);
      NeedsAll(w, s.chunkSize, s.manifest, todo[t], PartialOf(w, s.disk, todo[t]));
    }
  }

  /** A good writer's next write leaves a file right. */
  lemma WriteRight(w: World, chunkSize: nat, m: Manifest, d: Disk, wr: Writer)
    requires chunkSize > 0 && DiskOk(w, d) && GoodWriter(w, d, wr) && wr.pending != []
    requires FileRight(w, chunkSize, m, wr.file, d.inodes[wr.inode].bytes)
    ensures FileRight(w, chunkSize, m, wr.file, WriteFirst(d, wr).inodes[wr.inode].bytes)
  {
    if !w.trusted {
      var c := wr.pending[0];
      TrueBytes(w.files[wr.file], wr.chunkSize, c);
      WriteClaims(w.files[wr.file], chunkSize, Needed(w, m, chunkSize, wr.file), d.inodes[wr.inode].bytes,
                  c.index * wr.chunkSize, c.data);
    }
  }

  /** What has received all it needs, and was right, is the source. */
  lemma FinalizedRight(w: World, s: State)
    requires Running(w, s) && Right(w, s) && ReceiverEnabled(w, s, FinalizeLive)
    ensures s.disk.inodes[s.rcv.pc.writer.inode].bytes == w.files[s.rcv.pc.writer.file]
  {
    var wr := s.rcv.pc.writer;
    if w.trusted {
      FinalizedIsSource(w, s);
    } else {
      var bytes, needed := s.disk.inodes[wr.inode].bytes, Needed(w, s.manifest, s.chunkSize, wr.file);
      forall x | x in needed
        ensures Holds(bytes, w.files[wr.file], s.chunkSize, x)
      {
        assert Covered(w, s.disk, wr, x);
      }
      WrittenIff(w.files[wr.file], s.chunkSize, needed, bytes, bytes);
    }
  }

  lemma FinalizeRight(w: World, s: State)
    requires Running(w, s) && Right(w, s) && ReceiverEnabled(w, s, FinalizeLive)
    ensures var z := ReceiverApply(w, s, FinalizeLive);
            ReceiverAlive(z) && ReceiverRight(w, s.chunkSize, s.manifest, z.rcv.pc, z.disk)
  {
    FinalizedRight(w, s);
  }

  lemma ReceiverStaysRight(w: World, s: State, a: ReceiverAction)
    requires Running(w, s) && Right(w, s) && ReceiverEnabled(w, s, a) && !a.ReceiverFails?
    ensures var z := ReceiverApply(w, s, a);
            && ReceiverAlive(z) && ReceiverBounds(z.rcv.pc, |Todo(w, s.manifest)|)
            && ReceiverRight(w, s.chunkSize, s.manifest, z.rcv.pc, z.disk) && SumsRight(w, z.net.r2s)
  {
    match a
    case GetRSum => GetRSumRight(w, s, s.rcv.pc.t);
    case OpenFile(n) =>
      ReceiverStaysUp(w, s, a);
      OpenRight(w, s, n);
    case WriteLive => WriteLiveRight(w, s);
    case FinalizeLive => FinalizeRight(w, s);
    case _ => OtherStaysRight(w, s, a);
  }

  lemma GetRSumRight(w: World, s: State, t: nat)
    requires ReceiverEnabled(w, s, GetRSum) && s.rcv.manifest == s.manifest && t == s.rcv.pc.t
    requires ToReceiverInv(w, s.manifest, 1 + t, s.net.s2r) && s.rcv.pc.digest == w.hash(w.files[Todo(w, s.manifest)[t]])
    ensures ReceiverApply(w, s, GetRSum).rcv.pc == RNext(t + 1)
  {
    GetRSumReads(w, s.manifest, t, s.net.s2r);
  }

  lemma WriteLiveRight(w: World, s: State)
    requires Running(w, s) && Right(w, s) && ReceiverEnabled(w, s, WriteLive)
    ensures var z := ReceiverApply(w, s, WriteLive);
            ReceiverBounds(z.rcv.pc, |Todo(w, s.manifest)|) && ReceiverRight(w, s.chunkSize, s.manifest, z.rcv.pc, z.disk)
  {
    WriteRight(w, s.chunkSize, s.manifest, s.disk, s.rcv.pc.writer);
  }

  lemma OtherStaysRight(w: World, s: State, a: ReceiverAction)
    requires Running(w, s) && Right(w, s) && ReceiverEnabled(w, s, a) && !a.ReceiverFails?
    requires !a.GetRSum? && !a.OpenFile? && !a.WriteLive? && !a.FinalizeLive?
    ensures var z := ReceiverApply(w, s, a);
            && ReceiverAlive(z) && ReceiverBounds(z.rcv.pc, |Todo(w, s.manifest)|)
            && ReceiverRight(w, s.chunkSize, s.manifest, z.rcv.pc, z.disk) && SumsRight(w, z.net.r2s)
  {
    ReceiverStaysUp(w, s, a);
  }

  lemma ReceiverKeepsPartial(w: World, s: State, a: ReceiverAction)
    requires Running(w, s) && ReceiverEnabled(w, s, a) && !a.ReceiverFails?
    ensures var z := ReceiverApply(w, s, a);
            Live(z) ==> z.rcv.pc.writer.file in z.disk.partial
  {
  }

  lemma AcceptTakesSome(w: World, s: State)
    requires Inv(w, s) && ReceiverEnabled(w, s, Accept)
    ensures var pc := ReceiverApply(w, s, Accept).rcv.pc;
            var n := |pc.seen| - |s.rcv.pc.seen|;
            n > 0 && |pc.writer.pending| == |s.rcv.pc.writer.pending| + n
  {
    FlatHead(s.net.uni);
    TakeWanted(w, s.chunkSize, s.manifest, Todo(w, s.manifest)[s.rcv.pc.t], s.rcv.pc.seen, s.net.uni[0].chunks,
               Idx(Flat(s.net.uni[1..])));
  }

  lemma ReceiverLeftFalls(w: World, s: State, a: ReceiverAction)
    requires Bounded(w, s) && ReceiverEnabled(w, s, a) && ReceiverAlive(ReceiverApply(w, s, a))
    requires !a.ReceiverFails? && (a.GetInfo? || s.rcv.manifest == s.manifest)
    requires a.Accept? ==>
               var pc := ReceiverApply(w, s, a).rcv.pc;
               |pc.seen| > |s.rcv.pc.seen| && |pc.writer.pending| - |s.rcv.pc.writer.pending| == |pc.seen| - |s.rcv.pc.seen|
    requires a.EndReceive? ==> |s.rcv.pc.seen| <= CountOf(w, s, s.rcv.pc.t)
    ensures var z := ReceiverApply(w, s, a);
            && ReceiverBounds(z.rcv.pc, |Todo(w, s.manifest)|)
            && ReceiverLeft(w, s.chunkSize, s.manifest, z.rcv.pc) < ReceiverLeft(w, s.chunkSize, s.manifest, s.rcv.pc)
  {
  }

  lemma ReceiverProgress(w: World, s: State, a: ReceiverAction)
    requires Running(w, s) && ReceiverEnabled(w, s, a) && !a.ReceiverFails? && ReceiverAlive(ReceiverApply(w, s, a))
    ensures var z := ReceiverApply(w, s, a);
            Running(w, z) && Measure(w, z) < Measure(w, s)
  {
    ReceiverKeeps(w, s, a);
    ReceiverKeepsPartial(w, s, a);
    ReceiverShrinks(w, s, a);
  }

  lemma ReceiverShrinks(w: World, s: State, a: ReceiverAction)
    requires Running(w, s) && ReceiverEnabled(w, s, a) && !a.ReceiverFails? && ReceiverAlive(ReceiverApply(w, s, a))
    ensures Bounded(w, ReceiverApply(w, s, a)) && Measure(w, ReceiverApply(w, s, a)) < Measure(w, s)
  {
    if a.Accept? {
      AcceptTakesSome(w, s);
    }
    if a.EndReceive? {
      SeenBelowCount(w, s.chunkSize, s.manifest, Todo(w, s.manifest)[s.rcv.pc.t], s.rcv.pc.seen);
    }
    ReceiverLeftFalls(w, s, a);
    MeasureFalls(w, s, ReceiverApply(w, s, a));
  }

  lemma MeasureFalls(w: World, s: State, z: State)
    requires Bounded(w, s) && ReceiverBounds(z.rcv.pc, |Todo(w, s.manifest)|)
    requires z.chunkSize == s.chunkSize && z.manifest == s.manifest && z.snd == s.snd && z.stragglers == s.stragglers
    requires ReceiverLeft(w, s.chunkSize, s.manifest, z.rcv.pc) < ReceiverLeft(w, s.chunkSize, s.manifest, s.rcv.pc)
    ensures Bounded(w, z) && Measure(w, z) < Measure(w, s)
  {
  }

  lemma LeftoverAt(list: seq<Writer>, k: nat)
    requires k < |list|
    ensures Leftover(list) == Leftover(list[..k]) + Leftover(list[k + 1..]) + |list[k].pending| + 1
  {
    var head, x, tail := list[..k], list[k], list[k + 1..];
    assert list == head + [x] + tail;
    LeftoverSplit(head + [x], tail);
    assert (head + [x])[..k] == head;
  }

  lemma StragglerProgress(w: World, s: State, a: StragglerAction)
    requires OnTrack(w, s) && StragglerEnabled(w, s, a)
    ensures var z := StragglerApply(w, s, a);
            OnTrack(w, z) && Measure(w, z) < Measure(w, s)
  {
    var z := StragglerApply(w, s, a);
    StepKeeps(w, s, ByStraggler(a));
    StragglerClashes(w, s, a);
    if Live(s) {
      StragglerSpares(w, s, a);
    }
    StragglerStaysRight(w, s, a);
    StragglerMeasure(w, s, z, a);
  }

  /** Leftover writers write true bytes, and none renames the first file before the receiver has. */
  lemma StragglerStaysRight(w: World, s: State, a: StragglerAction)
    requires OnTrack(w, s) && StragglerEnabled(w, s, a)
    ensures var z := StragglerApply(w, s, a);
            ReceiverRight(w, s.chunkSize, s.manifest, s.rcv.pc, z.disk)
  {
    if a.StragglerWrite? {
      StragglerWriteRight(w, s, a.k);
    } else if s.stragglers[a.k].finalize {
      assert !Clashes(w, s, a.k);
      RenameRight(w, s, s.stragglers[a.k].file);
    }
  }

  lemma RenameRight(w: World, s: State, file: nat)
    requires Running(w, s) && Right(w, s)
    requires forall t :: FinishedCount(s.rcv.pc, |Todo(w, s.manifest)|) <= t < |Todo(w, s.manifest)| ==>
               Todo(w, s.manifest)[t] != file
    ensures ReceiverRight(w, s.chunkSize, s.manifest, s.rcv.pc, Rename(s.disk, file))
  {
  }

  lemma StragglerWriteRight(w: World, s: State, k: nat)
    requires Running(w, s) && Right(w, s) && StragglerEnabled(w, s, StragglerWrite(k))
    ensures ReceiverRight(w, s.chunkSize, s.manifest, s.rcv.pc, WriteFirst(s.disk, s.stragglers[k]))
  {
    var wr, m, todo := s.stragglers[k], s.manifest, Todo(w, s.manifest);
    WriteKeeps(w, s.disk, wr);
    if Live(s) {
      if s.rcv.pc.writer.inode == wr.inode {
        WriteRight(w, s.chunkSize, m, s.disk, wr);
      }
    } else if todo != [] && StartRight(w, s.chunkSize, m, s.disk) {
      WriteStartRight(w, s.chunkSize, m, s.disk, wr);
    }
  }

  lemma WriteStartRight(w: World, chunkSize: nat, m: Manifest, d: Disk, wr: Writer)
    requires chunkSize > 0 && DiskOk(w, d) && GoodWriter(w, d, wr) && wr.pending != [] && StartRight(w, chunkSize, m, d)
    requires DiskOk(w, WriteFirst(d, wr)) && Kept(w, d, WriteFirst(d, wr))
    ensures StartRight(w, chunkSize, m, WriteFirst(d, wr))
  {
    var todo, e := Todo(w, m), WriteFirst(d, wr);
    if todo != [] && todo[0] in d.partial {
      assert NodeKept(w, d, e, wr.inode);
      if d.partial[todo[0]] == wr.inode {
        assert PartialOf(w, d, todo[0]) == d.inodes[wr.inode].bytes;
        WriteRight(w, chunkSize, m, d, wr);
        assert PartialOf(w, e, todo[0]) == e.inodes[wr.inode].bytes;
      }
    }
  }

  lemma StragglerMeasure(w: World, s: State, z: State, a: StragglerAction)
    requires Bounded(w, s) && StragglerEnabled(w, s, a) && z == StragglerApply(w, s, a)
    ensures Bounded(w, z) && Measure(w, z) < Measure(w, s)
  {
    StragglersShrink(w, s, a);
    assert z.snd == s.snd && z.rcv == s.rcv && z.manifest == s.manifest && z.chunkSize == s.chunkSize;
  }

  lemma StragglerClashes(w: World, s: State, a: StragglerAction)
    requires StragglerEnabled(w, s, a) && forall k :: 0 <= k < |s.stragglers| ==> !Clashes(w, s, k)
    ensures var z := StragglerApply(w, s, a); forall k :: 0 <= k < |z.stragglers| ==> !Clashes(w, z, k)
  {
    var z := StragglerApply(w, s, a);
    forall k | 0 <= k < |z.stragglers|
      ensures !Clashes(w, z, k)
    {
      var j := if a.StragglerEnd? && k >= a.k then k + 1 else k;
      assert z.stragglers[k].file == s.stragglers[j].file && z.stragglers[k].finalize == s.stragglers[j].finalize;
      assert !Clashes(w, s, j);
    }
  }

  /** A leftover writer that renames another file leaves the partial being received. */
  lemma StragglerSpares(w: World, s: State, a: StragglerAction)
    requires OnTrack(w, s) && StragglerEnabled(w, s, a) && Live(s)
    ensures s.rcv.pc.writer.file in StragglerApply(w, s, a).disk.partial
  {
    assert !Clashes(w, s, a.k);
    assert s.rcv.pc.writer.file == Todo(w, s.manifest)[s.rcv.pc.t];
  }

  lemma StragglersShrink(w: World, s: State, a: StragglerAction)
    requires StragglerEnabled(w, s, a)
    ensures Leftover(StragglerApply(w, s, a).stragglers) < Leftover(s.stragglers)
  {
    var z := StragglerApply(w, s, a);
    LeftoverAt(s.stragglers, a.k);
    if a.StragglerWrite? {
      LeftoverAt(z.stragglers, a.k);
      assert z.stragglers[..a.k] == s.stragglers[..a.k] && z.stragglers[a.k + 1..] == s.stragglers[a.k + 1..];
    } else {
      LeftoverSplit(s.stragglers[..a.k], s.stragglers[a.k + 1..]);
    }
  }

  /** A step of either peer that neither fails on. */
  lemma PeerProgress(w: World, s: State, a: Action)
    requires Running(w, s) && Enabled(w, s, a) && PeerAction(a)
    requires SenderAlive(Apply(w, s, a)) && ReceiverAlive(Apply(w, s, a))
    ensures var z := Apply(w, s, a);
            Running(w, z) && Measure(w, z) < Measure(w, s)
  {
    match a
    case BySender(x) => SenderProgress(w, s, x);
    case ByReceiver(x) => ReceiverProgress(w, s, x);
  }

  lemma PeerStaysRight(w: World, s: State, a: Action)
    requires Running(w, s) && Right(w, s) && Enabled(w, s, a) && PeerAction(a)
    ensures var z := Apply(w, s, a);
            SenderAlive(z) && ReceiverAlive(z) && Running(w, z) && Right(w, z) && Measure(w, z) < Measure(w, s)
  {
    match a
    case BySender(x) => SenderRightProgress(w, s, x);
    case ByReceiver(x) => ReceiverRightProgress(w, s, x);
  }

  lemma SenderRightProgress(w: World, s: State, a: SenderAction)
    requires Running(w, s) && Right(w, s) && SenderEnabled(w, s, a) && !BreaksOff(a)
    ensures var z := SenderApply(w, s, a);
            Running(w, z) && Right(w, z) && Measure(w, z) < Measure(w, s)
  {
    SenderStaysRight(w, s, a);
    SenderProgress(w, s, a);
  }

  lemma ReceiverRightProgress(w: World, s: State, a: ReceiverAction)
    requires Running(w, s) && Right(w, s) && ReceiverEnabled(w, s, a) && !a.ReceiverFails?
    ensures var z := ReceiverApply(w, s, a);
            Running(w, z) && Right(w, z) && Measure(w, z) < Measure(w, s)
  {
    ReceiverStaysRight(w, s, a);
    ReceiverLocal(w, s, a);
    ReceiverProgress(w, s, a);
    RightSo(w, s, ReceiverApply(w, s, a));
  }

  lemma RightSo(w: World, s: State, z: State)
    requires Running(w, z) && z.chunkSize == s.chunkSize && z.manifest == s.manifest
    requires ReceiverRight(w, z.chunkSize, s.manifest, z.rcv.pc, z.disk) && SumsRight(w, z.net.r2s)
    ensures Right(w, z)
  {
  }

  /** The two peers' steps leave the leftover writers alone and the receiver goes through its files in order. */
  lemma PeerLocal(w: World, s: State, a: Action)
    requires Enabled(w, s, a) && PeerAction(a) && ReceiverAlive(Apply(w, s, a))
    ensures var z := Apply(w, s, a);
            && z.stragglers == s.stragglers && z.manifest == s.manifest && z.chunkSize == s.chunkSize
            && z.snd.attempt == s.snd.attempt
            && InOrder(s.rcv.pc, z.rcv.pc, |Todo(w, s.manifest)|, |Todo(w, s.rcv.manifest)|)
  {
    if a.ByReceiver? {
      ReceiverLocal(w, s, a.r);
    }
  }

  predicate InOrder(p: ReceiverPc, q: ReceiverPc, n: nat, rn: nat) {
    n == rn || p.RAwaitInfo? ==>
      && FinishedCount(p, n) <= FinishedCount(q, n)
      && (FinishedCount(p, n) < FinishedCount(q, n) ==>
            p.RFinalizing? && p.writer.pending == [] && FinishedCount(q, n) == p.t + 1)
  }

  lemma ReceiverLocal(w: World, s: State, a: ReceiverAction)
    requires ReceiverEnabled(w, s, a) && !a.ReceiverFails? && ReceiverAlive(ReceiverApply(w, s, a))
    ensures var z := ReceiverApply(w, s, a);
            && z.stragglers == s.stragglers && z.manifest == s.manifest && z.chunkSize == s.chunkSize && z.snd == s.snd
            && InOrder(s.rcv.pc, z.rcv.pc, |Todo(w, s.manifest)|, |Todo(w, s.rcv.manifest)|)
  {
  }

  lemma {:induction false} StepProgress(w: World, s: State, a: Action)
    requires OnTrack(w, s) && Enabled(w, s, a) && SessionAction(a)
    ensures var z := Apply(w, s, a);
            OnTrack(w, z) && Measure(w, z) < Measure(w, s)
  {
    if a.ByStraggler? {
      StragglerProgress(w, s, a.t);
    } else {
      PeerStaysRight(w, s, a);
      PeerLocal(w, s, a);
      var z := Apply(w, s, a);
      forall k | 0 <= k < |z.stragglers|
        ensures !Clashes(w, z, k)
      {
        assert !Clashes(w, s, k);
      }
    }
  }

  // ----- there is always a next step -----

  /** A node id no file has. */
  lemma NewNode(used: set<nat>) returns (n: nat)
    ensures forall x :: x in used ==> x < n
  {
    n := 0;
    var left := used;
    while left != {}
      invariant left <= used && forall x :: x in used && x !in left ==> x < n
      decreases left
    {
      var x :| x in left;
      left := left - {x};
      if n <= x {
        n := x + 1;
      }
    }
  }

  /** No deadlock: unless both sides are done, one of them can move, however small the transport's buffer. */
  lemma NoDeadlock(w: World, s: State) returns (a: Action)
    requires Running(w, s) && !(s.snd.pc.SDone? && s.rcv.pc.RDone?)
    ensures Enabled(w, s, a) && PeerAction(a)
  {
    if SenderWaits(s) {
      a := ReceiverCanMove(w, s);
    } else {
      SenderCanMove(w, s);
      a := BySender(SenderMove(w, s));
    }
  }

  /** For a message, or for room, or for nothing more. */
  predicate SenderWaits(s: State) {
    match s.snd.pc
    case SSending(t, rest) => rest != [] && s.net.uni != []
    case SAwaitReady => s.net.r2s == []
    case SAwaitSum(t) => s.net.r2s == []
    case SDone => true
    case _ => false
  }

  function SenderMove(w: World, s: State): SenderAction {
    match s.snd.pc
    case SStart => SendInfo
    case SNext(t) => if t < |Todo(w, s.manifest)| then StartFile else SendComplete
    case SSending(t, rest) => if rest == [] then SendSum else Flush(1)
    case SAwaitReady => GetReady
    case _ => GetSum
  }

  lemma SenderCanMove(w: World, s: State)
    requires Workable(w, s.chunkSize) && SenderBounds(s.snd.pc, |Todo(w, s.manifest)|)
    requires SenderAlive(s) && !SenderWaits(s)
    ensures SenderEnabled(w, s, SenderMove(w, s)) && !BreaksOff(SenderMove(w, s))
  {
  }

  /** If the sender waits, the receiver has something to do. */
  lemma ReceiverCanMove(w: World, s: State) returns (a: Action)
    requires Running(w, s) && !s.rcv.pc.RDone? && SenderWaits(s)
    ensures Enabled(w, s, a) && a.ByReceiver? && SessionAction(a)
  {
    match s.rcv.pc
    case RAwaitInfo => a := ByReceiver(GetInfo);
    case RSendReady => a := ByReceiver(SendReady);
    case RNext(t) =>
      if t < |Todo(w, s.manifest)| {
        var n := NewNode(s.disk.inodes.Keys);
        assert n !in s.disk.inodes.Keys;
        a := ByReceiver(OpenFile(n));
      } else {
        a := ByReceiver(GetComplete);
      }
    case RReceiving(t, seen, wr) =>
      NeededSize(w, s.manifest, s.chunkSize, Todo(w, s.manifest)[t]);
      if |seen| >= ExpectedChunks(w, s.manifest, s.chunkSize, Todo(w, s.manifest)[t]) {
        a := ByReceiver(EndReceive);
      } else {
        StreamWaiting(w, s);
        a := ByReceiver(Accept);
      }
    case RFinalizing(t, wr) =>
      a := ByReceiver(if wr.pending != [] then WriteLive else FinalizeLive);
    case RSendSum(t, d) => a := ByReceiver(SendRSum);
    case RAwaitSum(t, d) => a := ByReceiver(GetRSum);
  }

  /** A receiver short of chunks, with a sender that has no more to flush or no room to, finds a stream. */
  lemma StreamWaiting(w: World, s: State)
    requires Running(w, s) && s.rcv.pc.RReceiving?
    requires |s.rcv.pc.seen| < ExpectedChunks(w, s.manifest, s.chunkSize, Todo(w, s.manifest)[s.rcv.pc.t])
    requires SenderWaits(s)
    ensures s.net.uni != [] && AllSized(s.net.uni[0].chunks, |w.files[Todo(w, s.manifest)[s.rcv.pc.t]]|, s.chunkSize)
  {
    var t := s.rcv.pc.t;
    NeededSize(w, s.manifest, s.chunkSize, Todo(w, s.manifest)[t]);
    assert Idx(Flat([])) == [];
    AcceptStreamsInv(w, s.chunkSize, s.manifest, s.rcv.pc, s.net.uni, s.rcv.pc.writer);
    var file := w.files[Todo(w, s.manifest)[t]];
    forall k | 0 <= k < |s.net.uni[0].chunks|
      ensures Sized(s.net.uni[0].chunks[k], |file|, s.chunkSize)
    {
      assert TrueChunk(s.net.uni[0].chunks[k], file, s.chunkSize);
    }
  }

  // ----- the whole session -----

  ghost predicate SessionRun(w: World, s: State, run: seq<Action>, z: State) {
    Reaches(w, s, run, z) && forall k :: 0 <= k < |run| ==> SessionAction(run[k])
  }

  ghost predicate Stuck(w: World, z: State) { forall a :: SessionAction(a) ==> !Enabled(w, z, a) }

  /** Both sides are done, and every file is complete and in place. */
  ghost predicate Arrived(w: World, z: State) {
    && z.snd.pc.SDone? && z.rcv.pc.RDone?
    && forall i: nat :: i < |w.files| ==> i in z.snd.completed && Finished(w, z.disk, i)
  }

  lemma {:induction false} RunShortens(w: World, s: State, run: seq<Action>, z: State)
    requires OnTrack(w, s) && SessionRun(w, s, run, z)
    ensures OnTrack(w, z) && Bounded(w, z) && Bounded(w, s) && |run| <= Measure(w, s) - Measure(w, z)
    decreases run
  {
    if run != [] {
      StepProgress(w, s, run[0]);
      RunShortens(w, Apply(w, s, run[0]), run[1..], z);
    }
  }

  /** An uninterrupted session has at most `Measure` steps left, loses neither side, and when it can go no
      further has arrived. */
  lemma {:induction false} SessionCompletes(w: World, s: State, run: seq<Action>, z: State)
    requires OnTrack(w, s) && SessionRun(w, s, run, z)
    ensures Bounded(w, s) && |run| <= Measure(w, s)
    ensures SenderAlive(z) && ReceiverAlive(z) && (Stuck(w, z) ==> Arrived(w, z))
  {
    RunShortens(w, s, run, z);
    MeasureNat(w, z);
    if Stuck(w, z) {
      if !(z.snd.pc.SDone? && z.rcv.pc.RDone?) {
        var a := NoDeadlock(w, z);
        assert false;
      }
      DoneIsAll(w, z);
    }
  }

  lemma TrustedIsRight(w: World, s: State)
    requires Running(w, s) && w.trusted
    ensures Right(w, s)
  {
    forall k | 0 <= k < |s.net.r2s| && s.net.r2s[k].FileChecksum?
      ensures s.net.r2s[k].file < |w.files| && s.net.r2s[k].digest == w.hash(w.files[s.net.r2s[k].file])
    {
      assert Reported(w, s.manifest, SGot(s.snd.pc, |Todo(w, s.manifest)|) + k, s.net.r2s[k], s.disk);
    }
  }

  /** Every start within the limits whose first file is right is on track, so an undisturbed transfer from it arrives:
      every honest one, and any other whose claims hold. */
  lemma {:induction false} StartIsOnTrack(w: World, s: State)
    requires Init(w, s) && Workable(w, s.chunkSize) && StartRight(w, s.chunkSize, s.manifest, s.disk)
    ensures OnTrack(w, s)
  {
    InitInv(w, s);
  }

  // ----- leftover writers that rename -----

  lemma {:induction false} RunsOn(w: World, s: State, run: seq<Action>, z: State, a: Action)
    requires SessionRun(w, s, run, z) && Enabled(w, z, a) && SessionAction(a)
    ensures SessionRun(w, s, run + [a], Apply(w, z, a))
  {
    Extend(w, s, run, z, a);
  }

  lemma {:induction false} RunsThen(w: World, s: State, a: Action, run: seq<Action>, z: State)
    requires Enabled(w, s, a) && SessionAction(a) && SessionRun(w, Apply(w, s, a), run, z)
    ensures SessionRun(w, s, [a] + run, z)
  {
    ReachesThen(w, s, a, run, z);
    assert forall k :: 0 < k < |[a] + run| ==> ([a] + run)[k] == run[k - 1];
  }

  /** Before the first rename no checksum has been reported. */
  lemma NoSumYet(w: World, s: State)
    requires Running(w, s) && Todo(w, s.manifest) != [] && FinishedCount(s.rcv.pc, |Todo(w, s.manifest)|) == 0
    ensures !SenderEnabled(w, s, GetSum) && !ReceiverEnabled(w, s, GetRSum)
  {
  }

  lemma PeerStaysUp(w: World, s: State, a: Action)
    requires Running(w, s) && Enabled(w, s, a) && PeerAction(a) && a != BySender(GetSum) && a != ByReceiver(GetRSum)
    ensures SenderAlive(Apply(w, s, a)) && ReceiverAlive(Apply(w, s, a))
  {
    match a
    case BySender(x) => SenderStaysUp(w, s, x);
    case ByReceiver(x) => ReceiverStaysUp(w, s, x);
  }

  lemma StepToRename(w: World, s: State, t: nat) returns (a: Action, z: State)
    requires Running(w, s) && FinishedCount(s.rcv.pc, |Todo(w, s.manifest)|) <= t < |Todo(w, s.manifest)|
    requires (Right(w, s) || t == 0) && !AboutToRename(s, t)
    ensures Enabled(w, s, a) && PeerAction(a) && SessionAction(a) && z == Apply(w, s, a)
    ensures Running(w, z) && (Right(w, z) || t == 0) && 0 <= Measure(w, z) < Measure(w, s)
    ensures FinishedCount(z.rcv.pc, |Todo(w, s.manifest)|) <= t
    ensures z.stragglers == s.stragglers && z.manifest == s.manifest && z.snd.attempt == s.snd.attempt
    ensures z.chunkSize == s.chunkSize
  {
    a := NoDeadlock(w, s);
    z := Apply(w, s, a);
    if Right(w, s) {
      PeerStaysRight(w, s, a);
    } else {
      NoSumYet(w, s);
      PeerStaysUp(w, s, a);
      PeerProgress(w, s, a);
    }
    PeerLocal(w, s, a);
    MeasureNat(w, z);
  }

  /** The peers alone can bring the receiver to where it has written all of file `t` and is about to rename it. */
  lemma {:induction false} RunToRename(w: World, s: State, t: nat) returns (run: seq<Action>, z: State)
    requires Running(w, s) && FinishedCount(s.rcv.pc, |Todo(w, s.manifest)|) <= t < |Todo(w, s.manifest)|
    requires Right(w, s) || t == 0
    ensures SessionRun(w, s, run, z) && Running(w, z) && AboutToRename(z, t)
    ensures PeersOnly(run)
    ensures z.stragglers == s.stragglers && z.manifest == s.manifest && z.snd.attempt == s.snd.attempt
    ensures z.chunkSize == s.chunkSize
    decreases Measure(w, s)
  {
    if AboutToRename(s, t) {
      run, z := [], s;
    } else {
      var a, y := StepToRename(w, s, t);
      var rest;
      rest, z := RunToRename(w, y, t);
      RunsThen(w, s, a, rest, z);
      PeersThen(a, rest);
      run := [a] + rest;
    }
  }

  predicate AboutToRename(s: State, t: nat) {
    s.rcv.pc.RFinalizing? && s.rcv.pc.t == t && s.rcv.pc.writer.pending == []
  }

  /** A leftover writer can always go on to the end of what it was handed. */
  lemma {:induction false} RunDrained(w: World, s: State, t: nat, k: nat) returns (run: seq<Action>, z: State)
    requires Running(w, s) && AboutToRename(s, t) && k < |s.stragglers|
    ensures SessionRun(w, s, run, z) && Running(w, z) && AboutToRename(z, t)
    ensures z.rcv == s.rcv && |z.stragglers| == |s.stragglers|
    ensures z.stragglers[k] == s.stragglers[k].(pending := [])
    decreases |s.stragglers[k].pending|
  {
    if s.stragglers[k].pending == [] {
      run, z := [], s;
    } else {
      var a := ByStraggler(StragglerWrite(k));
      StepKeeps(w, s, a);
      var rest;
      rest, z := RunDrained(w, Apply(w, s, a), t, k);
      RunsThen(w, s, a, rest, z);
      run := [a] + rest;
    }
  }

  /** Then it takes the partial away, and the receiver's own rename fails. */
  lemma RenameTwice(w: World, s: State, t: nat, k: nat)
    requires Running(w, s) && AboutToRename(s, t) && k < |s.stragglers| && s.stragglers[k].pending == []
    requires s.stragglers[k].finalize && s.stragglers[k].file == Todo(w, s.manifest)[t]
    ensures var y := Apply(w, s, ByStraggler(StragglerEnd(k)));
            Enabled(w, y, ByReceiver(FinalizeLive)) && Apply(w, y, ByReceiver(FinalizeLive)).rcv.pc.RFailed?
  {
  }

  lemma ClashFails(w: World, s: State, k: nat, t: nat) returns (run: seq<Action>, z: State)
    requires Running(w, s) && k < |s.stragglers| && s.stragglers[k].finalize && (Right(w, s) || t == 0)
    requires FinishedCount(s.rcv.pc, |Todo(w, s.manifest)|) <= t < |Todo(w, s.manifest)|
    requires Todo(w, s.manifest)[t] == s.stragglers[k].file
    ensures SessionRun(w, s, run, z) && z.rcv.pc.RFailed?
  {
    run, z := RunToRename(w, s, t);
    var tail;
    var y;
    tail, y := RunDrained(w, z, t, k);
    RunsJoin(w, s, run, z, tail, y);
    run, z := run + tail, y;
    RenameTwice(w, z, t, k);
    RunsOn(w, s, run, z, ByStraggler(StragglerEnd(k)));
    run, z := run + [ByStraggler(StragglerEnd(k))], Apply(w, z, ByStraggler(StragglerEnd(k)));
    RunsOn(w, s, run, z, ByReceiver(FinalizeLive));
    run, z := run + [ByReceiver(FinalizeLive)], Apply(w, z, ByReceiver(FinalizeLive));
  }

  lemma {:induction false} RunsJoin(w: World, s: State, run: seq<Action>, y: State, tail: seq<Action>, z: State)
    requires SessionRun(w, s, run, y) && SessionRun(w, y, tail, z)
    ensures SessionRun(w, s, run + tail, z)
    decreases run
  {
    if run == [] {
      assert run + tail == tail;
    } else {
      RunsJoin(w, Apply(w, s, run[0]), run[1..], y, tail, z);
      RunsThen(w, s, run[0], run[1..] + tail, z);
      assert run + tail == [run[0]] + (run[1..] + tail);
    }
  }

  ghost predicate AlwaysArrives(w: World, s: State) {
    forall run, z :: SessionRun(w, s, run, z) ==>
      SenderAlive(z) && ReceiverAlive(z) && (Stuck(w, z) ==> Arrived(w, z))
  }

  /** While every checksum to come is right, all uninterrupted runs of the session arrive exactly when no leftover
      writer is about to rename one of the files still to come. */
  lemma ArrivesIff(w: World, s: State)
    requires Running(w, s) && Right(w, s)
    ensures AlwaysArrives(w, s) <==> forall k :: 0 <= k < |s.stragglers| ==> !Clashes(w, s, k)
  {
    if k :| 0 <= k < |s.stragglers| && Clashes(w, s, k) {
      var t :| FinishedCount(s.rcv.pc, |Todo(w, s.manifest)|) <= t < |Todo(w, s.manifest)|
               && Todo(w, s.manifest)[t] == s.stragglers[k].file;
      var run, z := ClashFails(w, s, k, t);
    } else {
      forall run, z | SessionRun(w, s, run, z)
        ensures SenderAlive(z) && ReceiverAlive(z) && (Stuck(w, z) ==> Arrived(w, z))
      {
        SessionCompletes(w, s, run, z);
      }
    }
  }
}
