/** When two sides agree on what a resume skips, when skipping it is right, and why an error must clear the
    chunk bitmaps. */
module TransferResume {
  import opened Prelude
  import opened Coverage
  import opened ChunkWriting
  import opened FileSending
  import opened StreamAgreement
  import opened TransferModel
  import opened TransferDisk
  import opened TransferInvariant
  import opened TransferSafety
  import opened TransferProgress

  /** What the sender will put on streams for file `i`, going by its bitmap. */
  function WillSend(w: World, chunkSize: nat, bitmap: map<nat, seq<nat>>, i: nat): nat
    requires chunkSize > 0 && i < |w.files|
  {
    |Missing(w.Count(i, chunkSize), AsSet(BitmapOf(bitmap, i)), 0)|
  }

  /** Sender and receiver count the same chunks for every file of a session exactly when the bitmap lists
      no chunk in range of any incomplete file but the first: the resume point names only that one. */
  lemma ResumeAgreesIff(w: World, chunkSize: nat, completed: set<nat>, bitmap: map<nat, seq<nat>>)
    requires chunkSize > 0
    ensures var m := ManifestOf(w, completed, bitmap);
            var todo := Todo(w, m);
            (forall k :: 0 <= k < |todo| ==>
               WillSend(w, chunkSize, bitmap, todo[k]) == ExpectedChunks(w, m, chunkSize, todo[k]))
            <==> (forall k :: 0 < k < |todo| ==> NoClaims(w, chunkSize, bitmap, todo[k]))
  {
    var m := ManifestOf(w, completed, bitmap);
    var todo := Todo(w, m);
    TodoFacts(w, m);
    forall k | 0 <= k < |todo|
      ensures WillSend(w, chunkSize, bitmap, todo[k]) == Expected(w.Count(todo[k], chunkSize), BitmapOf(bitmap, todo[k]))
      ensures k > 0 ==> Listed(m, todo[k]) == []
      ensures k == 0 ==> Listed(m, todo[k]) == BitmapOf(bitmap, todo[k])
    {
      MissingOf(w.Count(todo[k], chunkSize), BitmapOf(bitmap, todo[k]));
      assert k > 0 ==> todo[k] != todo[0];
    }
    forall k | 0 < k < |todo|
      ensures Expected(w.Count(todo[k], chunkSize), BitmapOf(bitmap, todo[k])) == Expected(w.Count(todo[k], chunkSize), [])
              <==> NoClaims(w, chunkSize, bitmap, todo[k])
    {
      ExpectedFull(w.Count(todo[k], chunkSize), BitmapOf(bitmap, todo[k]));
    }
  }

  lemma ExpectedFull(total: nat, list: seq<nat>)
    ensures Expected(total, []) == total
    ensures Expected(total, list) == total <==> forall x :: 0 <= x < total ==> x !in list
  {
    var none: seq<nat> := [];
    assert (set i | i in none && i < total) == {};
    var valid := set i | i in list && i < total;
    MissingOf(total, list);
    if Expected(total, list) == total && total > 0 {
      assert |valid| == 0;
      assert forall x :: 0 <= x < total && x in list ==> x in valid;
    }
    if forall x :: 0 <= x < total ==> x !in list {
      assert valid == {};
    }
  }

  // ----- when what is skipped is right -----

  /** The receiver on its way to the first file of the session, and while it writes that file over `base`. */
  ghost predicate Track(w: World, s: State, base: seq<byte>) {
    && Inv(w, s) && Todo(w, s.manifest) != []
    && var file := Todo(w, s.manifest)[0];
       match s.rcv.pc
       case RAwaitInfo => PartialOf(w, s.disk, file) == base
       case RSendReady => PartialOf(w, s.disk, file) == base
       case RNext(t) => t == 0 ==> PartialOf(w, s.disk, file) == base
       case RReceiving(t, _, wr) => t == 0 ==> Over(w, s.chunkSize, s.manifest, file, base, s.disk, wr)
       case RFinalizing(t, wr) => t == 0 ==> Over(w, s.chunkSize, s.manifest, file, base, s.disk, wr)
       case _ => true
  }

  ghost predicate Over(w: World, chunkSize: nat, m: Manifest, file: nat, base: seq<byte>, d: Disk, wr: Writer)
    requires chunkSize > 0 && file < |w.files|
  {
    && wr.inode in d.inodes && Untouched(w.files[file], chunkSize, Needed(w, m, chunkSize, file), base, d.inodes[wr.inode].bytes)
    && file in d.partial && d.partial[file] == wr.inode
    && forall k :: 0 <= k < |wr.pending| ==> wr.pending[k].index in Needed(w, m, chunkSize, file)
  }

  lemma OpenTracks(w: World, s: State, base: seq<byte>, newNode: nat)
    requires Track(w, s, base) && ReceiverEnabled(w, s, OpenFile(newNode))
    ensures Track(w, ReceiverApply(w, s, OpenFile(newNode)), base) || !ReceiverAlive(ReceiverApply(w, s, OpenFile(newNode)))
  {
    ReceiverKeeps(w, s, OpenFile(newNode));
    OpenUntouched(w, s.chunkSize, s.manifest, Todo(w, s.manifest)[s.rcv.pc.t], s.disk, newNode);
  }

  lemma OpenUntouched(w: World, chunkSize: nat, m: Manifest, file: nat, d: Disk, newNode: nat)
    requires chunkSize > 0 && DiskOk(w, d) && file < |w.files|
    ensures var e := OpenPartial(w, d, file, newNode);
            Over(w, chunkSize, m, file, PartialOf(w, d, file), e, Writer(file, e.partial[file], chunkSize, [], false))
  {
  }

  lemma AcceptTracks(w: World, s: State, base: seq<byte>)
    requires Track(w, s, base) && ReceiverEnabled(w, s, Accept)
    ensures Track(w, ReceiverApply(w, s, Accept), base)
  {
    ReceiverKeeps(w, s, Accept);
    var file, chunks := Todo(w, s.manifest)[s.rcv.pc.t], s.net.uni[0].chunks;
    FlatHead(s.net.uni);
    TakeWanted(w, s.chunkSize, s.manifest, file, s.rcv.pc.seen, chunks, Idx(Flat(s.net.uni[1..])));
    assert forall k :: 0 <= k < |chunks| ==> chunks[k].index in IndexSet(chunks);
  }

  lemma WriteTracks(w: World, s: State, base: seq<byte>)
    requires Track(w, s, base) && ReceiverEnabled(w, s, WriteLive)
    ensures Track(w, ReceiverApply(w, s, WriteLive), base)
  {
    ReceiverKeeps(w, s, WriteLive);
    var wr, m := s.rcv.pc.writer, s.manifest;
    if s.rcv.pc.t == 0 {
      var file := Todo(w, m)[0];
      WriteUntouched(w.files[file], s.chunkSize, Needed(w, m, s.chunkSize, file), base, s.disk.inodes[wr.inode].bytes,
                     wr.pending[0]);
    }
  }

  lemma ReceiverTracks(w: World, s: State, base: seq<byte>, a: ReceiverAction)
    requires Track(w, s, base) && ReceiverEnabled(w, s, a) && !a.ReceiverFails?
    ensures Track(w, ReceiverApply(w, s, a), base) || !ReceiverAlive(ReceiverApply(w, s, a))
  {
    match a
    case OpenFile(n) => OpenTracks(w, s, base, n);
    case Accept => AcceptTracks(w, s, base);
    case WriteLive => WriteTracks(w, s, base);
    case _ => OtherTracks(w, s, base, a);
  }

  lemma OtherTracks(w: World, s: State, base: seq<byte>, a: ReceiverAction)
    requires Track(w, s, base) && ReceiverEnabled(w, s, a) && !a.ReceiverFails?
    requires !a.OpenFile? && !a.Accept? && !a.WriteLive?
    ensures Track(w, ReceiverApply(w, s, a), base) || !ReceiverAlive(ReceiverApply(w, s, a))
  {
    ReceiverKeeps(w, s, a);
  }

  lemma SenderTracks(w: World, s: State, base: seq<byte>, a: SenderAction)
    requires Track(w, s, base) && SenderEnabled(w, s, a)
    ensures Track(w, SenderApply(w, s, a), base)
  {
    SenderKeeps(w, s, a);
  }

  lemma FailedStays(w: World, s: State, run: seq<Action>, z: State)
    requires SessionRun(w, s, run, z) && s.rcv.pc.RFailed?
    ensures z.rcv.pc.RFailed?
    decreases run
  {
    if run != [] {
      FailedStays(w, Apply(w, s, run[0]), run[1..], z);
    }
  }

  lemma StepTracks(w: World, s: State, base: seq<byte>, a: Action)
    requires Track(w, s, base) && Enabled(w, s, a) && PeerAction(a) && ReceiverAlive(Apply(w, s, a))
    ensures var z := Apply(w, s, a); Track(w, z, base) && z.manifest == s.manifest && z.chunkSize == s.chunkSize
  {
    match a
    case BySender(x) => SenderTracks(w, s, base, x);
    case ByReceiver(x) => ReceiverTracks(w, s, base, x);
  }

  lemma {:induction false} RunTracks(w: World, s: State, base: seq<byte>, run: seq<Action>, z: State)
    requires Track(w, s, base) && SessionRun(w, s, run, z) && ReceiverAlive(z)
    requires PeersOnly(run)
    ensures Track(w, z, base) && z.manifest == s.manifest && z.chunkSize == s.chunkSize
    decreases run
  {
    if run != [] {
      var y := Apply(w, s, run[0]);
      if y.rcv.pc.RFailed? {
        FailedStays(w, y, run[1..], z);
      }
      StepTracks(w, s, base, run[0]);
      RunTracks(w, y, base, run[1..], z);
    }
  }

  /** Where there are no leftover writers nobody but the peers acts. */
  lemma {:induction false} OnlyPeers(w: World, s: State, run: seq<Action>, z: State)
    requires SessionRun(w, s, run, z) && s.stragglers == [] && ReceiverAlive(z)
    ensures PeersOnly(run)
    decreases run
  {
    if run != [] {
      var y := Apply(w, s, run[0]);
      if y.rcv.pc.RFailed? {
        FailedStays(w, y, run[1..], z);
      }
      PeerLocal(w, s, run[0]);
      OnlyPeers(w, y, run[1..], z);
      PeersThen(run[0], run[1..]);
      assert run == [run[0]] + run[1..];
    }
  }

  /** A session in which leftover writers do nothing, as where there are none, whatever its bitmap claims of the first
      file and whatever lies in that file's partial: when the receiver is about to rename it, its bytes are the source's exactly when the claims
      hold; and so is the checksum it then reports, for a hash that tells the source from other bytes. */
  lemma FinalizedIff(w: World, s: State, run: seq<Action>, z: State)
    requires Inv(w, s) && s.rcv.pc.RAwaitInfo? && Todo(w, s.manifest) != []
    requires SessionRun(w, s, run, z) && AboutToRename(z, 0)
    requires s.stragglers == [] || PeersOnly(run)
    ensures var file, wr := Todo(w, s.manifest)[0], z.rcv.pc.writer;
            var base := PartialOf(w, s.disk, file);
            && wr.inode in z.disk.inodes && Enabled(w, z, ByReceiver(FinalizeLive))
            && (z.disk.inodes[wr.inode].bytes == w.files[file] <==> ClaimsHold(w.files[file], s.chunkSize, Needed(w, s.manifest, s.chunkSize, file), base))
            && (TellsApart(w) ==>
                  && Apply(w, z, ByReceiver(FinalizeLive)).rcv.pc.RSendSum?
                  && (Apply(w, z, ByReceiver(FinalizeLive)).rcv.pc.digest == w.hash(w.files[file])
                      <==> ClaimsHold(w.files[file], s.chunkSize, Needed(w, s.manifest, s.chunkSize, file), base)))
  {
    var file, wr := Todo(w, s.manifest)[0], z.rcv.pc.writer;
    var base := PartialOf(w, s.disk, file);
    if s.stragglers == [] {
      OnlyPeers(w, s, run, z);
    }
    RunTracks(w, s, base, run, z);
    forall x | x in Needed(w, s.manifest, s.chunkSize, file)
      ensures Holds(z.disk.inodes[wr.inode].bytes, w.files[file], s.chunkSize, x)
    {
      assert Covered(w, z.disk, wr, x);
    }
    WrittenIff(w.files[file], s.chunkSize, Needed(w, s.manifest, s.chunkSize, file), base, z.disk.inodes[wr.inode].bytes);
  }

  /** The claims hold if every claimed chunk lies in the leftover. */
  lemma HeldClaimsHold(w: World, chunkSize: nat, m: Manifest, file: nat, base: seq<byte>)
    requires chunkSize > 0 && file < |w.files|
    requires forall x: nat :: Claimed(w, m, chunkSize, file, x) ==> Holds(base, w.files[file], chunkSize, x)
    ensures ClaimsHold(w.files[file], chunkSize, Needed(w, m, chunkSize, file), base)
  {
    UnneededHeldHold(w.files[file], chunkSize, Needed(w, m, chunkSize, file), base);
  }

  // ----- without a state file the bitmap outlives the session -----

  /** A world of one file of one byte, cut into chunks of one byte, whose sender has no state file. */
  function OneByte(hash: seq<byte> -> Digest): World { World([[7]], hash, 1, 0, false, false) }

  const NOTHING: Disk := Disk(map[], map[], map[])
  const STALE: map<nat, seq<nat>> := map[0 := [0]]
  const FRESH_MANIFEST: Manifest := Manifest({}, None)
  const STALE_MANIFEST: Manifest := Manifest({}, Some(Resume(0, [0])))

  function StartOf(hash: seq<byte> -> Digest): State {
    State(1, FRESH_MANIFEST, Sender(SStart, {}, map[], 0), Receiver(RAwaitInfo, FRESH_MANIFEST), Net([], [], []), NOTHING, [])
  }

  /** The retried session, which starts from the bitmap of the first. */
  function Again(spc: SenderPc, rpc: ReceiverPc, net: Net, disk: Disk): State {
    State(1, STALE_MANIFEST, Sender(spc, {}, STALE, 1),
          Receiver(rpc, if rpc.RAwaitInfo? then FRESH_MANIFEST else STALE_MANIFEST), net, disk, [])
  }

  lemma OneTodo(hash: seq<byte> -> Digest)
    ensures Todo(OneByte(hash), FRESH_MANIFEST) == Todo(OneByte(hash), STALE_MANIFEST) == [0]
    ensures OneByte(hash).Count(0, 1) == 1 && !Oversized(OneByte(hash))
  {
    assert Missing(1, {}, 1) == [];
  }

  lemma Follow(w: World, s: State, run: seq<Action>, z: State, a: Action, y: State) returns (longer: seq<Action>)
    requires Reaches(w, s, run, z) && Enabled(w, z, a) && Apply(w, z, a) == y
    ensures Reaches(w, s, longer, y)
    ensures SessionRun(w, s, run, z) && SessionAction(a) ==> SessionRun(w, s, longer, y)
  {
    Extend(w, s, run, z, a);
    longer := run + [a];
  }

  /** The opening exchange: both sides end up at their first file. */
  lemma Opening(hash: seq<byte> -> Digest) returns (run: seq<Action>)
    ensures Reaches(OneByte(hash), StartOf(hash), run,
                    StartOf(hash).(snd := Sender(SNext(0), {}, map[], 0), rcv := Receiver(RNext(0), FRESH_MANIFEST)))
  {
    var w, s := OneByte(hash), StartOf(hash);
    OneTodo(hash);
    var a := s.(snd := s.snd.(pc := SAwaitReady), net := Net([TransferInfo(FRESH_MANIFEST)], [], []));
    var b := s.(snd := s.snd.(pc := SAwaitReady), rcv := Receiver(RSendReady, FRESH_MANIFEST));
    var c := s.(snd := s.snd.(pc := SAwaitReady), rcv := Receiver(RNext(0), FRESH_MANIFEST), net := Net([], [Ready], []));
    var d := s.(snd := Sender(SNext(0), {}, map[], 0), rcv := Receiver(RNext(0), FRESH_MANIFEST));
    run := Follow(w, s, [], s, BySender(SendInfo), a);
    run := Follow(w, s, run, a, ByReceiver(GetInfo), b);
    run := Follow(w, s, run, b, ByReceiver(SendReady), c);
    run := Follow(w, s, run, c, BySender(GetReady), d);
  }

  /** A flushed chunk is in the sender's bitmap while nothing of it is on the receiver's disk. Both sides break off
      and the transfer is retried with that bitmap. */
  lemma BitmapOutrunsDisk(hash: seq<byte> -> Digest) returns (run: seq<Action>)
    ensures Reaches(OneByte(hash), StartOf(hash), run, Again(SStart, RAwaitInfo, Net([], [], []), NOTHING))
  {
    var w, s := OneByte(hash), StartOf(hash);
    OneTodo(hash);
    run := Opening(hash);
    var a := s.(snd := Sender(SNext(0), {}, map[], 0), rcv := Receiver(RNext(0), FRESH_MANIFEST));
    var b := a.(snd := Sender(SSending(0, [0]), {}, map[], 0));
    var c := b.(snd := Sender(SSending(0, []), {}, STALE, 0), net := Net([], [], [UniStream(0, ChunksFrom(w, 1, 0, [0]))]));
    var d := c.(snd := Sender(SFailed(true), {}, STALE, 0));
    var e := d.(rcv := Receiver(RFailed, FRESH_MANIFEST));
    FirstFlush(hash);
    run := Follow(w, s, run, a, BySender(StartFile), b);
    run := Follow(w, s, run, b, BySender(Flush(1)), c);
    run := Follow(w, s, run, c, BySender(SenderFails(true)), d);
    run := Follow(w, s, run, d, ByReceiver(ReceiverFails(0)), e);
    assert ManifestOf(w, {}, STALE) == STALE_MANIFEST;
    run := Follow(w, s, run, e, ByLoop(Retry(1)), Again(SStart, RAwaitInfo, Net([], [], []), NOTHING));
  }

  lemma FirstFlush(hash: seq<byte> -> Digest)
    ensures Missing(OneByte(hash).Count(0, 1), AsSet(BitmapOf(map[], 0)), 0) == [0]
    ensures [0][..1] == [0] && [0][1..] == [] && BitmapOf(map[], 0) + [0] == [0] && map[][0 := [0]] == STALE
  {
    OneTodo(hash);
    assert AsSet(BitmapOf(map[], 0)) == {};
    assert Missing(1, {}, 1) == [];
  }

  const LIVE: Writer := Writer(0, 0, 1, [], false)
  const EMPTY_PARTIAL: Disk := Disk(map[0 := Inode(0, [])], map[0 := 0], map[])
  const EMPTY_FILE: Disk := Disk(map[0 := Inode(0, [])], map[], map[0 := 0])

  lemma StaleOpening(hash: seq<byte> -> Digest) returns (run: seq<Action>)
    ensures SessionRun(OneByte(hash), Again(SStart, RAwaitInfo, Net([], [], []), NOTHING), run,
                       Again(SSending(0, []), RReceiving(0, {}, LIVE), Net([], [], []), EMPTY_PARTIAL))
  {
    var w, none := OneByte(hash), Net([], [], []);
    var s := Again(SStart, RAwaitInfo, none, NOTHING);
    OneTodo(hash);
    var a := Again(SAwaitReady, RAwaitInfo, Net([TransferInfo(STALE_MANIFEST)], [], []), NOTHING);
    var b := Again(SAwaitReady, RSendReady, none, NOTHING);
    var c := Again(SAwaitReady, RNext(0), Net([], [Ready], []), NOTHING);
    var d := Again(SNext(0), RNext(0), none, NOTHING);
    run := Follow(w, s, [], s, BySender(SendInfo), a);
    run := Follow(w, s, run, a, ByReceiver(GetInfo), b);
    run := Follow(w, s, run, b, ByReceiver(SendReady), c);
    run := Follow(w, s, run, c, BySender(GetReady), d);
    var tail := StaleOpens(hash);
    RunsJoin(w, s, run, d, tail, Again(SSending(0, []), RReceiving(0, {}, LIVE), none, EMPTY_PARTIAL));
    run := run + tail;
  }

  lemma StaleOpens(hash: seq<byte> -> Digest) returns (run: seq<Action>)
    ensures SessionRun(OneByte(hash), Again(SNext(0), RNext(0), Net([], [], []), NOTHING), run,
                       Again(SSending(0, []), RReceiving(0, {}, LIVE), Net([], [], []), EMPTY_PARTIAL))
  {
    var w, none := OneByte(hash), Net([], [], []);
    var s := Again(SNext(0), RNext(0), none, NOTHING);
    OneTodo(hash);
    assert AsSet([0]) == {0} && Missing(1, {0}, 1) == [] && Missing(1, {0}, 0) == [];
    var a := Again(SSending(0, []), RNext(0), none, NOTHING);
    run := Follow(w, s, [], s, BySender(StartFile), a);
    run := Follow(w, s, run, a, ByReceiver(OpenFile(0)),
                  Again(SSending(0, []), RReceiving(0, {}, LIVE), none, EMPTY_PARTIAL));
  }

  lemma StaleExpectsNothing(hash: seq<byte> -> Digest)
    ensures ExpectedChunks(OneByte(hash), STALE_MANIFEST, 1, 0) == 0
  {
    OneTodo(hash);
    assert (set i | i in [0] && i < 1) == {0};
  }

  lemma StaleFinalizes(hash: seq<byte> -> Digest) returns (run: seq<Action>)
    ensures SessionRun(OneByte(hash), Again(SSending(0, []), RReceiving(0, {}, LIVE), Net([], [], []), EMPTY_PARTIAL), run,
                       Again(SAwaitSum(0), RAwaitSum(0, hash([])),
                             Net([FileChecksum(0, hash([7]))], [FileChecksum(0, hash([]))], []), EMPTY_FILE))
  {
    var w := OneByte(hash);
    var s := Again(SSending(0, []), RReceiving(0, {}, LIVE), Net([], [], []), EMPTY_PARTIAL);
    OneTodo(hash);
    StaleExpectsNothing(hash);
    var net := Net([FileChecksum(0, hash([7]))], [], []);
    var a := Again(SAwaitSum(0), RReceiving(0, {}, LIVE), net, EMPTY_PARTIAL);
    var b := Again(SAwaitSum(0), RFinalizing(0, LIVE.(finalize := true)), net, EMPTY_PARTIAL);
    var c := Again(SAwaitSum(0), RSendSum(0, hash([])), net, EMPTY_FILE);
    run := Follow(w, s, [], s, BySender(SendSum), a);
    run := Follow(w, s, run, a, ByReceiver(EndReceive), b);
    assert Rename(EMPTY_PARTIAL, 0) == EMPTY_FILE;
    run := Follow(w, s, run, b, ByReceiver(FinalizeLive), c);
    run := Follow(w, s, run, c, ByReceiver(SendRSum),
                  Again(SAwaitSum(0), RAwaitSum(0, hash([])), net.(r2s := [FileChecksum(0, hash([]))]), EMPTY_FILE));
  }

  /** With no state file to say otherwise the bitmap is kept, and the retried session, which nothing interrupts,
      sends nothing, finalizes an empty file, and fails on both sides over its checksum. Hence the error path clears
      the bitmaps; the hash alone keeps the file from being marked complete. */
  lemma StaleBitmapFails(hash: seq<byte> -> Digest) returns (broken: seq<Action>, run: seq<Action>, z: State)
    requires hash([]) != hash([7])
    ensures TellsApart(OneByte(hash)) ==> Init(OneByte(hash), StartOf(hash))
    ensures Reaches(OneByte(hash), StartOf(hash), broken, Again(SStart, RAwaitInfo, Net([], [], []), NOTHING))
    ensures SessionRun(OneByte(hash), Again(SStart, RAwaitInfo, Net([], [], []), NOTHING), run, z)
    ensures z.snd == Sender(SFailed(false), {}, STALE, 1) && z.rcv.pc.RFailed? && z.disk == EMPTY_FILE
  {
    var w := OneByte(hash);
    OneTodo(hash);
    broken := BitmapOutrunsDisk(hash);
    var s := Again(SStart, RAwaitInfo, Net([], [], []), NOTHING);
    var open := Again(SSending(0, []), RReceiving(0, {}, LIVE), Net([], [], []), EMPTY_PARTIAL);
    var sums := Net([FileChecksum(0, hash([7]))], [FileChecksum(0, hash([]))], []);
    var a := Again(SAwaitSum(0), RAwaitSum(0, hash([])), sums, EMPTY_FILE);
    z := Again(SFailed(false), RFailed, Net([], [], []), EMPTY_FILE);
    run := StaleOpening(hash);
    var tail := StaleFinalizes(hash);
    RunsJoin(w, s, run, open, tail, a);
    var end := StaleSums(hash);
    RunsJoin(w, s, run + tail, a, end, z);
    run := run + tail + end;
  }

  lemma StaleSums(hash: seq<byte> -> Digest) returns (run: seq<Action>)
    requires hash([]) != hash([7])
    ensures SessionRun(OneByte(hash),
                       Again(SAwaitSum(0), RAwaitSum(0, hash([])),
                             Net([FileChecksum(0, hash([7]))], [FileChecksum(0, hash([]))], []), EMPTY_FILE),
                       run, Again(SFailed(false), RFailed, Net([], [], []), EMPTY_FILE))
  {
    var w := OneByte(hash);
    OneTodo(hash);
    var sums := Net([FileChecksum(0, hash([7]))], [FileChecksum(0, hash([]))], []);
    var a := Again(SAwaitSum(0), RAwaitSum(0, hash([])), sums, EMPTY_FILE);
    var b := Again(SFailed(false), RAwaitSum(0, hash([])), sums.(r2s := []), EMPTY_FILE);
    run := Follow(w, a, [], a, BySender(GetSum), b);
    run := Follow(w, a, run, b, ByReceiver(GetRSum), Again(SFailed(false), RFailed, Net([], [], []), EMPTY_FILE));
  }
}
