/** Every action keeps the invariant; hence every file marked complete is on the receiver's disk, byte for byte. */
module TransferSafety {
  import opened Prelude
  import opened Chunks
  import opened Coverage
  import opened ChunkWriting
  import opened FileSending
  import opened StreamAgreement
  import opened TransferModel
  import opened TransferDisk
  import opened TransferInvariant

  lemma SendInfoKeeps(w: World, s: State)
    requires Inv(w, s) && SenderEnabled(w, s, SendInfo)
    ensures Inv(w, SenderApply(w, s, SendInfo))
  {
  }

  lemma GetReadyKeeps(w: World, s: State)
    requires Inv(w, s) && SenderEnabled(w, s, GetReady)
    ensures Inv(w, SenderApply(w, s, GetReady))
  {
  }

  /** What the sender computes as missing is what the receiver needs. */
  lemma MissingIsNeeded(w: World, chunkSize: nat, m: Manifest, bitmap: map<nat, seq<nat>>, file: nat)
    requires chunkSize > 0 && file < |w.files| && SameClaims(w, chunkSize, m, bitmap, file)
    ensures var rest := Missing(w.Count(file, chunkSize), AsSet(BitmapOf(bitmap, file)), 0);
            Wanted(w, chunkSize, m, file, {}, rest) && |rest| == |Needed(w, m, chunkSize, file)|
  {
    var rest := Missing(w.Count(file, chunkSize), AsSet(BitmapOf(bitmap, file)), 0);
    MissingOf(w.Count(file, chunkSize), BitmapOf(bitmap, file));
    DistinctSize(rest);
    assert forall k :: 0 <= k < |rest| ==> rest[k] in rest;
    assert AsSet(rest) == Needed(w, m, chunkSize, file);
  }

  /** While the sender is at a file, the receiver is at it too or has just its checksum left to read. */
  lemma SenderPosition(w: World, s: State, t: nat)
    requires Inv(w, s) && ReceiverAlive(s)
    requires s.snd.pc == SNext(t) || (s.snd.pc.SSending? && s.snd.pc.t == t)
    ensures Target(s.rcv.pc) == Some(t) || Finishing(s.rcv.pc) == Some(t)
  {
  }

  lemma StartStock(w: World, chunkSize: nat, m: Manifest, t: nat, bitmap: map<nat, seq<nat>>, rpc: ReceiverPc)
    requires chunkSize > 0 && t < |Todo(w, m)| && SameClaims(w, chunkSize, m, bitmap, Todo(w, m)[t])
    requires Target(rpc) == Some(t) ==> SeenOf(rpc) == {}
    requires Target(rpc) == Some(t) || Needed(w, m, chunkSize, Todo(w, m)[t]) == {}
    ensures var file := Todo(w, m)[t];
            Stock(w, chunkSize, m, t, Missing(w.Count(file, chunkSize), AsSet(BitmapOf(bitmap, file)), 0), rpc, [])
  {
    var file := Todo(w, m)[t];
    var rest := Missing(w.Count(file, chunkSize), AsSet(BitmapOf(bitmap, file)), 0);
    MissingIsNeeded(w, chunkSize, m, bitmap, file);
    assert Idx(Flat([])) + rest == rest;
  }

  lemma StartFileKeeps(w: World, s: State)
    requires Inv(w, s) && SenderEnabled(w, s, StartFile)
    ensures Inv(w, SenderApply(w, s, StartFile))
  {
    var t := s.snd.pc.t;
    var file := Todo(w, s.manifest)[t];
    if ReceiverAlive(s) {
      SenderPosition(w, s, t);
      StartStock(w, s.chunkSize, s.manifest, t, s.snd.bitmap, s.rcv.pc);
    }
  }

  lemma TodoFacts(w: World, m: Manifest)
    ensures Distinct(Todo(w, m))
    ensures forall i: nat :: i in Todo(w, m) <==> i < |w.files| && i !in m.completed
  {
    MissingFacts(|w.files|, m.completed, 0);
  }

  lemma FlushBitmap(w: World, chunkSize: nat, m: Manifest, t: nat, bitmap: map<nat, seq<nat>>, list: seq<nat>)
    requires chunkSize > 0 && t < |Todo(w, m)|
    requires forall k :: t + 1 <= k < |Todo(w, m)| ==> SameClaims(w, chunkSize, m, bitmap, Todo(w, m)[k])
    ensures forall k :: t + 1 <= k < |Todo(w, m)| ==> SameClaims(w, chunkSize, m, bitmap[Todo(w, m)[t] := list], Todo(w, m)[k])
  {
    TodoFacts(w, m);
    var changed := bitmap[Todo(w, m)[t] := list];
    forall k | t + 1 <= k < |Todo(w, m)|
      ensures SameClaims(w, chunkSize, m, changed, Todo(w, m)[k])
    {
      assert SameClaims(w, chunkSize, m, bitmap, Todo(w, m)[k]);
      assert BitmapOf(changed, Todo(w, m)[k]) == BitmapOf(bitmap, Todo(w, m)[k]);
    }
  }

  lemma {:induction false} FlatSnoc(uni: seq<UniStream>, x: UniStream)
    ensures Flat(uni + [x]) == Flat(uni) + x.chunks
  {
    if uni == [] {
      assert [x][1..] == [];
    } else {
      FlatSnoc(uni[1..], x);
      assert (uni + [x])[1..] == uni[1..] + [x];
    }
  }

  lemma FlushStock(w: World, chunkSize: nat, m: Manifest, t: nat, rest: seq<nat>, n: nat, rpc: ReceiverPc,
        uni: seq<UniStream>)
    requires chunkSize > 0 && t < |Todo(w, m)| && 0 < n <= |rest|
    requires Stock(w, chunkSize, m, t, rest, rpc, uni)
    ensures var file := Todo(w, m)[t];
            var stream := UniStream(file, ChunksFrom(w, chunkSize, file, rest[..n]));
            Stock(w, chunkSize, m, t, rest[n..], rpc, uni + [stream])
  {
    var file := Todo(w, m)[t];
    var stream := UniStream(file, ChunksFrom(w, chunkSize, file, rest[..n]));
    FlatSnoc(uni, stream);
    assert Idx(Flat(uni + [stream])) + rest[n..] == Idx(Flat(uni)) + rest;
  }

  lemma FlushStreams(w: World, chunkSize: nat, m: Manifest, t: nat, rest: seq<nat>, n: nat, rpc: ReceiverPc,
        uni: seq<UniStream>)
    requires chunkSize > 0 && t < |Todo(w, m)| && 0 < n <= |rest|
    requires Stock(w, chunkSize, m, t, rest, rpc, uni) && StreamsInv(w, chunkSize, m, rpc, uni)
    ensures var file := Todo(w, m)[t];
            var stream := UniStream(file, ChunksFrom(w, chunkSize, file, rest[..n]));
            StreamsInv(w, chunkSize, m, rpc, uni + [stream])
  {
    var file := Todo(w, m)[t];
    var stream := UniStream(file, ChunksFrom(w, chunkSize, file, rest[..n]));
    var more := uni + [stream];
    var out := Idx(Flat(uni)) + rest;
    FlatSnoc(uni, stream);
    assert Idx(Flat(more)) == out[..|Flat(more)|];
    WantedPrefix(w, chunkSize, m, file, SeenOf(rpc), out, |Flat(more)|);
    WantedAreTrue(w, chunkSize, m, file, SeenOf(rpc), Idx(Flat(uni)), rest, n);
    assert Flat(more) == Flat(uni) + ChunksFrom(w, chunkSize, file, rest[..n]);
  }

  /** The chunks cut out for wanted indices are true. */
  lemma WantedAreTrue(w: World, chunkSize: nat, m: Manifest, file: nat, seen: set<nat>, before: seq<nat>, rest: seq<nat>,
        n: nat)
    requires chunkSize > 0 && file < |w.files| && n <= |rest| && Wanted(w, chunkSize, m, file, seen, before + rest)
    ensures forall k :: 0 <= k < n ==> TrueChunk(ChunksFrom(w, chunkSize, file, rest[..n])[k], w.files[file], chunkSize)
  {
    forall k | 0 <= k < n
      ensures TrueChunk(ChunksFrom(w, chunkSize, file, rest[..n])[k], w.files[file], chunkSize)
    {
      assert (before + rest)[|before| + k] in Needed(w, m, chunkSize, file);
    }
  }

  lemma WantedPrefix(w: World, chunkSize: nat, m: Manifest, file: nat, seen: set<nat>, indices: seq<nat>, k: nat)
    requires chunkSize > 0 && file < |w.files| && k <= |indices| && Wanted(w, chunkSize, m, file, seen, indices)
    ensures Wanted(w, chunkSize, m, file, seen, indices[..k])
  {
  }

  lemma FlushNet(w: World, s: State, n: nat)
    requires s.chunkSize > 0 && SenderBounds(s.snd.pc, |Todo(w, s.manifest)|) && NetInv(w, s)
    requires SenderEnabled(w, s, Flush(n))
    ensures NetInv(w, SenderApply(w, s, Flush(n)))
  {
    var t, rest, m := s.snd.pc.t, s.snd.pc.rest, s.manifest;
    if ReceiverAlive(s) {
      FlushStock(w, s.chunkSize, m, t, rest, n, s.rcv.pc, s.net.uni);
      FlushStreams(w, s.chunkSize, m, t, rest, n, s.rcv.pc, s.net.uni);
    }
  }

  lemma FlushKeeps(w: World, s: State, n: nat)
    requires Inv(w, s) && SenderEnabled(w, s, Flush(n))
    ensures Inv(w, SenderApply(w, s, Flush(n)))
  {
    var t, rest, m := s.snd.pc.t, s.snd.pc.rest, s.manifest;
    FlushNet(w, s, n);
    FlushBitmap(w, s.chunkSize, m, t, s.snd.bitmap, BitmapOf(s.snd.bitmap, Todo(w, m)[t]) + rest[..n]);
  }

  lemma ToReceiverAppend(w: World, m: Manifest, got: nat, s2r: seq<Msg>, msg: Msg)
    requires ToReceiverInv(w, m, got, s2r) && got + |s2r| < 2 + |Todo(w, m)|
    requires msg == Script(w, Todo(w, m), TransferInfo(m), got + |s2r|)
    ensures ToReceiverInv(w, m, got, s2r + [msg])
  {
  }

  lemma ToReceiverPop(w: World, m: Manifest, got: nat, s2r: seq<Msg>)
    requires ToReceiverInv(w, m, got, s2r) && s2r != []
    ensures s2r[0] == Script(w, Todo(w, m), TransferInfo(m), got)
    ensures ToReceiverInv(w, m, got + 1, s2r[1..])
  {
    forall k | 0 <= k < |s2r[1..]|
      ensures s2r[1..][k] == Script(w, Todo(w, m), TransferInfo(m), got + 1 + k)
    {
      assert s2r[1..][k] == s2r[k + 1];
    }
  }

  lemma SendSumNet(w: World, s: State)
    requires s.chunkSize > 0 && SenderBounds(s.snd.pc, |Todo(w, s.manifest)|) && NetInv(w, s)
    requires SenderEnabled(w, s, SendSum) && (ReceiverAlive(s) ==> ReceiverBounds(s.rcv.pc, |Todo(w, s.manifest)|))
    ensures NetInv(w, SenderApply(w, s, SendSum))
  {
    var t, m := s.snd.pc.t, s.manifest;
    if ReceiverAlive(s) {
      ToReceiverAppend(w, m, RGot(s.rcv.pc, |Todo(w, m)|), s.net.s2r,
                       FileChecksum(Todo(w, m)[t], w.hash(w.files[Todo(w, m)[t]])));
      assert Stock(w, s.chunkSize, m, t, [], s.rcv.pc, s.net.uni);
    }
  }

  lemma SendSumKeeps(w: World, s: State)
    requires Inv(w, s) && SenderEnabled(w, s, SendSum)
    ensures Inv(w, SenderApply(w, s, SendSum))
  {
    SendSumNet(w, s);
  }

  /** The checksum the sender reads: if it is the source's, the file is in place. */
  lemma GetSumOutcome(w: World, s: State)
    requires s.chunkSize > 0 && SenderBounds(s.snd.pc, |Todo(w, s.manifest)|) && NetInv(w, s)
    requires SenderEnabled(w, s, GetSum)
    ensures var file := Todo(w, s.manifest)[s.snd.pc.t];
            s.net.r2s[0].FileChecksum? && s.net.r2s[0].file == file && SumOk(w, s.disk, file, s.net.r2s[0].digest)
    ensures ToSenderInv(w, s.manifest, 2 + s.snd.pc.t, s.net.r2s[1..], s.disk)
  {
    ToSenderPop(w, s.manifest, 1 + s.snd.pc.t, s.net.r2s, s.disk);
  }

  lemma GetSumNet(w: World, s: State)
    requires s.chunkSize > 0 && SenderBounds(s.snd.pc, |Todo(w, s.manifest)|) && NetInv(w, s)
    requires SenderEnabled(w, s, GetSum)
    ensures NetInv(w, SenderApply(w, s, GetSum))
  {
    var t := s.snd.pc.t;
    GetSumOutcome(w, s);
    if SenderAlive(SenderApply(w, s, GetSum)) && ReceiverAlive(s) {
      SumIsRead(w, s.chunkSize, s.manifest, t, s.rcv.pc, s.net);
    }
  }

  /** With the checksum read the sender is at the next file, and the receiver past this one's chunks. */
  lemma SumIsRead(w: World, chunkSize: nat, m: Manifest, t: nat, rpc: ReceiverPc, net: Net)
    requires chunkSize > 0 && t < |Todo(w, m)| && net.r2s != [] && CountsInv(w, m, SAwaitSum(t), rpc, net)
    requires AheadInv(w, chunkSize, m, SAwaitSum(t), rpc) && StockInv(w, chunkSize, m, SAwaitSum(t), rpc, net.uni)
    ensures CountsInv(w, m, SNext(t + 1), rpc, net.(r2s := net.r2s[1..]))
    ensures AheadInv(w, chunkSize, m, SNext(t + 1), rpc) && StockInv(w, chunkSize, m, SNext(t + 1), rpc, net.uni)
  {
  }

  lemma GetSumKeeps(w: World, s: State)
    requires Inv(w, s) && SenderEnabled(w, s, GetSum)
    ensures Inv(w, SenderApply(w, s, GetSum))
  {
    GetSumOutcome(w, s);
    GetSumNet(w, s);
    var t := s.snd.pc.t;
    var file := Todo(w, s.manifest)[t];
    if s.net.r2s[0].digest == w.hash(w.files[file]) {
      if ReceiverAlive(s) {
        assert file in Todo(w, s.manifest)[..FinishedCount(s.rcv.pc, |Todo(w, s.manifest)|)];
      }
    } else {
      FailedBitmap(w, s.chunkSize, s.manifest, s.snd.pc, s.snd.completed, s.snd.bitmap);
    }
  }

  lemma SendCompleteNet(w: World, s: State)
    requires s.chunkSize > 0 && SenderBounds(s.snd.pc, |Todo(w, s.manifest)|) && NetInv(w, s)
    requires SenderEnabled(w, s, SendComplete)
    ensures NetInv(w, SenderApply(w, s, SendComplete))
  {
    if SenderAlive(s) && ReceiverAlive(s) {
      ToReceiverAppend(w, s.manifest, RGot(s.rcv.pc, |Todo(w, s.manifest)|), s.net.s2r, Complete);
    }
  }

  lemma SendCompleteKeeps(w: World, s: State)
    requires Inv(w, s) && SenderEnabled(w, s, SendComplete)
    ensures Inv(w, SenderApply(w, s, SendComplete))
  {
    SendCompleteNet(w, s);
  }

  lemma SenderFailsKeeps(w: World, s: State, recoverable: bool)
    requires Inv(w, s) && SenderEnabled(w, s, SenderFails(recoverable))
    ensures Inv(w, SenderApply(w, s, SenderFails(recoverable)))
  {
    FailedBitmap(w, s.chunkSize, s.manifest, s.snd.pc, s.snd.completed, s.snd.bitmap);
  }

  /** The peer may get a stream, or `Complete`, that its sender does not know to have arrived. */
  lemma FailsAfterWriteKeeps(w: World, s: State, recoverable: bool, n: nat)
    requires Inv(w, s) && SenderEnabled(w, s, FailsAfterWrite(recoverable, n))
    ensures Inv(w, SenderApply(w, s, FailsAfterWrite(recoverable, n)))
  {
    FailsAfterWriteNet(w, s, recoverable, n);
    FailedBitmap(w, s.chunkSize, s.manifest, s.snd.pc, s.snd.completed, s.snd.bitmap);
  }

  lemma FailsAfterWriteNet(w: World, s: State, recoverable: bool, n: nat)
    requires s.chunkSize > 0 && SenderBounds(s.snd.pc, |Todo(w, s.manifest)|) && NetInv(w, s)
    requires SenderEnabled(w, s, FailsAfterWrite(recoverable, n))
    ensures NetInv(w, SenderApply(w, s, FailsAfterWrite(recoverable, n)))
  {
    if s.snd.pc.SSending? {
      FlushNet(w, s, n);
    } else {
      SendCompleteNet(w, s);
    }
  }

  /** A failing sender has claims left of the file it was at, which is its first incomplete one, and of no other. */
  lemma FailedBitmap(w: World, chunkSize: nat, m: Manifest, pc: SenderPc, completed: set<nat>, bitmap: map<nat, seq<nat>>)
    requires chunkSize > 0 && BitmapInv(w, chunkSize, m, pc, completed, bitmap) && MarkedInv(w, m, pc, completed)
    requires m.completed <= completed && !pc.SFailed? && !pc.SDone?
    ensures !w.statePath ==> FirstOnly(w, completed, bitmap)
  {
    var todo := Todo(w, m);
    TodoFacts(w, m);
    TodoAscends(w, m);
    if !w.statePath {
      forall i: nat, j: nat | i < j < |w.files| && i !in completed && j !in completed
        ensures BitmapOf(bitmap, j) == []
      {
        assert i in todo && j in todo;
        var a :| 0 <= a < |todo| && todo[a] == i;
        var b :| 0 <= b < |todo| && todo[b] == j;
        assert a < b && Marked(pc, |todo|) <= a;
        FirstIsIn(BitmapOf(bitmap, j));
        assert SameClaims(w, chunkSize, m, bitmap, todo[b]);
      }
    }
  }

  lemma FirstIsIn(list: seq<nat>)
    ensures list != [] ==> list[0] in list
  {
  }

  lemma TodoAscends(w: World, m: Manifest)
    ensures var todo := Todo(w, m); forall a, b :: 0 <= a < b < |todo| ==> todo[a] < todo[b]
  {
    MissingAscends(|w.files|, m.completed, 0);
    assert Todo(w, m) == Missing(|w.files|, m.completed, 0);
  }

  lemma {:induction false} MissingAscends(total: nat, completed: set<nat>, i: nat)
    requires i <= total
    ensures var m := Missing(total, completed, i); forall a, b :: 0 <= a < b < |m| ==> m[a] < m[b]
    decreases total - i
  {
    if i < total {
      MissingAscends(total, completed, i + 1);
      MissingFacts(total, completed, i + 1);
      var m := Missing(total, completed, i + 1);
      assert forall k :: 0 <= k < |m| ==> m[k] in m;
    }
  }

  lemma GetInfoKeeps(w: World, s: State)
    requires Inv(w, s) && ReceiverEnabled(w, s, GetInfo)
    ensures Inv(w, ReceiverApply(w, s, GetInfo))
  {
    GetInfoNet(w, s);
  }

  lemma GetInfoNet(w: World, s: State)
    requires s.chunkSize > 0 && SenderBounds(s.snd.pc, |Todo(w, s.manifest)|) && NetInv(w, s)
    requires ReceiverEnabled(w, s, GetInfo)
    ensures NetInv(w, ReceiverApply(w, s, GetInfo))
    ensures var z := ReceiverApply(w, s, GetInfo); z.rcv.pc.RFailed? || z.rcv == Receiver(RSendReady, s.manifest)
  {
    ToReceiverPop(w, s.manifest, 0, s.net.s2r);
    SameStock(w, s.chunkSize, s.manifest, s.snd.pc, RAwaitInfo, RSendReady, s.net.uni);
    SameStreams(w, s.chunkSize, s.manifest, RAwaitInfo, RSendReady, s.net.uni);
  }

  lemma SendReadyKeeps(w: World, s: State)
    requires Inv(w, s) && ReceiverEnabled(w, s, SendReady)
    ensures Inv(w, ReceiverApply(w, s, SendReady))
  {
  }

  lemma OpenToSender(w: World, m: Manifest, got: nat, r2s: seq<Msg>, d: Disk, e: Disk, t: nat)
    requires ToSenderInv(w, m, got, r2s, d) && t < |Todo(w, m)| && got + |r2s| <= 1 + t
    requires forall j :: j != Todo(w, m)[t] && Finished(w, d, j) ==> Finished(w, e, j)
    ensures ToSenderInv(w, m, got, r2s, e)
  {
    TodoFacts(w, m);
    forall k {:trigger r2s[k]} | 0 <= k < |r2s|
      ensures Reported(w, m, got + k, r2s[k], e)
    {
      assert Reported(w, m, got + k, r2s[k], d);
    }
  }

  lemma OpenLive(w: World, s: State, newNode: nat)
    requires Inv(w, s) && ReceiverEnabled(w, s, OpenFile(newNode))
    ensures var i := Todo(w, s.manifest)[s.rcv.pc.t];
            var e := OpenPartial(w, s.disk, i, newNode);
            LiveInv(w, s.chunkSize, s.manifest, RReceiving(s.rcv.pc.t, {}, Writer(i, e.partial[i], s.chunkSize, [], false)), e)
  {
    var t, m := s.rcv.pc.t, s.manifest;
    var i := Todo(w, m)[t];
    var e := OpenPartial(w, s.disk, i, newNode);
    var wr := Writer(i, e.partial[i], s.chunkSize, [], false);
    TodoFacts(w, m);
    OpenKeeps(w, s.disk, i, newNode);
    KeptFacts(w, s.disk, e);
    forall x: nat | Relied(w, m, s.chunkSize, i, x)
      ensures Covered(w, e, wr, x)
    {
      assert i == Todo(w, m)[0] && t == 0;
      assert HeldOn(w, s.disk, s.disk.partial[i], s.chunkSize, x);
    }
  }

  lemma OpenPast(w: World, s: State, newNode: nat)
    requires Inv(w, s) && ReceiverEnabled(w, s, OpenFile(newNode))
    ensures var e := OpenPartial(w, s.disk, Todo(w, s.manifest)[s.rcv.pc.t], newNode);
            && PastInv(w, s.manifest, s.rcv.pc.t, s.rcv.pc.t, s.snd.completed, e)
            && CompletedInv(w, s.snd.completed, s.manifest, e)
            && DiskInv(w, e, s.stragglers)
            && (SenderAlive(s) ==> ToSenderInv(w, s.manifest, SGot(s.snd.pc, |Todo(w, s.manifest)|), s.net.r2s, e))
  {
    var t, m := s.rcv.pc.t, s.manifest;
    var todo := Todo(w, m);
    var e := OpenPartial(w, s.disk, todo[t], newNode);
    TodoFacts(w, m);
    OpenKeeps(w, s.disk, todo[t], newNode);
    KeptFacts(w, s.disk, e);
    assert todo[t] !in todo[..t];
    if SenderAlive(s) {
      OpenToSender(w, m, SGot(s.snd.pc, |todo|), s.net.r2s, s.disk, e, t);
    }
  }

  lemma OpenNet(w: World, s: State, newNode: nat)
    requires Inv(w, s) && ReceiverEnabled(w, s, OpenFile(newNode))
    ensures NetInv(w, ReceiverApply(w, s, OpenFile(newNode)))
  {
    OpenPast(w, s, newNode);
    var z := ReceiverApply(w, s, OpenFile(newNode));
    if ReceiverAlive(z) {
      OpenPlace(w, s.chunkSize, s.manifest, s.snd.pc, s.rcv.pc.t, z.rcv.pc.writer, s.net);
    }
  }

  /** Opening the file changes nothing about the messages and streams in flight. */
  lemma OpenPlace(w: World, chunkSize: nat, m: Manifest, spc: SenderPc, t: nat, wr: Writer, net: Net)
    requires chunkSize > 0 && t < |Todo(w, m)| && SenderBounds(spc, |Todo(w, m)|)
    ensures RGot(RReceiving(t, {}, wr), |Todo(w, m)|) == RGot(RNext(t), |Todo(w, m)|)
    ensures StreamsInv(w, chunkSize, m, RNext(t), net.uni) ==> StreamsInv(w, chunkSize, m, RReceiving(t, {}, wr), net.uni)
    ensures CountsInv(w, m, spc, RNext(t), net) ==> CountsInv(w, m, spc, RReceiving(t, {}, wr), net)
    ensures AheadInv(w, chunkSize, m, spc, RNext(t)) ==> AheadInv(w, chunkSize, m, spc, RReceiving(t, {}, wr))
    ensures StockInv(w, chunkSize, m, spc, RNext(t), net.uni) ==> StockInv(w, chunkSize, m, spc, RReceiving(t, {}, wr), net.uni)
  {
    SamePlace(w, chunkSize, m, spc, RNext(t), RReceiving(t, {}, wr), net);
  }

  lemma OpenFileKeeps(w: World, s: State, newNode: nat)
    requires Inv(w, s) && ReceiverEnabled(w, s, OpenFile(newNode))
    ensures Inv(w, ReceiverApply(w, s, OpenFile(newNode)))
  {
    OpenNet(w, s, newNode);
    OpenLive(w, s, newNode);
    OpenPast(w, s, newNode);
  }

  lemma SeenSize(seen: set<nat>, more: seq<nat>)
    requires Distinct(more) && forall x :: x in more ==> x !in seen
    ensures |seen + AsSet(more)| == |seen| + |more|
  {
    DistinctSize(more);
    assert seen !! AsSet(more);
  }

  lemma {:induction false} DropSeenAll(seen: set<nat>, chunks: seq<Chunk>)
    requires Distinct(Idx(chunks)) && forall k :: 0 <= k < |chunks| ==> Idx(chunks)[k] !in seen
    ensures DropSeen(seen, chunks) == chunks
  {
    if chunks != [] {
      var n := |chunks| - 1;
      var init := chunks[..n];
      forall k | 0 <= k < n
        ensures Idx(init)[k] == Idx(chunks)[k] && init[k].index != chunks[n].index
      {
        assert Idx(chunks)[k] != Idx(chunks)[n];
      }
      assert chunks[n].index == Idx(chunks)[n];
      DropSeenAll(seen, init);
    }
  }

  lemma IndexSetIsIdx(chunks: seq<Chunk>)
    ensures AsSet(Idx(chunks)) == IndexSet(chunks)
  {
    forall x | x in Idx(chunks)
      ensures x in IndexSet(chunks)
    {
      var k :| 0 <= k < |chunks| && Idx(chunks)[k] == x;
      assert chunks[k].index == x;
    }
    forall k | 0 <= k < |chunks|
      ensures chunks[k].index in Idx(chunks)
    {
      assert Idx(chunks)[k] == chunks[k].index;
    }
  }

  lemma WantedSplit(w: World, chunkSize: nat, m: Manifest, file: nat, seen: set<nat>, a: seq<nat>, b: seq<nat>)
    requires chunkSize > 0 && file < |w.files|
    requires Wanted(w, chunkSize, m, file, seen, a + b)
    ensures Wanted(w, chunkSize, m, file, seen, a)
    ensures Wanted(w, chunkSize, m, file, seen + AsSet(a), b)
  {
    var all := a + b;
    assert forall k :: 0 <= k < |a| ==> a[k] == all[k];
    forall k | 0 <= k < |b|
      ensures b[k] in Needed(w, m, chunkSize, file) && b[k] !in seen && b[k] !in a
    {
      assert b[k] == all[|a| + k];
    }
    forall i, j | 0 <= i < j < |b|
      ensures b[i] != b[j]
    {
      assert all[|a| + i] != all[|a| + j];
    }
  }

  /** Taking the first of the wanted chunks: they were all unseen, and the others still are. */
  lemma TakeWanted(w: World, chunkSize: nat, m: Manifest, file: nat, seen: set<nat>, chunks: seq<Chunk>, out: seq<nat>)
    requires chunkSize > 0 && file < |w.files|
    requires Wanted(w, chunkSize, m, file, seen, Idx(chunks) + out)
    ensures DropSeen(seen, chunks) == chunks
    ensures Wanted(w, chunkSize, m, file, seen + IndexSet(chunks), out)
    ensures |seen + IndexSet(chunks)| == |seen| + |chunks|
    ensures IndexSet(chunks) <= Needed(w, m, chunkSize, file)
  {
    WantedSplit(w, chunkSize, m, file, seen, Idx(chunks), out);
    IndexSetIsIdx(chunks);
    DropSeenAll(seen, chunks);
    SeenSize(seen, Idx(chunks));
    forall x | x in AsSet(Idx(chunks))
      ensures x in Needed(w, m, chunkSize, file)
    {
    }
  }

  lemma FlatHead(uni: seq<UniStream>)
    requires uni != []
    ensures Flat(uni) == uni[0].chunks + Flat(uni[1..])
    ensures Idx(Flat(uni)) == Idx(uni[0].chunks) + Idx(Flat(uni[1..]))
  {
    var head, tail := uni[0].chunks, Flat(uni[1..]);
    assert Flat(uni) == head + tail;
    forall k | 0 <= k < |head + tail|
      ensures Idx(head + tail)[k] == (Idx(head) + Idx(tail))[k]
    {
      assert (head + tail)[k] == if k < |head| then head[k] else tail[k - |head|];
    }
  }

  lemma TrueSplit(file: seq<byte>, chunkSize: nat, a: seq<Chunk>, b: seq<Chunk>)
    requires forall k :: 0 <= k < |a + b| ==> TrueChunk((a + b)[k], file, chunkSize)
    ensures forall k :: 0 <= k < |a| ==> TrueChunk(a[k], file, chunkSize)
    ensures forall k :: 0 <= k < |b| ==> TrueChunk(b[k], file, chunkSize)
  {
    forall k | 0 <= k < |a|
      ensures TrueChunk(a[k], file, chunkSize)
    {
      assert a[k] == (a + b)[k];
    }
    forall k | 0 <= k < |b|
      ensures TrueChunk(b[k], file, chunkSize)
    {
      assert b[k] == (a + b)[|a| + k];
    }
  }

  lemma AcceptStreamsInv(w: World, chunkSize: nat, m: Manifest, rpc: ReceiverPc, uni: seq<UniStream>, wr: Writer)
    requires chunkSize > 0 && rpc.RReceiving? && uni != [] && StreamsInv(w, chunkSize, m, rpc, uni)
    ensures StreamsInv(w, chunkSize, m, RReceiving(rpc.t, rpc.seen + IndexSet(uni[0].chunks), wr), uni[1..])
    ensures forall k :: 0 <= k < |uni[0].chunks| ==> TrueChunk(uni[0].chunks[k], w.files[Todo(w, m)[rpc.t]], chunkSize)
  {
    var file := Todo(w, m)[rpc.t];
    FlatHead(uni);
    TakeWanted(w, chunkSize, m, file, rpc.seen, uni[0].chunks, Idx(Flat(uni[1..])));
    TrueSplit(w.files[file], chunkSize, uni[0].chunks, Flat(uni[1..]));
    forall k | 0 <= k < |uni[1..]|
      ensures uni[1..][k].origin == file && uni[1..][k].chunks != []
    {
      assert uni[1..][k] == uni[k + 1];
    }
  }

  lemma AcceptLive(w: World, chunkSize: nat, m: Manifest, rpc: ReceiverPc, d: Disk, chunks: seq<Chunk>)
    requires chunkSize > 0 && rpc.RReceiving? && ReceiverBounds(rpc, |Todo(w, m)|)
    requires LiveInv(w, chunkSize, m, rpc, d)
    requires IndexSet(chunks) <= Needed(w, m, chunkSize, Todo(w, m)[rpc.t])
    requires forall k :: 0 <= k < |chunks| ==> TrueChunk(chunks[k], w.files[Todo(w, m)[rpc.t]], chunkSize)
    ensures LiveInv(w, chunkSize, m, RReceiving(rpc.t, rpc.seen + IndexSet(chunks),
                                                rpc.writer.(pending := rpc.writer.pending + chunks)), d)
  {
    var wr := rpc.writer;
    var wr' := wr.(pending := wr.pending + chunks);
    forall x: nat | x in rpc.seen + IndexSet(chunks) || Relied(w, m, chunkSize, Todo(w, m)[rpc.t], x)
      ensures Covered(w, d, wr', x)
    {
      if x in IndexSet(chunks) {
        var k :| 0 <= k < |chunks| && chunks[k].index == x;
        assert wr'.pending[|wr.pending| + k].index == x;
      } else {
        assert Covered(w, d, wr, x);
        if InPending(wr, x) {
          var k :| 0 <= k < |wr.pending| && wr.pending[k].index == x;
          assert wr'.pending[k].index == x;
        }
      }
    }
  }

  lemma AcceptStock(w: World, chunkSize: nat, m: Manifest, t: nat, rest: seq<nat>, rpc: ReceiverPc, uni: seq<UniStream>)
    requires chunkSize > 0 && t < |Todo(w, m)| && rpc.RReceiving? && uni != []
    requires Stock(w, chunkSize, m, t, rest, rpc, uni)
    ensures forall wr :: Stock(w, chunkSize, m, t, rest, RReceiving(rpc.t, rpc.seen + IndexSet(uni[0].chunks), wr), uni[1..])
  {
    var chunks, later := uni[0].chunks, uni[1..];
    FlatHead(uni);
    assert Idx(Flat(uni)) + rest == Idx(chunks) + (Idx(Flat(later)) + rest);
    TakeWanted(w, chunkSize, m, Todo(w, m)[t], rpc.seen, chunks, Idx(Flat(later)) + rest);
  }

  lemma AcceptNet(w: World, s: State)
    requires Inv(w, s) && ReceiverEnabled(w, s, Accept)
    ensures NetInv(w, ReceiverApply(w, s, Accept))
  {
    var z := ReceiverApply(w, s, Accept);
    AcceptStreamsInv(w, s.chunkSize, s.manifest, s.rcv.pc, s.net.uni, z.rcv.pc.writer);
    if SenderAlive(s) {
      match s.snd.pc
      case SSending(u, rest) => AcceptStock(w, s.chunkSize, s.manifest, u, rest, s.rcv.pc, s.net.uni);
      case SAwaitSum(u) => AcceptStock(w, s.chunkSize, s.manifest, u, [], s.rcv.pc, s.net.uni);
      case _ =>
    }
  }

  lemma AcceptReceiver(w: World, s: State)
    requires Inv(w, s) && ReceiverEnabled(w, s, Accept)
    ensures LiveInv(w, s.chunkSize, s.manifest, ReceiverApply(w, s, Accept).rcv.pc, s.disk)
  {
    var seen, chunks := s.rcv.pc.seen, s.net.uni[0].chunks;
    FlatHead(s.net.uni);
    TakeWanted(w, s.chunkSize, s.manifest, Todo(w, s.manifest)[s.rcv.pc.t], seen, chunks, Idx(Flat(s.net.uni[1..])));
    AcceptStreamsInv(w, s.chunkSize, s.manifest, s.rcv.pc, s.net.uni, s.rcv.pc.writer);
    AcceptLive(w, s.chunkSize, s.manifest, s.rcv.pc, s.disk, chunks);
  }

  lemma AcceptKeeps(w: World, s: State)
    requires Inv(w, s) && ReceiverEnabled(w, s, Accept)
    ensures Inv(w, ReceiverApply(w, s, Accept))
  {
    AcceptNet(w, s);
    AcceptReceiver(w, s);
  }

  lemma SubsetFull(a: set<nat>, b: set<nat>)
    requires a <= b && |a| >= |b|
    ensures a == b
  {
    if a != b {
      var x :| x in b && x !in a;
      assert a <= b - {x};
      SubsetSize(a, b - {x});
    }
  }

  lemma SubsetSize(a: set<nat>, b: set<nat>)
    requires a <= b
    ensures |a| <= |b|
    decreases a
  {
    if a != {} {
      var x :| x in a;
      SubsetSize(a - {x}, b - {x});
    }
  }

  lemma FlatNonEmpty(uni: seq<UniStream>)
    requires uni != [] && uni[0].chunks != []
    ensures |Flat(uni)| > 0 && Idx(Flat(uni))[0] == uni[0].chunks[0].index
  {
  }

  /** When all that is needed has been seen, no stream is left in flight. */
  lemma NothingInFlight(w: World, chunkSize: nat, m: Manifest, rpc: ReceiverPc, uni: seq<UniStream>)
    requires chunkSize > 0 && rpc.RReceiving? && ReceiverBounds(rpc, |Todo(w, m)|) && StreamsInv(w, chunkSize, m, rpc, uni)
    requires rpc.seen == Needed(w, m, chunkSize, Todo(w, m)[rpc.t])
    ensures uni == []
  {
    if uni != [] {
      FlatNonEmpty(uni);
      assert false;
    }
  }

  lemma EndReceiveLive(w: World, s: State)
    requires s.chunkSize > 0 && s.rcv.pc.RReceiving? && ReceiverBounds(s.rcv.pc, |Todo(w, s.manifest)|)
    requires LiveInv(w, s.chunkSize, s.manifest, s.rcv.pc, s.disk)
    requires s.rcv.pc.seen == Needed(w, s.manifest, s.chunkSize, Todo(w, s.manifest)[s.rcv.pc.t])
    ensures LiveInv(w, s.chunkSize, s.manifest, RFinalizing(s.rcv.pc.t, s.rcv.pc.writer.(finalize := true)), s.disk)
  {
    var file, wr := Todo(w, s.manifest)[s.rcv.pc.t], s.rcv.pc.writer;
    forall x: nat | x in Needed(w, s.manifest, s.chunkSize, file) || Relied(w, s.manifest, s.chunkSize, file, x)
      ensures Covered(w, s.disk, wr.(finalize := true), x)
    {
      assert Covered(w, s.disk, wr, x);
      if InPending(wr, x) {
        assert InPending(wr.(finalize := true), x);
      }
    }
  }

  /** The sender, if it is at this file, has nothing left to send of it. */
  lemma EndReceiveNet(w: World, chunkSize: nat, m: Manifest, spc: SenderPc, rpc: ReceiverPc, wr: Writer, net: Net)
    requires chunkSize > 0 && rpc.RReceiving? && ReceiverBounds(rpc, |Todo(w, m)|) && SenderBounds(spc, |Todo(w, m)|)
    requires rpc.seen == Needed(w, m, chunkSize, Todo(w, m)[rpc.t]) && net.uni == []
    requires CountsInv(w, m, spc, rpc, net) && AheadInv(w, chunkSize, m, spc, rpc) && StockInv(w, chunkSize, m, spc, rpc, net.uni)
    ensures var q := RFinalizing(rpc.t, wr);
            CountsInv(w, m, spc, q, net) && AheadInv(w, chunkSize, m, spc, q) && StockInv(w, chunkSize, m, spc, q, net.uni)
  {
    if spc.SSending? && spc.t == rpc.t {
      assert |Idx(Flat(net.uni)) + spc.rest| == 0;
    }
  }

  lemma EndReceiveKeeps(w: World, s: State)
    requires Inv(w, s) && ReceiverEnabled(w, s, EndReceive)
    ensures Inv(w, ReceiverApply(w, s, EndReceive))
  {
    var m := s.manifest;
    var file := Todo(w, m)[s.rcv.pc.t];
    NeededSize(w, m, s.chunkSize, file);
    SubsetFull(s.rcv.pc.seen, Needed(w, m, s.chunkSize, file));
    NothingInFlight(w, s.chunkSize, m, s.rcv.pc, s.net.uni);
    EndReceiveLive(w, s);
    if SenderAlive(s) {
      EndReceiveNet(w, s.chunkSize, m, s.snd.pc, s.rcv.pc, s.rcv.pc.writer.(finalize := true), s.net);
    }
  }

  /** A change of the disk that loses nothing and adds no partial keeps the invariant. */
  lemma DiskStep(w: World, s: State, e: Disk)
    requires Inv(w, s) && DiskOk(w, e) && Kept(w, s.disk, e) && NoNewPartial(s.disk, e)
    requires forall i :: Finished(w, s.disk, i) ==> Finished(w, e, i)
    requires ReceiverAlive(s) ==> ClaimsInv(w, s.chunkSize, s.manifest, s.rcv.pc, e, s.stragglers)
    ensures Inv(w, s.(disk := e))
  {
    KeptFacts(w, s.disk, e);
    var z := s.(disk := e);
    if ReceiverAlive(s) {
      CoveredKept(w, s.chunkSize, s.manifest, s.rcv.pc, s.disk, e);
      var n := |Todo(w, s.manifest)|;
      PastKept(w, s.manifest, Confirmed(s.rcv.pc, n), FinishedCount(s.rcv.pc, n), s.snd.completed, s.disk, e);
    }
    if SenderAlive(s) {
      ToSenderKept(w, s.manifest, SGot(s.snd.pc, |Todo(w, s.manifest)|), s.net.r2s, s.disk, e);
    }
  }

  ghost predicate NoNewPartial(d: Disk, e: Disk) {
    forall i :: i in e.partial ==> i in d.partial && e.partial[i] == d.partial[i]
  }

  lemma PastKept(w: World, m: Manifest, sure: nat, past: nat, completed: set<nat>, d: Disk, e: Disk)
    requires PastInv(w, m, sure, past, completed, d) && forall i :: Finished(w, d, i) ==> Finished(w, e, i)
    ensures PastInv(w, m, sure, past, completed, e)
  {
  }

  lemma ToSenderKept(w: World, m: Manifest, got: nat, r2s: seq<Msg>, d: Disk, e: Disk)
    requires ToSenderInv(w, m, got, r2s, d) && forall i :: Finished(w, d, i) ==> Finished(w, e, i)
    ensures ToSenderInv(w, m, got, r2s, e)
  {
    forall k {:trigger r2s[k]} | 0 <= k < |r2s|
      ensures Reported(w, m, got + k, r2s[k], e)
    {
      assert Reported(w, m, got + k, r2s[k], d);
    }
  }

  lemma CoveredKept(w: World, chunkSize: nat, m: Manifest, pc: ReceiverPc, d: Disk, e: Disk)
    requires chunkSize > 0 && ReceiverBounds(pc, |Todo(w, m)|) && LiveInv(w, chunkSize, m, pc, d)
    requires Kept(w, d, e) && NoNewPartial(d, e) && forall i :: Finished(w, d, i) ==> Finished(w, e, i)
    ensures LiveInv(w, chunkSize, m, pc, e)
  {
    KeptFacts(w, d, e);
    if pc.RReceiving? || pc.RFinalizing? {
      forall x: nat | Covered(w, d, pc.writer, x)
        ensures Covered(w, e, pc.writer, x)
      {
      }
    }
  }

  /** The live writer may drop the first pending chunk once it is on disk. */
  lemma LiveStep(w: World, s: State)
    requires Inv(w, s) && Live(s) && s.rcv.pc.writer.pending != []
    requires var wr := s.rcv.pc.writer; HeldOn(w, s.disk, wr.inode, wr.chunkSize, wr.pending[0].index)
    ensures var wr := s.rcv.pc.writer;
            Inv(w, s.(rcv := s.rcv.(pc := s.rcv.pc.(writer := wr.(pending := wr.pending[1..])))))
  {
    var wr := s.rcv.pc.writer;
    var after := wr.(pending := wr.pending[1..]);
    WrittenHead(w, s.disk, wr);
    var z := s.(rcv := s.rcv.(pc := s.rcv.pc.(writer := after)));
    assert LiveInv(w, s.chunkSize, s.manifest, z.rcv.pc, s.disk);
    WriterIsLocal(w, s.chunkSize, s.manifest, s.snd.pc, s.rcv.pc, after, s.net);
  }

  /** Messages and streams depend on the receiver's position only, not on its writer. */
  lemma WriterIsLocal(w: World, chunkSize: nat, m: Manifest, spc: SenderPc, rpc: ReceiverPc, after: Writer, net: Net)
    requires chunkSize > 0 && SenderBounds(spc, |Todo(w, m)|) && (rpc.RReceiving? || rpc.RFinalizing?)
    ensures var q := rpc.(writer := after);
            && RGot(q, |Todo(w, m)|) == RGot(rpc, |Todo(w, m)|)
            && (StreamsInv(w, chunkSize, m, rpc, net.uni) ==> StreamsInv(w, chunkSize, m, q, net.uni))
            && (CountsInv(w, m, spc, rpc, net) ==> CountsInv(w, m, spc, q, net))
            && (AheadInv(w, chunkSize, m, spc, rpc) ==> AheadInv(w, chunkSize, m, spc, q))
            && (StockInv(w, chunkSize, m, spc, rpc, net.uni) ==> StockInv(w, chunkSize, m, spc, q, net.uni))
  {
    SamePlace(w, chunkSize, m, spc, rpc, rpc.(writer := after), net);
  }

  lemma SamePlace(w: World, chunkSize: nat, m: Manifest, spc: SenderPc, p: ReceiverPc, q: ReceiverPc, net: Net)
    requires chunkSize > 0 && SenderBounds(spc, |Todo(w, m)|)
    requires Target(p) == Target(q) && SeenOf(p) == SeenOf(q) && Finishing(p) == Finishing(q)
    requires RSent(p, |Todo(w, m)|) == RSent(q, |Todo(w, m)|) && RGot(p, |Todo(w, m)|) == RGot(q, |Todo(w, m)|)
    ensures StreamsInv(w, chunkSize, m, p, net.uni) ==> StreamsInv(w, chunkSize, m, q, net.uni)
    ensures CountsInv(w, m, spc, p, net) ==> CountsInv(w, m, spc, q, net)
    ensures AheadInv(w, chunkSize, m, spc, p) ==> AheadInv(w, chunkSize, m, spc, q)
    ensures StockInv(w, chunkSize, m, spc, p, net.uni) ==> StockInv(w, chunkSize, m, spc, q, net.uni)
  {
    SameStock(w, chunkSize, m, spc, p, q, net.uni);
    SameStreams(w, chunkSize, m, p, q, net.uni);
  }

  lemma SameStock(w: World, chunkSize: nat, m: Manifest, spc: SenderPc, p: ReceiverPc, q: ReceiverPc,
        uni: seq<UniStream>)
    requires chunkSize > 0 && SenderBounds(spc, |Todo(w, m)|) && Target(p) == Target(q) && SeenOf(p) == SeenOf(q)
    ensures StockInv(w, chunkSize, m, spc, p, uni) ==> StockInv(w, chunkSize, m, spc, q, uni)
  {
  }

  lemma SameStreams(w: World, chunkSize: nat, m: Manifest, p: ReceiverPc, q: ReceiverPc, uni: seq<UniStream>)
    requires chunkSize > 0 && Target(p) == Target(q) && SeenOf(p) == SeenOf(q)
    ensures StreamsInv(w, chunkSize, m, p, uni) ==> StreamsInv(w, chunkSize, m, q, uni)
  {
  }

  /** Once the first pending chunk is on disk it may leave the queue. */
  lemma WrittenHead(w: World, d: Disk, wr: Writer)
    requires wr.pending != [] && HeldOn(w, d, wr.inode, wr.chunkSize, wr.pending[0].index)
    ensures var after := wr.(pending := wr.pending[1..]);
            && (GoodWriter(w, d, wr) ==> GoodWriter(w, d, after))
            && forall x :: Covered(w, d, wr, x) ==> Covered(w, d, after, x)
  {
    var after := wr.(pending := wr.pending[1..]);
    forall x | Covered(w, d, wr, x)
      ensures Covered(w, d, after, x)
    {
      if InPending(wr, x) && x != wr.pending[0].index {
        var k :| 0 <= k < |wr.pending| && wr.pending[k].index == x;
        assert after.pending[k - 1].index == x;
      }
    }
  }

  lemma WriteLiveKeeps(w: World, s: State)
    requires Inv(w, s) && ReceiverEnabled(w, s, WriteLive)
    ensures Inv(w, ReceiverApply(w, s, WriteLive))
  {
    var wr := s.rcv.pc.writer;
    WriteKeeps(w, s.disk, wr);
    var e := WriteFirst(s.disk, wr);
    KeptFacts(w, s.disk, e);
    DiskStep(w, s, e);
    LiveStep(w, s.(disk := e));
  }

  lemma FinalizedIsSource(w: World, s: State)
    requires Inv(w, s) && w.trusted && ReceiverEnabled(w, s, FinalizeLive)
    ensures s.disk.inodes[s.rcv.pc.writer.inode].bytes == w.files[s.rcv.pc.writer.file]
  {
    var wr := s.rcv.pc.writer;
    var bytes := s.disk.inodes[wr.inode].bytes;
    forall i | 0 <= i < ChunkCount(|w.files[wr.file]|, s.chunkSize)
      ensures Holds(bytes, w.files[wr.file], s.chunkSize, i)
    {
      assert i in Needed(w, s.manifest, s.chunkSize, wr.file) || Relied(w, s.manifest, s.chunkSize, wr.file, i);
      assert Covered(w, s.disk, wr, i);
    }
    AllHeldIsFile(bytes, w.files[wr.file], s.chunkSize);
  }

  /** The checksum of what lies under the final name now is the source's only if the bytes are. */
  lemma FinalizedSum(w: World, s: State)
    requires Inv(w, s) && ReceiverEnabled(w, s, FinalizeLive) && s.rcv.pc.writer.file in s.disk.partial
    ensures var file := s.rcv.pc.writer.file;
            SumOk(w, Rename(s.disk, file), file, w.hash(s.disk.inodes[s.disk.partial[file]].bytes))
  {
    if w.trusted {
      FinalizedIsSource(w, s);
    }
  }

  /** With the file renamed the receiver may go on to send its checksum. */
  lemma FinishStep(w: World, s: State, digest: Digest)
    requires Inv(w, s) && s.rcv.pc.RFinalizing? && SumOk(w, s.disk, Todo(w, s.manifest)[s.rcv.pc.t], digest)
    ensures Inv(w, s.(rcv := s.rcv.(pc := RSendSum(s.rcv.pc.t, digest))))
  {
    var t, m := s.rcv.pc.t, s.manifest;
    var todo := Todo(w, m);
    assert todo[..t + 1] == todo[..t] + [todo[t]];
    assert PastInv(w, m, t, t + 1, s.snd.completed, s.disk);
    FinishNet(w, s.chunkSize, m, s.snd.pc, t, s.rcv.pc.writer, digest, s.net);
  }

  lemma FinishNet(w: World, chunkSize: nat, m: Manifest, spc: SenderPc, t: nat, wr: Writer, digest: Digest, net: Net)
    requires chunkSize > 0 && SenderBounds(spc, |Todo(w, m)|)
    ensures var p, q := RFinalizing(t, wr), RSendSum(t, digest);
            && RGot(q, |Todo(w, m)|) == RGot(p, |Todo(w, m)|)
            && (StreamsInv(w, chunkSize, m, p, net.uni) ==> StreamsInv(w, chunkSize, m, q, net.uni))
            && (CountsInv(w, m, spc, p, net) ==> CountsInv(w, m, spc, q, net))
            && (AheadInv(w, chunkSize, m, spc, p) ==> AheadInv(w, chunkSize, m, spc, q))
            && (StockInv(w, chunkSize, m, spc, p, net.uni) ==> StockInv(w, chunkSize, m, spc, q, net.uni))
  {
    SamePlace(w, chunkSize, m, spc, RFinalizing(t, wr), RSendSum(t, digest), net);
  }

  lemma FinalizeLiveKeeps(w: World, s: State)
    requires Inv(w, s) && ReceiverEnabled(w, s, FinalizeLive)
    ensures Inv(w, ReceiverApply(w, s, FinalizeLive))
  {
    var file := s.rcv.pc.writer.file;
    if file in s.disk.partial {
      var e := Rename(s.disk, file);
      FinalizedSum(w, s);
      RenameKeeps(w, s.disk, file);
      DiskStep(w, s, e);
      FinishStep(w, s.(disk := e), w.hash(s.disk.inodes[s.disk.partial[file]].bytes));
    }
  }

  lemma ToSenderAppend(w: World, m: Manifest, got: nat, r2s: seq<Msg>, msg: Msg, d: Disk)
    requires ToSenderInv(w, m, got, r2s, d) && got + |r2s| < 1 + |Todo(w, m)|
    requires Reported(w, m, got + |r2s|, msg, d)
    ensures ToSenderInv(w, m, got, r2s + [msg], d)
  {
  }

  lemma ToSenderPop(w: World, m: Manifest, got: nat, r2s: seq<Msg>, d: Disk)
    requires ToSenderInv(w, m, got, r2s, d) && r2s != []
    ensures Reported(w, m, got, r2s[0], d)
    ensures ToSenderInv(w, m, got + 1, r2s[1..], d)
  {
    forall k {:trigger r2s[1..][k]} | 0 <= k < |r2s[1..]|
      ensures Reported(w, m, got + 1 + k, r2s[1..][k], d)
    {
      assert r2s[1..][k] == r2s[k + 1];
    }
  }

  lemma SendRSumNet(w: World, s: State)
    requires Inv(w, s) && ReceiverEnabled(w, s, SendRSum)
    ensures NetInv(w, ReceiverApply(w, s, SendRSum))
  {
    var t, m := s.rcv.pc.t, s.manifest;
    if SenderAlive(s) {
      ToSenderAppend(w, m, SGot(s.snd.pc, |Todo(w, m)|), s.net.r2s, FileChecksum(Todo(w, m)[t], s.rcv.pc.digest), s.disk);
    }
    SumIsSent(w, s.chunkSize, m, s.snd.pc, t, s.rcv.pc.digest, s.net, FileChecksum(Todo(w, m)[t], s.rcv.pc.digest));
  }

  /** Sending a file's checksum changes nothing but the count of messages sent. */
  lemma SumIsSent(w: World, chunkSize: nat, m: Manifest, spc: SenderPc, t: nat, digest: Digest, net: Net, msg: Msg)
    requires chunkSize > 0 && t < |Todo(w, m)| && SenderBounds(spc, |Todo(w, m)|)
    ensures RGot(RAwaitSum(t, digest), |Todo(w, m)|) == RGot(RSendSum(t, digest), |Todo(w, m)|)
    ensures StreamsInv(w, chunkSize, m, RSendSum(t, digest), net.uni) ==> StreamsInv(w, chunkSize, m, RAwaitSum(t, digest), net.uni)
    ensures CountsInv(w, m, spc, RSendSum(t, digest), net) ==>
              CountsInv(w, m, spc, RAwaitSum(t, digest), net.(r2s := net.r2s + [msg]))
    ensures CountsInv(w, m, spc, RSendSum(t, digest), net) && AheadInv(w, chunkSize, m, spc, RSendSum(t, digest)) ==>
              AheadInv(w, chunkSize, m, spc, RAwaitSum(t, digest))
    ensures CountsInv(w, m, spc, RSendSum(t, digest), net) && StockInv(w, chunkSize, m, spc, RSendSum(t, digest), net.uni) ==>
              StockInv(w, chunkSize, m, spc, RAwaitSum(t, digest), net.uni)
  {
  }

  lemma SendRSumKeeps(w: World, s: State)
    requires Inv(w, s) && ReceiverEnabled(w, s, SendRSum)
    ensures Inv(w, ReceiverApply(w, s, SendRSum))
  {
    SendRSumNet(w, s);
  }

  lemma GetRSumReads(w: World, m: Manifest, t: nat, s2r: seq<Msg>)
    requires t < |Todo(w, m)| && s2r != [] && ToReceiverInv(w, m, 1 + t, s2r)
    ensures s2r[0] == FileChecksum(Todo(w, m)[t], w.hash(w.files[Todo(w, m)[t]]))
    ensures ToReceiverInv(w, m, 2 + t, s2r[1..])
  {
    ToReceiverPop(w, m, 1 + t, s2r);
  }

  lemma GetRSumNet(w: World, s: State)
    requires s.chunkSize > 0 && SenderBounds(s.snd.pc, |Todo(w, s.manifest)|) && NetInv(w, s)
    requires s.rcv.manifest == s.manifest && ReceiverEnabled(w, s, GetRSum)
    ensures NetInv(w, ReceiverApply(w, s, GetRSum))
  {
    var t, m, z := s.rcv.pc.t, s.manifest, ReceiverApply(w, s, GetRSum);
    GetRSumReads(w, m, t, s.net.s2r);
    if ReceiverAlive(z) {
      assert z.rcv.pc == RNext(t + 1) && z.net == s.net.(s2r := s.net.s2r[1..]);
      SameStreams(w, s.chunkSize, m, s.rcv.pc, RNext(t + 1), s.net.uni);
      if SenderAlive(s) {
        PassSum(w, s.chunkSize, m, s.snd.pc, t, s.rcv.pc.digest, s.net);
      }
    }
  }

  /** Past a file's checksum the receiver is at the next file. */
  lemma PassSum(w: World, chunkSize: nat, m: Manifest, spc: SenderPc, t: nat, digest: Digest, net: Net)
    requires chunkSize > 0 && t < |Todo(w, m)| && SenderBounds(spc, |Todo(w, m)|) && net.s2r != []
    requires CountsInv(w, m, spc, RAwaitSum(t, digest), net) && AheadInv(w, chunkSize, m, spc, RAwaitSum(t, digest))
    requires StockInv(w, chunkSize, m, spc, RAwaitSum(t, digest), net.uni)
    ensures CountsInv(w, m, spc, RNext(t + 1), net.(s2r := net.s2r[1..]))
    ensures AheadInv(w, chunkSize, m, spc, RNext(t + 1)) && StockInv(w, chunkSize, m, spc, RNext(t + 1), net.uni)
  {
    SameStock(w, chunkSize, m, spc, RAwaitSum(t, digest), RNext(t + 1), net.uni);
  }

  lemma GetRSumReceiver(w: World, s: State)
    requires Inv(w, s) && ReceiverEnabled(w, s, GetRSum) && ReceiverAlive(ReceiverApply(w, s, GetRSum))
    ensures ReceiverInv(w, s.chunkSize, s.manifest, s.snd.completed, s.rcv.(pc := RNext(s.rcv.pc.t + 1)), s.disk, s.stragglers)
  {
    GetRSumReads(w, s.manifest, s.rcv.pc.t, s.net.s2r);
    var t, m := s.rcv.pc.t, s.manifest;
    assert PastInv(w, m, t + 1, t + 1, s.snd.completed, s.disk);
  }

  lemma GetRSumKeeps(w: World, s: State)
    requires Inv(w, s) && ReceiverEnabled(w, s, GetRSum)
    ensures Inv(w, ReceiverApply(w, s, GetRSum))
  {
    GetRSumNet(w, s);
    var z := ReceiverApply(w, s, GetRSum);
    if ReceiverAlive(z) {
      GetRSumReceiver(w, s);
      assert z.rcv == s.rcv.(pc := RNext(s.rcv.pc.t + 1));
    }
  }

  lemma GetCompleteKeeps(w: World, s: State)
    requires Inv(w, s) && ReceiverEnabled(w, s, GetComplete)
    ensures Inv(w, ReceiverApply(w, s, GetComplete))
  {
  }

  lemma ReceiverFailsKeeps(w: World, s: State, keep: nat)
    requires Inv(w, s) && ReceiverEnabled(w, s, ReceiverFails(keep))
    ensures Inv(w, ReceiverApply(w, s, ReceiverFails(keep)))
  {
  }

  /** The stragglers may change among themselves while there are any. */
  lemma StragglersStep(w: World, s: State, stragglers: seq<Writer>)
    requires Inv(w, s) && s.stragglers != []
    requires forall k :: 0 <= k < |stragglers| ==> GoodWriter(w, s.disk, stragglers[k])
    ensures Inv(w, s.(stragglers := stragglers))
  {
  }

  lemma {:induction false} StragglerWriteKeeps(w: World, s: State, k: nat)
    requires Inv(w, s) && StragglerEnabled(w, s, StragglerWrite(k))
    ensures Inv(w, StragglerApply(w, s, StragglerWrite(k)))
  {
    var wr := s.stragglers[k];
    WriteKeeps(w, s.disk, wr);
    var e := WriteFirst(s.disk, wr);
    KeptFacts(w, s.disk, e);
    DiskStep(w, s, e);
    WrittenHead(w, e, wr);
    StragglersStep(w, s.(disk := e), s.stragglers[k := wr.(pending := wr.pending[1..])]);
  }

  lemma StragglerEndKeeps(w: World, s: State, k: nat)
    requires Inv(w, s) && StragglerEnabled(w, s, StragglerEnd(k))
    ensures Inv(w, StragglerApply(w, s, StragglerEnd(k)))
  {
    var wr := s.stragglers[k];
    StragglersStep(w, s, s.stragglers[..k] + s.stragglers[k + 1..]);
    if wr.finalize {
      RenameKeeps(w, s.disk, wr.file);
      DiskStep(w, s, Rename(s.disk, wr.file));
      StragglersStep(w, s.(disk := Rename(s.disk, wr.file)), s.stragglers[..k] + s.stragglers[k + 1..]);
    }
  }

  // ----- sessions, retries and whole runs -----

  /** A start of the machine: any leftovers on disk, any files already finished, and a bitmap that lists chunks of
      the first incomplete file alone. A trusted run, besides, has a state file and starts from an honest bitmap: the
      chunks it lists lie in the partial. Any other run needs a hash that tells the source files from other bytes. */
  ghost predicate Init(w: World, s: State) {
    && s.chunkSize > 0 && DiskOk(w, s.disk) && s.stragglers == []
    && s.snd.pc == SStart && s.rcv.pc == RAwaitInfo && s.net == Net([], [], [])
    && s.manifest == ManifestOf(w, s.snd.completed, s.snd.bitmap)
    && (forall i :: i in s.snd.completed ==> Finished(w, s.disk, i))
    && NoLaterClaims(w, s) && (!w.statePath ==> FirstOnly(w, s.snd.completed, s.snd.bitmap))
    && Assured(w) && (w.trusted ==> Honest(w, s))
  }

  ghost predicate NoLaterClaims(w: World, s: State)
    requires s.chunkSize > 0
  {
    var todo := Todo(w, s.manifest);
    forall k :: 0 < k < |todo| ==> NoClaims(w, s.chunkSize, s.snd.bitmap, todo[k])
  }

  ghost predicate Honest(w: World, s: State)
    requires s.chunkSize > 0
  {
    var todo := Todo(w, s.manifest);
    todo != [] ==> forall x :: 0 <= x < w.Count(todo[0], s.chunkSize) && x in BitmapOf(s.snd.bitmap, todo[0]) ==>
      todo[0] in s.disk.partial && HeldOn(w, s.disk, s.disk.partial[todo[0]], s.chunkSize, x)
  }

  ghost predicate NoClaims(w: World, chunkSize: nat, bitmap: map<nat, seq<nat>>, file: nat)
    requires chunkSize > 0 && file < |w.files|
  {
    forall x :: 0 <= x < w.Count(file, chunkSize) ==> x !in BitmapOf(bitmap, file)
  }

  /** The manifest claims what the bitmap does, given that it has nothing of the later files. */
  lemma StartClaims(w: World, chunkSize: nat, completed: set<nat>, bitmap: map<nat, seq<nat>>)
    requires chunkSize > 0
    requires var todo := Todo(w, ManifestOf(w, completed, bitmap));
             forall k :: 0 < k < |todo| ==> NoClaims(w, chunkSize, bitmap, todo[k])
    requires !w.statePath ==> FirstOnly(w, completed, bitmap)
    ensures BitmapInv(w, chunkSize, ManifestOf(w, completed, bitmap), SStart, completed, bitmap)
  {
    var m := ManifestOf(w, completed, bitmap);
    var todo := Todo(w, m);
    TodoFacts(w, m);
    TodoAscends(w, m);
    forall k | 0 <= k < |todo|
      ensures SameClaims(w, chunkSize, m, bitmap, todo[k])
    {
      if k > 0 {
        assert NoClaims(w, chunkSize, bitmap, todo[k]);
        assert todo[0] < todo[k];
      }
    }
  }

  lemma InitInv(w: World, s: State)
    requires Init(w, s)
    ensures Inv(w, s)
  {
    StartClaims(w, s.chunkSize, s.snd.completed, s.snd.bitmap);
  }

  /** A new session over whatever the last one left behind. */
  lemma NewSessionKeeps(w: World, s: State, chunkSize: nat, snd: Sender)
    requires Inv(w, s) && chunkSize > 0 && snd.completed <= s.snd.completed
    requires snd.bitmap == map[] || (!w.statePath && FirstOnly(w, snd.completed, snd.bitmap))
    ensures Inv(w, NewSession(w, s, chunkSize, snd))
  {
    var z := NewSession(w, s, chunkSize, snd);
    LaterUnclaimed(w, chunkSize, snd.completed, snd.bitmap);
    StartClaims(w, chunkSize, snd.completed, snd.bitmap);
    assert ClaimsInv(w, chunkSize, z.manifest, RAwaitInfo, z.disk, z.stragglers);
  }

  lemma LaterUnclaimed(w: World, chunkSize: nat, completed: set<nat>, bitmap: map<nat, seq<nat>>)
    requires chunkSize > 0 && FirstOnly(w, completed, bitmap)
    ensures var todo := Todo(w, ManifestOf(w, completed, bitmap));
            forall k :: 0 < k < |todo| ==> NoClaims(w, chunkSize, bitmap, todo[k])
  {
    var todo := Todo(w, ManifestOf(w, completed, bitmap));
    TodoAscends(w, ManifestOf(w, completed, bitmap));
    forall k | 0 < k < |todo|
      ensures NoClaims(w, chunkSize, bitmap, todo[k])
    {
      assert todo[0] < todo[k];
    }
  }

  lemma LoopKeeps(w: World, s: State, a: LoopAction)
    requires Inv(w, s) && LoopEnabled(w, s, a)
    ensures Inv(w, LoopApply(w, s, a))
  {
    match a
    case Retry(cs) => NewSessionKeeps(w, s, cs, s.snd.(attempt := s.snd.attempt + 1));
    case Rerun(cs, forget) =>
      NewSessionKeeps(w, s, cs, if forget then Sender(SStart, {}, map[], 0) else s.snd.(attempt := 0));
  }

  lemma {:induction false} SenderKeeps(w: World, s: State, a: SenderAction)
    requires Inv(w, s) && SenderEnabled(w, s, a)
    ensures Inv(w, SenderApply(w, s, a))
  {
    match a
    case SendInfo => SendInfoKeeps(w, s);
    case GetReady => GetReadyKeeps(w, s);
    case StartFile => StartFileKeeps(w, s);
    case Flush(n) => FlushKeeps(w, s, n);
    case SendSum => SendSumKeeps(w, s);
    case GetSum => GetSumKeeps(w, s);
    case SendComplete => SendCompleteKeeps(w, s);
    case SenderFails(r) => SenderFailsKeeps(w, s, r);
    case FailsAfterWrite(r, n) => FailsAfterWriteKeeps(w, s, r, n);
  }

  lemma {:induction false} ReceiverKeeps(w: World, s: State, a: ReceiverAction)
    requires Inv(w, s) && ReceiverEnabled(w, s, a)
    ensures Inv(w, ReceiverApply(w, s, a))
  {
    match a
    case GetInfo => GetInfoKeeps(w, s);
    case SendReady => SendReadyKeeps(w, s);
    case OpenFile(n) => OpenFileKeeps(w, s, n);
    case Accept => AcceptKeeps(w, s);
    case EndReceive => EndReceiveKeeps(w, s);
    case WriteLive => WriteLiveKeeps(w, s);
    case FinalizeLive => FinalizeLiveKeeps(w, s);
    case SendRSum => SendRSumKeeps(w, s);
    case GetRSum => GetRSumKeeps(w, s);
    case GetComplete => GetCompleteKeeps(w, s);
    case ReceiverFails(keep) => ReceiverFailsKeeps(w, s, keep);
  }

  /** Every step of the protocol, the network, the disk and the retry loop keeps the invariant. */
  lemma {:induction false} StepKeeps(w: World, s: State, a: Action)
    requires Inv(w, s) && Enabled(w, s, a)
    ensures Inv(w, Apply(w, s, a))
  {
    match a
    case BySender(x) => SenderKeeps(w, s, x);
    case ByReceiver(x) => ReceiverKeeps(w, s, x);
    case ByLoop(x) => LoopKeeps(w, s, x);
    case ByStraggler(StragglerWrite(k)) => StragglerWriteKeeps(w, s, k);
    case ByStraggler(StragglerEnd(k)) => StragglerEndKeeps(w, s, k);
  }

  /** `run` is a possible sequence of actions from `s`, ending in `z`. */
  ghost predicate Reaches(w: World, s: State, run: seq<Action>, z: State)
    decreases run
  {
    if run == [] then s == z
    else Enabled(w, s, run[0]) && Reaches(w, Apply(w, s, run[0]), run[1..], z)
  }

  lemma {:induction false} Extend(w: World, s: State, run: seq<Action>, z: State, a: Action)
    requires Reaches(w, s, run, z) && Enabled(w, z, a)
    ensures Reaches(w, s, run + [a], Apply(w, z, a))
    decreases run
  {
    if run == [] {
      assert [a][1..] == [];
    } else {
      Extend(w, Apply(w, s, run[0]), run[1..], z, a);
      assert (run + [a])[1..] == run[1..] + [a];
    }
  }

  lemma {:induction false} ReachesJoin(w: World, s: State, run: seq<Action>, y: State, tail: seq<Action>, z: State)
    requires Reaches(w, s, run, y) && Reaches(w, y, tail, z)
    ensures Reaches(w, s, run + tail, z)
    decreases run
  {
    if run == [] {
      assert run + tail == tail;
    } else {
      ReachesJoin(w, Apply(w, s, run[0]), run[1..], y, tail, z);
      ReachesThen(w, s, run[0], run[1..] + tail, z);
      assert run + tail == [run[0]] + (run[1..] + tail);
    }
  }

  lemma ReachesThen(w: World, s: State, a: Action, run: seq<Action>, z: State)
    requires Enabled(w, s, a) && Reaches(w, Apply(w, s, a), run, z)
    ensures Reaches(w, s, [a] + run, z)
  {
    assert ([a] + run)[1..] == run;
  }

  lemma {:induction false} ReachableInv(w: World, s: State, run: seq<Action>, z: State)
    requires Inv(w, s) && Reaches(w, s, run, z)
    ensures Inv(w, z)
    decreases run
  {
    if run != [] {
      StepKeeps(w, s, run[0]);
      ReachableInv(w, Apply(w, s, run[0]), run[1..], z);
    }
  }

  /** Safety over whole runs: disconnects anywhere, any number of retries, leftover partials, writer
      tasks outliving their session, for every hash function. A file the sender holds complete is on
      the receiver's disk under its final name, byte for byte; a successful end means all of them are. */
  lemma CompletedFilesArrived(w: World, s: State, run: seq<Action>, z: State)
    requires Init(w, s) && Reaches(w, s, run, z)
    ensures forall i :: i in z.snd.completed ==>
              i < |w.files| && i in z.disk.final && z.disk.final[i] in z.disk.inodes
              && z.disk.inodes[z.disk.final[i]].bytes == w.files[i]
    ensures z.snd.pc.SDone? ==> forall i: nat :: i < |w.files| ==> i in z.snd.completed
  {
    InitInv(w, s);
    ReachableInv(w, s, run, z);
    if z.snd.pc.SDone? {
      DoneIsAll(w, z);
    }
  }

  lemma DoneIsAll(w: World, z: State)
    requires Inv(w, z) && z.snd.pc.SDone?
    ensures forall i: nat :: i < |w.files| ==> i in z.snd.completed && Finished(w, z.disk, i)
  {
    TodoFacts(w, z.manifest);
    var todo := Todo(w, z.manifest);
    forall i: nat | i < |w.files|
      ensures i in z.snd.completed
    {
      if i !in z.manifest.completed {
        assert i in todo;
        var k :| 0 <= k < |todo| && todo[k] == i;
      }
    }
  }

  /** Lockstep: a stream accepted while receiving a file was opened while sending that file, and
      carries its true bytes; a receiver that reaches its end has been through the same files. */
  lemma StreamsStayInStep(w: World, s: State, run: seq<Action>, z: State)
    requires Init(w, s) && Reaches(w, s, run, z)
    ensures z.rcv.pc.RReceiving? && z.net.uni != [] ==>
              && z.rcv.pc.t < |Todo(w, z.manifest)|
              && var file := Todo(w, z.manifest)[z.rcv.pc.t];
              && z.rcv.pc.writer.file == file && z.net.uni[0].origin == file
              && forall k :: 0 <= k < |z.net.uni[0].chunks| ==> TrueChunk(z.net.uni[0].chunks[k], w.files[file], z.chunkSize)
    ensures ReceiverAlive(z) && !z.rcv.pc.RAwaitInfo? ==> Todo(w, z.rcv.manifest) == Todo(w, z.manifest)
    ensures z.rcv.pc.RDone? ==> forall i :: i in Todo(w, z.manifest) ==> Finished(w, z.disk, i)
  {
    InitInv(w, s);
    ReachableInv(w, s, run, z);
    if z.rcv.pc.RReceiving? && z.net.uni != [] {
      AcceptStreamsInv(w, z.chunkSize, z.manifest, z.rcv.pc, z.net.uni, z.rcv.pc.writer);
    }
  }

  /** One `send_path` call makes at most `max_attempts` attempts, unless that is zero. */
  lemma {:induction false} AttemptsBounded(w: World, s: State, run: seq<Action>, z: State)
    requires Reaches(w, s, run, z) && w.maxAttempts > 0 && s.snd.attempt < w.maxAttempts
    ensures z.snd.attempt < w.maxAttempts
    decreases run
  {
    if run != [] {
      AttemptsBounded(w, Apply(w, s, run[0]), run[1..], z);
    }
  }
}
