/** The inductive invariant of the transfer machine: the disk, the two sides, and their lockstep. */
module TransferInvariant {
  import opened Prelude
  import opened Chunks
  import opened Coverage
  import opened ChunkWriting
  import opened FileSending
  import opened StreamAgreement
  import opened TransferModel
  import opened TransferDisk

  // ----- sets of chunks -----

  /** Chunks the sender claims the receiver already has. */
  ghost predicate Claimed(w: World, m: Manifest, chunkSize: nat, file: nat, index: nat)
    requires chunkSize > 0 && file < |w.files|
  {
    index < w.Count(file, chunkSize) && index in Listed(m, file)
  }

  /** Claims that can be relied upon. */
  ghost predicate Relied(w: World, m: Manifest, chunkSize: nat, file: nat, index: nat)
    requires chunkSize > 0 && file < |w.files|
  {
    w.trusted && Claimed(w, m, chunkSize, file, index)
  }

  /** Chunks of a file that still have to travel in this session. */
  ghost function Needed(w: World, m: Manifest, chunkSize: nat, file: nat): set<nat>
    requires chunkSize > 0 && file < |w.files|
  {
    Unlisted(w.Count(file, chunkSize), Listed(m, file))
  }

  lemma NeededSize(w: World, m: Manifest, chunkSize: nat, file: nat)
    requires chunkSize > 0 && file < |w.files|
    ensures |Needed(w, m, chunkSize, file)| == ExpectedChunks(w, m, chunkSize, file)
  {
    var missing := Missing(w.Count(file, chunkSize), AsSet(Listed(m, file)), 0);
    MissingOf(w.Count(file, chunkSize), Listed(m, file));
    DistinctSize(missing);
    assert AsSet(missing) == Needed(w, m, chunkSize, file);
  }

  function Flat(uni: seq<UniStream>): seq<Chunk> {
    if uni == [] then [] else uni[0].chunks + Flat(uni[1..])
  }

  function Idx(chunks: seq<Chunk>): (r: seq<nat>)
    ensures |r| == |chunks|
  {
    seq(|chunks|, k requires 0 <= k < |chunks| => chunks[k].index)
  }

  // ----- message scripts -----

  /** The control messages either side sends in a session, by number: its opening, one checksum per
      visited file, and (from the sender) `Complete`. */
  function Script(w: World, todo: seq<nat>, opening: Msg, k: nat): Msg {
    if k == 0 then opening
    else if k <= |todo| && todo[k - 1] < |w.files| then FileChecksum(todo[k - 1], w.hash(w.files[todo[k - 1]]))
    else Complete
  }

  function SGot(pc: SenderPc, n: nat): nat {
    match pc
    case SStart => 0
    case SAwaitReady => 0
    case SNext(t) => 1 + t
    case SSending(t, _) => 1 + t
    case SAwaitSum(t) => 1 + t
    case SDone => 1 + n
    case SFailed(_) => 0
  }

  function SSent(pc: SenderPc, n: nat): nat {
    match pc
    case SStart => 0
    case SAwaitReady => 1
    case SNext(t) => 1 + t
    case SSending(t, _) => 1 + t
    case SAwaitSum(t) => 2 + t
    case SDone => 2 + n
    case SFailed(_) => 0
  }

  function RGot(pc: ReceiverPc, n: nat): nat {
    match pc
    case RAwaitInfo => 0
    case RSendReady => 1
    case RNext(t) => 1 + t
    case RReceiving(t, _, _) => 1 + t
    case RFinalizing(t, _) => 1 + t
    case RSendSum(t, _) => 1 + t
    case RAwaitSum(t, _) => 1 + t
    case RDone => 2 + n
    case RFailed => 0
  }

  function RSent(pc: ReceiverPc, n: nat): nat {
    match pc
    case RAwaitInfo => 0
    case RSendReady => 0
    case RNext(t) => 1 + t
    case RReceiving(t, _, _) => 1 + t
    case RFinalizing(t, _) => 1 + t
    case RSendSum(t, _) => 1 + t
    case RAwaitSum(t, _) => 2 + t
    case RDone => 1 + n
    case RFailed => 0
  }

  /** How many visited files the receiver has renamed into place in this session. */
  function FinishedCount(pc: ReceiverPc, n: nat): nat {
    match pc
    case RAwaitInfo => 0
    case RSendReady => 0
    case RNext(t) => t
    case RReceiving(t, _, _) => t
    case RFinalizing(t, _) => t
    case RSendSum(t, _) => t + 1
    case RAwaitSum(t, _) => t + 1
    case RDone => n
    case RFailed => 0
  }

  /** How many of them it knows to be right: its checksum and the sender's agreed. */
  function Confirmed(pc: ReceiverPc, n: nat): nat {
    match pc
    case RSendSum(t, _) => t
    case RAwaitSum(t, _) => t
    case _ => FinishedCount(pc, n)
  }

  /** The position of the file the receiver has all chunks of and is not through with yet. */
  function Finishing(pc: ReceiverPc): Option<nat> {
    match pc
    case RFinalizing(t, _) => Some(t)
    case RSendSum(t, _) => Some(t)
    case RAwaitSum(t, _) => Some(t)
    case _ => None
  }

  /** The position whose streams the receiver will accept next. Once its checksum for a file is out,
      the sender may already be on the following file. */
  function Target(pc: ReceiverPc): Option<nat> {
    match pc
    case RAwaitInfo => Some(0)
    case RSendReady => Some(0)
    case RNext(t) => Some(t)
    case RReceiving(t, _, _) => Some(t)
    case RAwaitSum(t, _) => Some(t + 1)
    case _ => None
  }

  function SeenOf(pc: ReceiverPc): set<nat> { if pc.RReceiving? then pc.seen else {} }

  function Started(pc: SenderPc, n: nat): nat {
    match pc
    case SStart => 0
    case SAwaitReady => 0
    case SNext(t) => t
    case SSending(t, _) => t + 1
    case SAwaitSum(t) => t + 1
    case SDone => n
    case SFailed(_) => n
  }

  // ----- the invariant, piece by piece -----

  ghost predicate DiskInv(w: World, d: Disk, stragglers: seq<Writer>) {
    DiskOk(w, d) && forall k :: 0 <= k < |stragglers| ==> GoodWriter(w, d, stragglers[k])
  }

  ghost predicate CompletedInv(w: World, completed: set<nat>, m: Manifest, d: Disk) {
    && m.completed <= completed
    && forall i :: i in completed ==> Finished(w, d, i)
  }

  /** How many visited files the sender has marked complete in this session. */
  function Marked(pc: SenderPc, n: nat): nat {
    match pc
    case SNext(t) => t
    case SSending(t, _) => t
    case SAwaitSum(t) => t
    case SDone => n
    case _ => 0
  }

  ghost predicate MarkedInv(w: World, m: Manifest, pc: SenderPc, completed: set<nat>) {
    forall k :: 0 <= k < Marked(pc, |Todo(w, m)|) && k < |Todo(w, m)| ==> Todo(w, m)[k] in completed
  }

  predicate SenderBounds(pc: SenderPc, n: nat) {
    match pc
    case SNext(t) => t <= n
    case SSending(t, _) => t < n
    case SAwaitSum(t) => t < n
    case _ => true
  }

  /** On files not started yet the bitmap says what the manifest said; after a failure it is empty, or lists chunks
      of the first incomplete file only. */
  ghost predicate BitmapInv(w: World, chunkSize: nat, m: Manifest, pc: SenderPc, completed: set<nat>,
        bitmap: map<nat, seq<nat>>)
    requires chunkSize > 0
  {
    var todo := Todo(w, m);
    && (m.resume.Some? ==> todo != [] && m.resume.value.file == todo[0])
    && (pc.SFailed? ==> if w.statePath then bitmap == map[] else FirstOnly(w, completed, bitmap))
    && (!pc.SFailed? ==> forall k :: Started(pc, |todo|) <= k < |todo| ==> SameClaims(w, chunkSize, m, bitmap, todo[k]))
  }

  /** No chunk is listed of an incomplete file behind another one. */
  ghost predicate FirstOnly(w: World, completed: set<nat>, bitmap: map<nat, seq<nat>>) {
    forall i: nat, j: nat :: i < j < |w.files| && i !in completed && j !in completed ==> BitmapOf(bitmap, j) == []
  }

  /** A bitmap that survives the session may meet another chunk size, so then every index counts. */
  ghost predicate SameClaims(w: World, chunkSize: nat, m: Manifest, bitmap: map<nat, seq<nat>>, file: nat)
    requires chunkSize > 0 && file < |w.files|
  {
    forall x: nat :: x < w.Count(file, chunkSize) || !w.statePath ==>
      (x in BitmapOf(bitmap, file) <==> x in Listed(m, file))
  }

  predicate ReceiverBounds(pc: ReceiverPc, n: nat) {
    match pc
    case RNext(t) => t <= n
    case RReceiving(t, _, _) => t < n
    case RFinalizing(t, _) => t < n
    case RSendSum(t, _) => t < n
    case RAwaitSum(t, _) => t < n
    case _ => true
  }

  ghost predicate InPending(wr: Writer, index: nat) {
    exists k :: 0 <= k < |wr.pending| && wr.pending[k].index == index
  }

  /** On disk, or handed to the writer and not written yet. */
  ghost predicate Covered(w: World, d: Disk, wr: Writer, index: nat) {
    InPending(wr, index) || HeldOn(w, d, wr.inode, wr.chunkSize, index)
  }

  ghost predicate LiveWriter(w: World, chunkSize: nat, d: Disk, file: nat, wr: Writer) {
    && GoodWriter(w, d, wr) && wr.file == file && wr.chunkSize == chunkSize
    && (file in d.partial ==> d.partial[file] == wr.inode)
  }

  /** A checksum the receiver reports: the source's only if the file is in place. */
  ghost predicate SumOk(w: World, d: Disk, file: nat, digest: Digest)
    requires file < |w.files|
  {
    && (w.trusted ==> digest == w.hash(w.files[file]))
    && (digest == w.hash(w.files[file]) ==> Finished(w, d, file))
  }

  ghost predicate LiveInv(w: World, chunkSize: nat, m: Manifest, pc: ReceiverPc, d: Disk)
    requires chunkSize > 0 && ReceiverBounds(pc, |Todo(w, m)|)
  {
    var todo := Todo(w, m);
    match pc
    case RReceiving(t, seen, wr) =>
      && LiveWriter(w, chunkSize, d, todo[t], wr) && !wr.finalize
      && seen <= Needed(w, m, chunkSize, todo[t])
      && forall x: nat :: x in seen || Relied(w, m, chunkSize, todo[t], x) ==> Covered(w, d, wr, x)
    case RFinalizing(t, wr) =>
      && LiveWriter(w, chunkSize, d, todo[t], wr) && wr.finalize
      && forall x: nat :: x in Needed(w, m, chunkSize, todo[t]) || Relied(w, m, chunkSize, todo[t], x) ==>
           Covered(w, d, wr, x)
    case RSendSum(t, digest) => SumOk(w, d, todo[t], digest)
    case RAwaitSum(t, digest) => SumOk(w, d, todo[t], digest)
    case _ => true
  }

  /** Before the resumed file is opened, every chunk relied on lies in its partial and nothing else runs. */
  ghost predicate ClaimsInv(w: World, chunkSize: nat, m: Manifest, pc: ReceiverPc, d: Disk, stragglers: seq<Writer>)
    requires chunkSize > 0
  {
    var todo := Todo(w, m);
    (pc.RAwaitInfo? || pc.RSendReady? || pc == RNext(0)) && todo != [] ==>
      forall x: nat :: Relied(w, m, chunkSize, todo[0], x) ==>
        stragglers == [] && todo[0] in d.partial && HeldOn(w, d, d.partial[todo[0]], chunkSize, x)
  }

  /** The receiver's past: the files it has confirmed are finished, and none but those it renamed was marked complete. */
  ghost predicate PastInv(w: World, m: Manifest, sure: nat, past: nat, completed: set<nat>, d: Disk) {
    var todo := Todo(w, m);
    && sure <= past <= |todo|
    && (forall k :: 0 <= k < sure ==> Finished(w, d, todo[k]))
    && forall i :: i in completed ==> i in m.completed || i in todo[..past]
  }

  ghost predicate ReceiverInv(w: World, chunkSize: nat, m: Manifest, completed: set<nat>, rcv: Receiver, d: Disk,
        stragglers: seq<Writer>)
    requires chunkSize > 0
  {
    && (!rcv.pc.RAwaitInfo? ==> rcv.manifest == m)
    && ReceiverBounds(rcv.pc, |Todo(w, m)|)
    && LiveInv(w, chunkSize, m, rcv.pc, d)
    && ClaimsInv(w, chunkSize, m, rcv.pc, d, stragglers)
    && PastInv(w, m, Confirmed(rcv.pc, |Todo(w, m)|), FinishedCount(rcv.pc, |Todo(w, m)|), completed, d)
  }

  /** Messages in flight to the sender are the receiver's: its opening, then a checksum per file. */
  ghost predicate ToSenderInv(w: World, m: Manifest, got: nat, r2s: seq<Msg>, d: Disk) {
    && got + |r2s| <= 1 + |Todo(w, m)|
    && forall k {:trigger r2s[k]} :: 0 <= k < |r2s| ==> Reported(w, m, got + k, r2s[k], d)
  }

  ghost predicate Reported(w: World, m: Manifest, n: nat, msg: Msg, d: Disk)
    requires n <= |Todo(w, m)|
  {
    if n == 0 then msg == Ready
    else msg.FileChecksum? && msg.file == Todo(w, m)[n - 1] && SumOk(w, d, Todo(w, m)[n - 1], msg.digest)
  }

  ghost predicate ToReceiverInv(w: World, m: Manifest, got: nat, s2r: seq<Msg>) {
    var todo := Todo(w, m);
    && got + |s2r| <= 2 + |todo|
    && forall k {:trigger s2r[k]} :: 0 <= k < |s2r| ==> s2r[k] == Script(w, todo, TransferInfo(m), got + k)
  }

  /** Everything sent is received or in flight, both ways. */
  predicate CountsInv(w: World, m: Manifest, spc: SenderPc, rpc: ReceiverPc, net: Net) {
    var n := |Todo(w, m)|;
    && RSent(rpc, n) == SGot(spc, n) + |net.r2s|
    && SSent(spc, n) == RGot(rpc, n) + |net.s2r|
  }

  /** Streams in flight are those of the file the receiver is at or about to open, and carry true
      chunks it needs, each once. */
  ghost predicate StreamsInv(w: World, chunkSize: nat, m: Manifest, rpc: ReceiverPc, uni: seq<UniStream>)
    requires chunkSize > 0
  {
    var todo := Todo(w, m);
    uni != [] ==>
      && Target(rpc).Some? && Target(rpc).value < |todo|
      && var file := todo[Target(rpc).value];
      && (forall k :: 0 <= k < |uni| ==> uni[k].origin == file && uni[k].chunks != [])
      && (forall k :: 0 <= k < |Flat(uni)| ==> TrueChunk(Flat(uni)[k], w.files[file], chunkSize))
      && Wanted(w, chunkSize, m, file, SeenOf(rpc), Idx(Flat(uni)))
  }

  /** Distinct chunk indices the receiver needs and has not seen. */
  ghost predicate Wanted(w: World, chunkSize: nat, m: Manifest, file: nat, seen: set<nat>, indices: seq<nat>)
    requires chunkSize > 0 && file < |w.files|
  {
    && Distinct(indices)
    && forall k :: 0 <= k < |indices| ==> indices[k] in Needed(w, m, chunkSize, file) && indices[k] !in seen
  }

  /** While a file is being sent, seen, in flight and unsent chunks make up exactly what it needs. */
  ghost predicate StockInv(w: World, chunkSize: nat, m: Manifest, spc: SenderPc, rpc: ReceiverPc, uni: seq<UniStream>)
    requires chunkSize > 0 && SenderBounds(spc, |Todo(w, m)|)
  {
    match spc
    case SSending(t, rest) => Stock(w, chunkSize, m, t, rest, rpc, uni)
    case SAwaitSum(t) => Stock(w, chunkSize, m, t, [], rpc, uni)
    case _ => uni == []
  }

  ghost predicate Stock(w: World, chunkSize: nat, m: Manifest, t: nat, rest: seq<nat>, rpc: ReceiverPc,
        uni: seq<UniStream>)
    requires chunkSize > 0 && t < |Todo(w, m)|
  {
    var file := Todo(w, m)[t];
    var out := Idx(Flat(uni)) + rest;
    if Target(rpc) == Some(t) then
      && Wanted(w, chunkSize, m, file, SeenOf(rpc), out)
      && |SeenOf(rpc)| + |out| == |Needed(w, m, chunkSize, file)|
    else rest == [] && uni == []
  }

  /** The receiver gets ahead of the sender only over a file that needs nothing. */
  ghost predicate AheadInv(w: World, chunkSize: nat, m: Manifest, spc: SenderPc, rpc: ReceiverPc)
    requires chunkSize > 0
  {
    var todo := Todo(w, m);
    && (forall t :: Finishing(rpc) == Some(t) && Started(spc, |todo|) <= t < |todo| ==> Needed(w, m, chunkSize, todo[t]) == {})
    && (forall t :: Target(rpc) == Some(t) && Started(spc, |todo|) <= t ==> SeenOf(rpc) == {})
  }

  ghost predicate NetInv(w: World, s: State)
    requires s.chunkSize > 0 && SenderBounds(s.snd.pc, |Todo(w, s.manifest)|)
  {
    && (SenderAlive(s) ==> ToSenderInv(w, s.manifest, SGot(s.snd.pc, |Todo(w, s.manifest)|), s.net.r2s, s.disk))
    && (ReceiverAlive(s) ==> ToReceiverInv(w, s.manifest, RGot(s.rcv.pc, |Todo(w, s.manifest)|), s.net.s2r)
                             && StreamsInv(w, s.chunkSize, s.manifest, s.rcv.pc, s.net.uni))
    && (SenderAlive(s) && ReceiverAlive(s) ==>
          && CountsInv(w, s.manifest, s.snd.pc, s.rcv.pc, s.net)
          && AheadInv(w, s.chunkSize, s.manifest, s.snd.pc, s.rcv.pc)
          && StockInv(w, s.chunkSize, s.manifest, s.snd.pc, s.rcv.pc, s.net.uni))
  }

  /** No other bytes share a source file's digest. */
  ghost predicate TellsApart(w: World) {
    forall i: nat, bytes :: i < |w.files| && w.hash(bytes) == w.hash(w.files[i]) ==> bytes == w.files[i]
  }

  /** What makes a completed file right: bitmaps that claim no more than the disk holds, or the checksums. */
  ghost predicate Assured(w: World) { if w.trusted then w.statePath else TellsApart(w) }

  ghost predicate Inv(w: World, s: State) {
    && s.chunkSize > 0 && Assured(w)
    && DiskInv(w, s.disk, s.stragglers)
    && CompletedInv(w, s.snd.completed, s.manifest, s.disk)
    && SenderBounds(s.snd.pc, |Todo(w, s.manifest)|)
    && MarkedInv(w, s.manifest, s.snd.pc, s.snd.completed)
    && BitmapInv(w, s.chunkSize, s.manifest, s.snd.pc, s.snd.completed, s.snd.bitmap)
    && (ReceiverAlive(s) ==> ReceiverInv(w, s.chunkSize, s.manifest, s.snd.completed, s.rcv, s.disk, s.stragglers))
    && NetInv(w, s)
  }
}
