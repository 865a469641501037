/** A transfer as a state machine: one sender and one receiver over FIFO channels, the receiver's
    disk, writer tasks that outlive an aborted session, and the retry loop around it all
    (core/src/session.rs, core/src/transfer_folder.rs, core/src/transfer_file.rs). */
module TransferModel {
  import opened Prelude
  import opened Chunks
  import opened ChunkWriting
  import opened FileSending
  import opened StreamAgreement

  /** What does not change: the source files, the hash, how many unread streams the transport
      buffers, the retry limit (0 = unlimited), and whether the sender has a state file. No step reads
      `trusted`: it says which of two guarantees a run is held to, see `Init`. */
  datatype World = World(files: seq<seq<byte>>, hash: seq<byte> -> Digest, window: nat, maxAttempts: nat,
                         statePath: bool, trusted: bool) {
    function Count(i: nat, chunkSize: nat): nat
      requires i < |files| && chunkSize > 0
    {
      ChunkCount(|files[i]|, chunkSize)
    }

    /** `should_retry`, for the attempt that just failed. */
    predicate ShouldRetry(attempt: nat) { maxAttempts == 0 || attempt + 1 < maxAttempts }
  }

  // ----- messages -----

  datatype Resume = Resume(file: nat, chunks: seq<nat>)

  /** The parts of `TransferInfo` that steer a session; sizes and paths are the world's. */
  datatype Manifest = Manifest(completed: set<nat>, resume: Option<Resume>)

  datatype Msg = TransferInfo(manifest: Manifest) | Ready | FileChecksum(file: nat, digest: Digest) | Complete

  /** A unidirectional stream, decoded; `origin` records which file the sender was on when it opened it. */
  datatype UniStream = UniStream(origin: nat, chunks: seq<Chunk>)

  // ----- state -----

  datatype SenderPc =
    | SStart
    | SAwaitReady
    | SNext(t: nat)
    | SSending(t: nat, rest: seq<nat>)
    | SAwaitSum(t: nat)
    | SDone
    | SFailed(recoverable: bool)

  /** The sender: its session position and the `FolderTransferState` kept across failures. */
  datatype Sender = Sender(pc: SenderPc, completed: set<nat>, bitmap: map<nat, seq<nat>>, attempt: nat)

  /** A background writer task: what it still has to write, and whether `Finalize` is queued. */
  datatype Writer = Writer(file: nat, inode: nat, chunkSize: nat, pending: seq<Chunk>, finalize: bool)

  datatype ReceiverPc =
    | RAwaitInfo
    | RSendReady
    | RNext(t: nat)
    | RReceiving(t: nat, seen: set<nat>, writer: Writer)
    | RFinalizing(t: nat, writer: Writer)
    | RSendSum(t: nat, digest: Digest)
    | RAwaitSum(t: nat, digest: Digest)
    | RDone
    | RFailed

  datatype Receiver = Receiver(pc: ReceiverPc, manifest: Manifest)

  /** A file on the receiver's disk; `owner` is the item whose name it was created under. */
  datatype Inode = Inode(owner: nat, bytes: seq<byte>)

  /** The receiver's disk: contents, and the names `<item>.partial` and `<item>`. */
  datatype Disk = Disk(inodes: map<nat, Inode>, partial: map<nat, nat>, final: map<nat, nat>)

  datatype Net = Net(s2r: seq<Msg>, r2s: seq<Msg>, uni: seq<UniStream>)

  /** `manifest` is the one computed when the session started; `chunkSize` is the session's. */
  datatype State = State(chunkSize: nat, manifest: Manifest, snd: Sender, rcv: Receiver, net: Net, disk: Disk,
                         stragglers: seq<Writer>)

  // ----- helpers the two sides share -----

  /** The files a session visits, in order. */
  function Todo(w: World, m: Manifest): (todo: seq<nat>)
    ensures forall k :: 0 <= k < |todo| ==> todo[k] < |w.files| && todo[k] !in m.completed
  {
    MissingFacts(|w.files|, m.completed, 0);
    var todo := Missing(|w.files|, m.completed, 0);
    assert forall k :: 0 <= k < |todo| ==> todo[k] in todo;
    todo
  }

  function BitmapOf(bitmap: map<nat, seq<nat>>, i: nat): seq<nat> {
    if i in bitmap then bitmap[i] else []
  }

  /** What the sender puts in `TransferInfo`: a resume point only for the first incomplete file. */
  function ManifestOf(w: World, completed: set<nat>, bitmap: map<nat, seq<nat>>): Manifest {
    var todo := Missing(|w.files|, completed, 0);
    var resume := if todo != [] && BitmapOf(bitmap, todo[0]) != []
                  then Some(Resume(todo[0], bitmap[todo[0]])) else None;
    Manifest(completed, resume)
  }

  /** The chunks the sender claims to have delivered for a file, as listed. */
  function Listed(m: Manifest, file: nat): seq<nat> {
    if m.resume.Some? && m.resume.value.file == file then m.resume.value.chunks else []
  }

  function ExpectedChunks(w: World, m: Manifest, chunkSize: nat, file: nat): nat
    requires chunkSize > 0 && file < |w.files|
  {
    Expected(w.Count(file, chunkSize), Listed(m, file))
  }

  function ChunkFrom(w: World, chunkSize: nat, file: nat, index: nat): Chunk
    requires chunkSize > 0 && file < |w.files|
  {
    Chunk(index, if index < w.Count(file, chunkSize) then ChunkAt(w.files[file], chunkSize, index) else [])
  }

  function ChunksFrom(w: World, chunkSize: nat, file: nat, indices: seq<nat>): (r: seq<Chunk>)
    requires chunkSize > 0 && file < |w.files|
    ensures |r| == |indices|
  {
    seq(|indices|, k requires 0 <= k < |indices| => ChunkFrom(w, chunkSize, file, indices[k]))
  }

  function IndexSet(chunks: seq<Chunk>): set<nat> { set k | 0 <= k < |chunks| :: chunks[k].index }

  /** Drop the chunks already seen, as the receive loop does. */
  function DropSeen(seen: set<nat>, chunks: seq<Chunk>): seq<Chunk> {
    if chunks == [] then [] else
    var init := DropSeen(seen, chunks[..|chunks| - 1]);
    var last := chunks[|chunks| - 1];
    if last.index in seen || last.index in IndexSet(chunks[..|chunks| - 1]) then init else init + [last]
  }

  /** The presence check on a file the sender marked complete: the final file if there is one, else the partial. */
  predicate Present(w: World, d: Disk, i: nat) {
    i < |w.files| &&
    if i in d.final then d.final[i] in d.inodes && |d.inodes[d.final[i]].bytes| == |w.files[i]|
    else i in d.partial && d.partial[i] in d.inodes && |d.inodes[d.partial[i]].bytes| == |w.files[i]|
  }

  predicate SkippedPresent(w: World, d: Disk, m: Manifest, bound: nat) {
    forall i :: i in m.completed && i < bound ==> Present(w, d, i)
  }

  // ----- disk operations -----

  function WriteFirst(d: Disk, wr: Writer): Disk
    requires wr.pending != []
  {
    if wr.inode !in d.inodes then d else
    var node := d.inodes[wr.inode];
    var c := wr.pending[0];
    d.(inodes := d.inodes[wr.inode := node.(bytes := WriteAt(node.bytes, c.index * wr.chunkSize, c.data))])
  }

  /** Open `<item>.partial`: the existing one, cut to the file size, or a new empty one. */
  function OpenPartial(w: World, d: Disk, i: nat, newNode: nat): Disk
    requires i < |w.files| && (i in d.partial ==> d.partial[i] in d.inodes)
  {
    if i in d.partial then
      var node := d.inodes[d.partial[i]];
      d.(inodes := d.inodes[d.partial[i] := node.(bytes := node.bytes[..Min(|node.bytes|, |w.files[i]|)])])
    else
      d.(inodes := d.inodes[newNode := Inode(i, [])], partial := d.partial[i := newNode])
  }

  /** What a partial holds once it is opened. */
  function PartialOf(w: World, d: Disk, i: nat): seq<byte>
    requires i < |w.files|
  {
    if i in d.partial && d.partial[i] in d.inodes
    then var bytes := d.inodes[d.partial[i]].bytes; bytes[..Min(|bytes|, |w.files[i]|)]
    else []
  }

  function Rename(d: Disk, i: nat): Disk {
    if i in d.partial then d.(final := d.final[i := d.partial[i]], partial := d.partial - {i}) else d
  }

  // ----- actions -----

  /** `FailsAfterWrite`: the last stream or message reaches the peer although its sending ends in an error. */
  datatype SenderAction =
    | SendInfo | GetReady | StartFile | Flush(n: nat) | SendSum | GetSum | SendComplete
    | SenderFails(recoverable: bool)
    | FailsAfterWrite(recoverable: bool, n: nat)

  predicate BreaksOff(a: SenderAction) { a.SenderFails? || a.FailsAfterWrite? }

  datatype ReceiverAction =
    | GetInfo | SendReady | OpenFile(newNode: nat) | Accept | EndReceive | WriteLive | FinalizeLive
    | SendRSum | GetRSum | GetComplete | ReceiverFails(keep: nat)

  datatype LoopAction = Retry(chunkSize: nat) | Rerun(chunkSize: nat, forget: bool)

  datatype StragglerAction = StragglerWrite(k: nat) | StragglerEnd(k: nat)

  datatype Action =
    | BySender(s: SenderAction) | ByReceiver(r: ReceiverAction) | ByLoop(l: LoopAction) | ByStraggler(t: StragglerAction)

  predicate SenderAlive(s: State) { !s.snd.pc.SFailed? }
  predicate ReceiverAlive(s: State) { !s.rcv.pc.RFailed? }
  predicate ReceiverEnded(s: State) { s.rcv.pc.RFailed? || s.rcv.pc.RDone? }

  predicate Live(s: State) { s.rcv.pc.RReceiving? || s.rcv.pc.RFinalizing? }

  predicate SenderEnabled(w: World, s: State, a: SenderAction) {
    var todo := Todo(w, s.manifest);
    s.chunkSize > 0 &&
    match a
    case SendInfo => s.snd.pc.SStart?
    case GetReady => s.snd.pc.SAwaitReady? && s.net.r2s != []
    case StartFile => s.snd.pc.SNext? && s.snd.pc.t < |todo|
    case Flush(n) => s.snd.pc.SSending? && s.snd.pc.t < |todo| && 0 < n <= |s.snd.pc.rest| && |s.net.uni| < w.window
    case SendSum => s.snd.pc.SSending? && s.snd.pc.t < |todo| && s.snd.pc.rest == []
    case GetSum => s.snd.pc.SAwaitSum? && s.snd.pc.t < |todo| && s.net.r2s != []
    case SendComplete => s.snd.pc.SNext? && s.snd.pc.t == |todo|
    case SenderFails(_) => !s.snd.pc.SFailed? && !s.snd.pc.SDone?
    case FailsAfterWrite(_, n) =>
      || (s.snd.pc.SSending? && s.snd.pc.t < |todo| && 0 < n <= |s.snd.pc.rest| && |s.net.uni| < w.window)
      || (s.snd.pc.SNext? && s.snd.pc.t == |todo|)
  }

  predicate ReceiverEnabled(w: World, s: State, a: ReceiverAction) {
    var rtodo := Todo(w, s.rcv.manifest);
    s.chunkSize > 0 &&
    match a
    case GetInfo => s.rcv.pc.RAwaitInfo? && s.net.s2r != []
    case SendReady => s.rcv.pc.RSendReady?
    case OpenFile(newNode) =>
      && s.rcv.pc.RNext? && s.rcv.pc.t < |rtodo| && newNode !in s.disk.inodes
      && (rtodo[s.rcv.pc.t] in s.disk.partial ==> s.disk.partial[rtodo[s.rcv.pc.t]] in s.disk.inodes)
    case Accept =>
      && s.rcv.pc.RReceiving? && s.rcv.pc.t < |rtodo| && s.net.uni != []
      && |s.rcv.pc.seen| < ExpectedChunks(w, s.rcv.manifest, s.chunkSize, rtodo[s.rcv.pc.t])
      && AllSized(s.net.uni[0].chunks, |w.files[rtodo[s.rcv.pc.t]]|, s.chunkSize)
    case EndReceive =>
      && s.rcv.pc.RReceiving? && s.rcv.pc.t < |rtodo|
      && |s.rcv.pc.seen| >= ExpectedChunks(w, s.rcv.manifest, s.chunkSize, rtodo[s.rcv.pc.t])
    case WriteLive => Live(s) && s.rcv.pc.writer.pending != []
    case FinalizeLive => s.rcv.pc.RFinalizing? && s.rcv.pc.writer.pending == []
    case SendRSum => s.rcv.pc.RSendSum? && s.rcv.pc.t < |rtodo|
    case GetRSum => s.rcv.pc.RAwaitSum? && s.rcv.pc.t < |rtodo| && s.net.s2r != []
    case GetComplete => s.rcv.pc.RNext? && s.rcv.pc.t == |rtodo| && s.net.s2r != []
    case ReceiverFails(keep) =>
      && !ReceiverEnded(s)
      && (s.rcv.pc.RReceiving? ==> keep <= |s.rcv.pc.writer.pending|)
  }

  predicate LoopEnabled(w: World, s: State, a: LoopAction) {
    s.chunkSize > 0 &&
    match a
    case Retry(cs) => cs > 0 && s.snd.pc == SFailed(true) && w.ShouldRetry(s.snd.attempt) && ReceiverEnded(s)
    case Rerun(cs, forget) => cs > 0 && (s.snd.pc.SFailed? || (s.snd.pc.SDone? && forget)) && ReceiverEnded(s)
  }

  predicate StragglerEnabled(w: World, s: State, a: StragglerAction) {
    s.chunkSize > 0 &&
    match a
    case StragglerWrite(k) => k < |s.stragglers| && s.stragglers[k].pending != []
    case StragglerEnd(k) => k < |s.stragglers| && s.stragglers[k].pending == []
  }

  predicate Enabled(w: World, s: State, a: Action) {
    match a
    case BySender(x) => SenderEnabled(w, s, x)
    case ByReceiver(x) => ReceiverEnabled(w, s, x)
    case ByLoop(x) => LoopEnabled(w, s, x)
    case ByStraggler(x) => StragglerEnabled(w, s, x)
  }

  /** Any error of `send`: the loop in `send_path` clears the chunk bitmaps, if there is a state file, and keeps the
      completed files. */
  function FailSender(w: World, s: State, recoverable: bool): State {
    s.(snd := s.snd.(pc := SFailed(recoverable), bitmap := if w.statePath then map[] else s.snd.bitmap))
  }

  /** The receive fails: its writer task keeps draining what it was already handed. */
  function FailReceiver(s: State, keep: nat): State
    requires s.rcv.pc.RReceiving? ==> keep <= |s.rcv.pc.writer.pending|
  {
    var left := match s.rcv.pc
                case RReceiving(_, _, wr) => [wr.(pending := wr.pending[..keep])]
                case RFinalizing(_, wr) => [wr]
                case _ => [];
    s.(rcv := s.rcv.(pc := RFailed), stragglers := s.stragglers + left)
  }

  function NewSession(w: World, s: State, chunkSize: nat, snd: Sender): State {
    s.(chunkSize := chunkSize, manifest := ManifestOf(w, snd.completed, snd.bitmap), snd := snd.(pc := SStart),
       rcv := Receiver(RAwaitInfo, Manifest({}, None)), net := Net([], [], []))
  }

  predicate Oversized(w: World) {
    |w.files| == 0 || exists i :: 0 <= i < |w.files| && |w.files[i]| > MAX_TRANSFER_FILE_SIZE
  }

  /** The next `n` chunks of file `i`, as one stream. */
  function StreamOf(w: World, s: State, i: nat, n: nat): UniStream
    requires s.chunkSize > 0 && i < |w.files| && s.snd.pc.SSending? && n <= |s.snd.pc.rest|
  {
    UniStream(i, ChunksFrom(w, s.chunkSize, i, s.snd.pc.rest[..n]))
  }

  function SenderApply(w: World, s: State, a: SenderAction): State
    requires SenderEnabled(w, s, a)
  {
    var todo := Todo(w, s.manifest);
    match a
    case SendInfo =>
      s.(snd := s.snd.(pc := SAwaitReady), net := s.net.(s2r := s.net.s2r + [TransferInfo(s.manifest)]))
    case GetReady =>
      var t := s.(net := s.net.(r2s := s.net.r2s[1..]));
      if s.net.r2s[0].Ready? then t.(snd := s.snd.(pc := SNext(0))) else FailSender(w, t, false)
    case StartFile =>
      var i := todo[s.snd.pc.t];
      var rest := Missing(w.Count(i, s.chunkSize), AsSet(BitmapOf(s.snd.bitmap, i)), 0);
      s.(snd := s.snd.(pc := SSending(s.snd.pc.t, rest)))
    case Flush(n) =>
      var i, rest := todo[s.snd.pc.t], s.snd.pc.rest;
      s.(snd := s.snd.(pc := SSending(s.snd.pc.t, rest[n..]),
                       bitmap := s.snd.bitmap[i := BitmapOf(s.snd.bitmap, i) + rest[..n]]),
         net := s.net.(uni := s.net.uni + [StreamOf(w, s, i, n)]))
    case SendSum =>
      var i := todo[s.snd.pc.t];
      s.(snd := s.snd.(pc := SAwaitSum(s.snd.pc.t)),
         net := s.net.(s2r := s.net.s2r + [FileChecksum(i, w.hash(w.files[i]))]))
    case GetSum =>
      var i := todo[s.snd.pc.t];
      var t := s.(net := s.net.(r2s := s.net.r2s[1..]));
      var m := s.net.r2s[0];
      if m.FileChecksum? && m.digest == w.hash(w.files[i])
      then t.(snd := s.snd.(pc := SNext(s.snd.pc.t + 1), completed := s.snd.completed + {i}))
      else FailSender(w, t, false)
    case SendComplete =>
      s.(snd := s.snd.(pc := SDone), net := s.net.(s2r := s.net.s2r + [Complete]))
    case SenderFails(recoverable) => FailSender(w, s, recoverable)
    case FailsAfterWrite(recoverable, n) =>
      var net := if s.snd.pc.SSending? then s.net.(uni := s.net.uni + [StreamOf(w, s, todo[s.snd.pc.t], n)])
                 else s.net.(s2r := s.net.s2r + [Complete]);
      FailSender(w, s.(net := net), recoverable)
  }

  function ReceiverApply(w: World, s: State, a: ReceiverAction): State
    requires ReceiverEnabled(w, s, a)
  {
    var rtodo := Todo(w, s.rcv.manifest);
    match a
    case GetInfo =>
      var t := s.(net := s.net.(s2r := s.net.s2r[1..]));
      var m := s.net.s2r[0];
      if !m.TransferInfo? || Oversized(w) then FailReceiver(t, 0)
      else t.(rcv := Receiver(RSendReady, m.manifest))
    case SendReady =>
      s.(rcv := s.rcv.(pc := RNext(0)), net := s.net.(r2s := s.net.r2s + [Ready]))
    case OpenFile(newNode) =>
      var i := rtodo[s.rcv.pc.t];
      if !SkippedPresent(w, s.disk, s.rcv.manifest, i) || w.Count(i, s.chunkSize) > MAX_CHUNKS_PER_FILE
         || s.chunkSize > MAX_CHUNK_SIZE then FailReceiver(s, 0)
      else
        var d := OpenPartial(w, s.disk, i, newNode);
        s.(rcv := s.rcv.(pc := RReceiving(s.rcv.pc.t, {}, Writer(i, d.partial[i], s.chunkSize, [], false))), disk := d)
    case Accept =>
      var pc, chunks := s.rcv.pc, s.net.uni[0].chunks;
      var wr := pc.writer.(pending := pc.writer.pending + DropSeen(pc.seen, chunks));
      s.(rcv := s.rcv.(pc := RReceiving(pc.t, pc.seen + IndexSet(chunks), wr)), net := s.net.(uni := s.net.uni[1..]))
    case EndReceive =>
      s.(rcv := s.rcv.(pc := RFinalizing(s.rcv.pc.t, s.rcv.pc.writer.(finalize := true))))
    case WriteLive =>
      var wr := s.rcv.pc.writer;
      s.(rcv := s.rcv.(pc := s.rcv.pc.(writer := wr.(pending := wr.pending[1..]))), disk := WriteFirst(s.disk, wr))
    case FinalizeLive =>
      var wr := s.rcv.pc.writer;
      if wr.file !in s.disk.partial || s.disk.partial[wr.file] !in s.disk.inodes
      then s.(rcv := s.rcv.(pc := RFailed))
      else
        var digest := w.hash(s.disk.inodes[s.disk.partial[wr.file]].bytes);
        s.(rcv := s.rcv.(pc := RSendSum(s.rcv.pc.t, digest)), disk := Rename(s.disk, wr.file))
    case SendRSum =>
      var pc := s.rcv.pc;
      s.(rcv := s.rcv.(pc := RAwaitSum(pc.t, pc.digest)),
         net := s.net.(r2s := s.net.r2s + [FileChecksum(rtodo[pc.t], pc.digest)]))
    case GetRSum =>
      var pc, m := s.rcv.pc, s.net.s2r[0];
      var t := s.(net := s.net.(s2r := s.net.s2r[1..]));
      if m.FileChecksum? && m.file == rtodo[pc.t] && m.digest == pc.digest
      then t.(rcv := s.rcv.(pc := RNext(pc.t + 1))) else FailReceiver(t, 0)
    case GetComplete =>
      var t := s.(net := s.net.(s2r := s.net.s2r[1..]));
      if s.net.s2r[0].Complete? && SkippedPresent(w, s.disk, s.rcv.manifest, |w.files|)
      then t.(rcv := s.rcv.(pc := RDone)) else FailReceiver(t, 0)
    case ReceiverFails(keep) => FailReceiver(s, keep)
  }

  function LoopApply(w: World, s: State, a: LoopAction): State
    requires LoopEnabled(w, s, a)
  {
    match a
    case Retry(cs) => NewSession(w, s, cs, s.snd.(attempt := s.snd.attempt + 1))
    case Rerun(cs, forget) =>
      NewSession(w, s, cs, if forget then Sender(SStart, {}, map[], 0) else s.snd.(attempt := 0))
  }

  function StragglerApply(w: World, s: State, a: StragglerAction): State
    requires StragglerEnabled(w, s, a)
  {
    match a
    case StragglerWrite(k) =>
      var wr := s.stragglers[k];
      s.(stragglers := s.stragglers[k := wr.(pending := wr.pending[1..])], disk := WriteFirst(s.disk, wr))
    case StragglerEnd(k) =>
      var wr := s.stragglers[k];
      s.(stragglers := s.stragglers[..k] + s.stragglers[k + 1..],
         disk := if wr.finalize then Rename(s.disk, wr.file) else s.disk)
  }

  function Apply(w: World, s: State, a: Action): State
    requires Enabled(w, s, a)
  {
    match a
    case BySender(x) => SenderApply(w, s, x)
    case ByReceiver(x) => ReceiverApply(w, s, x)
    case ByLoop(x) => LoopApply(w, s, x)
    case ByStraggler(x) => StragglerApply(w, s, x)
  }
}
