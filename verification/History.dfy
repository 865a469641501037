/** The on-disk transfer history: processes append records under a file lock and may die at any step
    (core/src/history.rs). */
module History {
  import opened Prelude

  type Bytes = seq<byte>

  /** A finished transfer's record; nothing here depends on its fields. */
  datatype Record = Record(transferId: nat, payload: Bytes)

  /** JSON as the history uses it: rendering and parsing, inverse to each other on what was rendered. */
  datatype Json = Json(render: seq<Record> -> Bytes, parse: Bytes -> Option<seq<Record>>) {
    ghost predicate Lawful() {
      forall h: seq<Record> :: render(h) != [] && parse(render(h)) == Some(h)
    }
  }

  datatype File = File(bytes: Bytes, synced: bool)

  /** What reading the file yields: nothing for a missing or an empty one, and for one that does not parse. */
  function Loaded(json: Json, file: Option<File>): seq<Record> {
    if file.None? || file.value.bytes == [] then []
    else match json.parse(file.value.bytes) case Some(h) => h case None => []
  }

  predicate IsCorrupt(json: Json, file: Option<File>) {
    file.Some? && file.value.bytes != [] && json.parse(file.value.bytes).None?
  }

  // ----- one process alone -----

  class Folder {
    var history: Option<File>
    var tmp: Option<File>
    var quarantined: seq<Bytes>

    /** A history that does not parse is moved aside, never lost. */
    method LoadOrQuarantine(json: Json) returns (h: seq<Record>)
      modifies this
      ensures h == Loaded(json, old(history)) && tmp == old(tmp)
      ensures IsCorrupt(json, old(history)) ==>
                history == None && quarantined == old(quarantined) + [old(history).value.bytes]
      ensures !IsCorrupt(json, old(history)) ==> history == old(history) && quarantined == old(quarantined)
      ensures old(history).None? || old(history).value.bytes == [] ==> h == [] && history == old(history)
      ensures old(history).Some? && old(history).value.bytes != [] ==>
                match json.parse(old(history).value.bytes)
                case Some(records) => h == records && history == old(history)
                case None => h == [] && history == None && quarantined == old(quarantined) + [old(history).value.bytes]
    {
      if history.None? {
        return [];
      }
      var buf := history.value.bytes;
      if buf == [] {
        return [];
      }
      match json.parse(buf)
      case Some(records) => h := records;
      case None =>
        quarantined := quarantined + [buf];
        history := None;
        h := [];
    }

    method AppendRecordLocked(json: Json, record: Record)
      modifies this
      ensures history == Some(File(json.render(Loaded(json, old(history)) + [record]), true)) && tmp == None
      ensures quarantined ==
              old(quarantined) + if IsCorrupt(json, old(history)) then [old(history).value.bytes] else []
      ensures old(history).None? || old(history).value.bytes == [] ==> history == Some(File(json.render([record]), true))
      ensures old(history).Some? && old(history).value.bytes != [] ==>
                match json.parse(old(history).value.bytes)
                case Some(records) =>
                  history == Some(File(json.render(records + [record]), true)) && quarantined == old(quarantined)
                case None =>
                  && history == Some(File(json.render([record]), true))
                  && quarantined == old(quarantined) + [old(history).value.bytes]
    {
      var h := LoadOrQuarantine(json);
      assert h == [] ==> h + [record] == [record];
      var data := json.render(h + [record]);
      tmp := Some(File([], false));
      tmp := Some(File(data, false));
      tmp := Some(File(data, true));
      history, tmp := tmp, None;
    }
  }

  // ----- many processes -----

  /** Where a call of `append_record_locked` is. `Opened` has yet to get the lock; from `Locked` to `Renamed` it
      has it. `Dead` is a process that was killed. */
  datatype Pc =
    | Opened
    | Locked
    | Corrupt
    | Read(data: Bytes)
    | Writing(data: Bytes, done: nat)
    | Written(data: Bytes)
    | Synced(data: Bytes)
    | Renamed
    | Returned(ok: bool)
    | Dead

  datatype Call = Call(record: Record, pc: Pc)

  /** `locks` logs who got the lock, `committed` whose rename took effect, in order. */
  datatype State = State(history: Option<File>, tmp: Option<File>, quarantined: seq<Bytes>, lock: Option<nat>,
                         calls: map<nat, Call>, locks: seq<nat>, committed: seq<nat>)

  datatype Action =
    | Start(id: nat, record: Record)
    | Lock(id: nat)
    | Load(id: nat)
    | Quarantine(id: nat)
    | Truncate(id: nat)
    | WriteSome(id: nat, count: nat)
    | Sync(id: nat)
    | Rename(id: nat)
    | Unlock(id: nat)
    | Fail(id: nat)
    | Kill(id: nat)
    | PowerLoss(garbage: Bytes)

  predicate Holds(pc: Pc) { !pc.Opened? && !pc.Returned? && !pc.Dead? }

  predicate Enabled(s: State, a: Action) {
    match a
    case Start(id, _) => id !in s.calls
    case Lock(id) => id in s.calls && s.calls[id].pc.Opened? && s.lock == None
    case Load(id) => id in s.calls && s.calls[id].pc.Locked?
    case Quarantine(id) => id in s.calls && s.calls[id].pc.Corrupt? && s.history.Some?
    case Truncate(id) => id in s.calls && s.calls[id].pc.Read?
    case WriteSome(id, count) => id in s.calls && s.calls[id].pc.Writing? && s.tmp.Some?
                                 && 0 < count <= |s.calls[id].pc.data| - s.calls[id].pc.done
    case Sync(id) => id in s.calls && s.calls[id].pc.Written? && s.tmp.Some?
    case Rename(id) => id in s.calls && s.calls[id].pc.Synced? && s.tmp.Some?
    case Unlock(id) => id in s.calls && s.calls[id].pc.Renamed?
    case Fail(id) => id in s.calls && (s.calls[id].pc.Opened? || (Holds(s.calls[id].pc) && !s.calls[id].pc.Renamed?))
    case Kill(id) => id in s.calls && (s.calls[id].pc.Opened? || Holds(s.calls[id].pc))
    case PowerLoss(_) => true
  }

  function Goto(s: State, id: nat, pc: Pc): State
    requires id in s.calls
  {
    s.(calls := s.calls[id := s.calls[id].(pc := pc)])
  }

  /** The system releases the lock when its holder's file handle goes away. */
  function Released(s: State, id: nat): State {
    if s.lock == Some(id) then s.(lock := None) else s
  }

  function AfterLoad(json: Json, s: State, id: nat): Pc
    requires id in s.calls
  {
    if IsCorrupt(json, s.history) then Corrupt else Read(json.render(Loaded(json, s.history) + [s.calls[id].record]))
  }

  /** Bytes never synced may be anything after the power fails. */
  function Torn(file: Option<File>, garbage: Bytes): Option<File> {
    if file.Some? && !file.value.synced then Some(File(garbage, true)) else file
  }

  function Apply(json: Json, s: State, a: Action): State
    requires Enabled(s, a)
  {
    match a
    case Start(id, record) => s.(calls := s.calls[id := Call(record, Opened)])
    case Lock(id) => Goto(s.(lock := Some(id), locks := s.locks + [id]), id, Locked)
    case Load(id) => Goto(s, id, AfterLoad(json, s, id))
    case Quarantine(id) =>
      Goto(s.(quarantined := s.quarantined + [s.history.value.bytes], history := None), id,
           Read(json.render([s.calls[id].record])))
    case Truncate(id) => Goto(s.(tmp := Some(File([], false))), id, Writing(s.calls[id].pc.data, 0))
    case WriteSome(id, count) =>
      var pc := s.calls[id].pc;
      var done := pc.done + count;
      Goto(s.(tmp := Some(File(s.tmp.value.bytes + pc.data[pc.done..done], false))), id,
           if done == |pc.data| then Written(pc.data) else Writing(pc.data, done))
    case Sync(id) => Goto(s.(tmp := Some(s.tmp.value.(synced := true))), id, Synced(s.calls[id].pc.data))
    case Rename(id) => Goto(s.(history := s.tmp, tmp := None, committed := s.committed + [id]), id, Renamed)
    case Unlock(id) => Goto(Released(s, id), id, Returned(true))
    case Fail(id) => Goto(Released(s, id), id, Returned(false))
    case Kill(id) => Goto(Released(s, id), id, Dead)
    case PowerLoss(garbage) =>
      s.(lock := None, history := Torn(s.history, garbage), tmp := Torn(s.tmp, garbage),
         calls := map id | id in s.calls :: if s.calls[id].pc.Returned? then s.calls[id] else s.calls[id].(pc := Dead))
  }

  // ----- the invariant -----

  function Records(s: State, ids: seq<nat>): seq<Record> {
    if ids == [] then []
    else Records(s, ids[..|ids| - 1]) + (if ids[|ids| - 1] in s.calls then [s.calls[ids[|ids| - 1]].record] else [])
  }

  /** The elements of a sequence that are in the set, in order. */
  function Those(ids: seq<nat>, keep: set<nat>): seq<nat> {
    if ids == [] then []
    else Those(ids[..|ids| - 1], keep) + (if ids[|ids| - 1] in keep then [ids[|ids| - 1]] else [])
  }

  /** What the history file stands for: the records before, and one for each committed call, in order. */
  ghost predicate FileInv(json: Json, start: Option<File>, s: State) {
    if s.committed != [] then
      s.history == Some(File(json.render(Loaded(json, start) + Records(s, s.committed)), true))
    else
      s.history == start || (s.history == None && IsCorrupt(json, start))
  }

  /** A corrupt file is moved aside before anything takes its place, and nothing else ever is. */
  ghost predicate AsideInv(json: Json, start: Option<File>, s: State) {
    s.quarantined == if IsCorrupt(json, start) && (s.committed != [] || s.history == None) then [start.value.bytes] else []
  }

  /** One call holds the lock, and it is the last that got it. */
  ghost predicate LockInv(s: State) {
    && (forall id :: id in s.calls && Holds(s.calls[id].pc) ==> s.lock == Some(id))
    && (s.lock.Some? ==> s.lock.value in s.calls && Holds(s.calls[s.lock.value].pc)
                         && s.locks != [] && s.locks[|s.locks| - 1] == s.lock.value)
    && (forall id :: id in s.locks ==> id in s.calls && !s.calls[id].pc.Opened?)
    && Distinct(s.locks)
  }

  ghost predicate CommitInv(s: State) {
    && s.committed == Those(s.locks, AsSet(s.committed))
    && (forall id :: id in s.calls ==> CommitOk(s, id, s.calls[id].pc))
    && (forall id :: id in s.committed ==> id in s.calls)
    && Distinct(s.committed)
  }

  ghost predicate CommitOk(s: State, id: nat, pc: Pc) {
    match pc
    case Renamed => id in s.committed
    case Returned(ok) => id in s.committed <==> ok
    case Dead => true
    case _ => id !in s.committed
  }

  /** The holder of the lock is about to write the file's records and its own, and the temporary file has what
      it wrote so far. */
  ghost predicate HolderInv(json: Json, start: Option<File>, s: State) {
    forall id :: id in s.calls ==> HolderOk(json, start, s, s.calls[id])
  }

  ghost predicate HolderOk(json: Json, start: Option<File>, s: State, c: Call) {
    var data := json.render(Loaded(json, start) + Records(s, s.committed) + [c.record]);
    match c.pc
    case Corrupt => IsCorrupt(json, s.history) && s.committed == [] && s.history == start
    case Read(d) => d == data && !IsCorrupt(json, s.history)
    case Writing(d, done) => d == data && !IsCorrupt(json, s.history) && done < |d| && s.tmp == Some(File(d[..done], false))
    case Written(d) => d == data && !IsCorrupt(json, s.history) && s.tmp == Some(File(d, false))
    case Synced(d) => d == data && !IsCorrupt(json, s.history) && s.tmp == Some(File(d, true))
    case _ => true
  }

  ghost predicate Inv(json: Json, start: Option<File>, s: State) {
    FileInv(json, start, s) && AsideInv(json, start, s) && LockInv(s) && CommitInv(s) && HolderInv(json, start, s)
  }

  lemma {:induction false} RecordsStay(s: State, t: State, ids: seq<nat>)
    requires forall id :: id in ids ==> id in s.calls && id in t.calls && t.calls[id].record == s.calls[id].record
    ensures Records(s, ids) == Records(t, ids)
    decreases |ids|
  {
    if ids != [] {
      RecordsStay(s, t, ids[..|ids| - 1]);
    }
  }

  lemma {:induction false} ThoseWithout(ids: seq<nat>, keep: set<nat>, id: nat)
    requires id !in ids
    ensures Those(ids, keep + {id}) == Those(ids, keep)
  {
    if ids != [] {
      ThoseWithout(ids[..|ids| - 1], keep, id);
    }
  }

  /** A step of call `id` that neither commits nor touches the history. */
  ghost predicate Quiet(s: State, t: State, id: nat) {
    && id in s.calls && id in t.calls && t.calls == s.calls[id := s.calls[id].(pc := t.calls[id].pc)]
    && t.history == s.history && t.committed == s.committed && t.locks == s.locks
    && s.quarantined == t.quarantined && CommitOk(t, id, t.calls[id].pc)
    && !t.calls[id].pc.Opened?
  }

  /** The others are not in the critical section, so nothing they rely on changes. */
  lemma QuietKeeps(json: Json, start: Option<File>, s: State, t: State, id: nat)
    requires Inv(json, start, s) && Quiet(s, t, id) && Holds(s.calls[id].pc)
    requires if Holds(t.calls[id].pc) then t.lock == s.lock && HolderOk(json, start, t, t.calls[id]) else t.lock == None
    ensures Inv(json, start, t)
  {
    RecordsStay(s, t, s.committed);
    forall i | i in t.calls
      ensures HolderOk(json, start, t, t.calls[i])
    {
      if i != id {
        assert HolderOk(json, start, s, s.calls[i]) && !Holds(t.calls[i].pc);
      }
    }
    forall i | i in t.calls
      ensures CommitOk(t, i, t.calls[i].pc)
    {
      assert CommitOk(s, i, s.calls[i].pc);
    }
  }

  lemma QuietStepKeeps(json: Json, start: Option<File>, s: State, a: Action)
    requires json.Lawful() && Inv(json, start, s) && Enabled(s, a)
    requires a.Load? || a.Truncate? || a.WriteSome? || a.Sync? || a.Unlock?
    ensures Inv(json, start, Apply(json, s, a))
  {
    RecordsStay(s, Apply(json, s, a), s.committed);
    assert HolderOk(json, start, s, s.calls[a.id]);
    QuietStep(json, s, a);
    if a.Load? {
      LoadIsRight(json, start, s, a.id);
    } else {
      HolderGoesOn(json, start, s, a);
    }
    QuietKeeps(json, start, s, Apply(json, s, a), a.id);
  }

  lemma QuietStep(json: Json, s: State, a: Action)
    requires LockInv(s) && CommitInv(s) && Enabled(s, a)
    requires a.Load? || a.Truncate? || a.WriteSome? || a.Sync? || a.Unlock?
    ensures var t := Apply(json, s, a);
            Quiet(s, t, a.id) && t.lock == if Holds(t.calls[a.id].pc) then s.lock else None
  {
    assert CommitOk(s, a.id, s.calls[a.id].pc);
  }

  /** Truncating, writing, syncing: the file has what has been written so far. */
  lemma HolderGoesOn(json: Json, start: Option<File>, s: State, a: Action)
    requires json.Lawful() && Enabled(s, a) && (a.Truncate? || a.WriteSome? || a.Sync? || a.Unlock?)
    requires HolderOk(json, start, s, s.calls[a.id])
    requires Records(Apply(json, s, a), s.committed) == Records(s, s.committed)
    ensures HolderOk(json, start, Apply(json, s, a), Apply(json, s, a).calls[a.id])
  {
    var records := Loaded(json, start) + Records(s, s.committed) + [s.calls[a.id].record];
    assert json.render(records) != [];
    if a.WriteSome? {
      WrittenSoFar(s.calls[a.id].pc.data, s.calls[a.id].pc.done, a.count);
    }
  }

  lemma WrittenSoFar(data: Bytes, done: nat, count: nat)
    requires done + count <= |data|
    ensures data[..done] + data[done..done + count] == data[..done + count]
    ensures done + count == |data| ==> data[..done + count] == data
  {
  }

  /** What is loaded is what the file stands for. */
  lemma LoadIsRight(json: Json, start: Option<File>, s: State, id: nat)
    requires json.Lawful() && FileInv(json, start, s) && id in s.calls
    ensures match AfterLoad(json, s, id)
            case Corrupt => s.committed == [] && s.history == start && IsCorrupt(json, start)
            case Read(d) =>
              && d == json.render(Loaded(json, start) + Records(s, s.committed) + [s.calls[id].record])
              && !IsCorrupt(json, s.history)
            case _ => false
  {
    if s.committed == [] {
      assert Loaded(json, start) + [] == Loaded(json, start);
      assert s.history == None && IsCorrupt(json, start) ==> Loaded(json, start) == [];
    } else {
      var h := Loaded(json, start) + Records(s, s.committed);
      assert json.parse(json.render(h)) == Some(h) && json.render(h) != [];
    }
  }

  lemma StopKeeps(json: Json, start: Option<File>, s: State, a: Action)
    requires Inv(json, start, s) && Enabled(s, a) && (a.Fail? || a.Kill?)
    ensures Inv(json, start, Apply(json, s, a))
  {
    var t := Apply(json, s, a);
    assert CommitOk(s, a.id, s.calls[a.id].pc);
    if Holds(s.calls[a.id].pc) {
      QuietKeeps(json, start, s, t, a.id);
    } else {
      OpenedKeeps(json, start, s, t, a.id);
    }
  }

  /** A call that is not in the critical section, and does not enter it. */
  lemma OpenedKeeps(json: Json, start: Option<File>, s: State, t: State, id: nat)
    requires Inv(json, start, s) && id !in s.committed && id !in s.locks
    requires id in t.calls && !Holds(t.calls[id].pc) && t.calls == s.calls[id := t.calls[id]]
    requires t == s.(calls := t.calls) && (id in s.calls ==> !Holds(s.calls[id].pc))
    requires CommitOk(t, id, t.calls[id].pc)
    ensures Inv(json, start, t)
  {
    RecordsStay(s, t, s.committed);
    forall i | i in t.calls
      ensures HolderOk(json, start, t, t.calls[i]) && CommitOk(t, i, t.calls[i].pc)
    {
      if i != id {
        assert HolderOk(json, start, s, s.calls[i]) && CommitOk(s, i, s.calls[i].pc);
      }
    }
  }

  lemma LockKeeps(json: Json, start: Option<File>, s: State, id: nat)
    requires Inv(json, start, s) && Enabled(s, Lock(id))
    ensures Inv(json, start, Apply(json, s, Lock(id)))
  {
    var t := Apply(json, s, Lock(id));
    assert CommitOk(s, id, s.calls[id].pc);
    RecordsStay(s, t, s.committed);
    assert t.locks[..|t.locks| - 1] == s.locks;
    forall i | i in t.calls
      ensures HolderOk(json, start, t, t.calls[i]) && CommitOk(t, i, t.calls[i].pc)
    {
      if i != id {
        assert HolderOk(json, start, s, s.calls[i]) && CommitOk(s, i, s.calls[i].pc);
      }
    }
  }

  lemma QuarantineKeeps(json: Json, start: Option<File>, s: State, id: nat)
    requires Inv(json, start, s) && Enabled(s, Quarantine(id))
    ensures Inv(json, start, Apply(json, s, Quarantine(id)))
  {
    var t := Apply(json, s, Quarantine(id));
    assert HolderOk(json, start, s, s.calls[id]) && CommitOk(s, id, s.calls[id].pc);
    assert Loaded(json, start) + Records(s, []) + [s.calls[id].record] == [s.calls[id].record];
    forall i | i in t.calls
      ensures HolderOk(json, start, t, t.calls[i]) && CommitOk(t, i, t.calls[i].pc)
    {
      if i != id {
        assert !Holds(s.calls[i].pc) && CommitOk(s, i, s.calls[i].pc);
      }
    }
  }

  lemma RenameKeeps(json: Json, start: Option<File>, s: State, id: nat)
    requires Inv(json, start, s) && Enabled(s, Rename(id))
    ensures Inv(json, start, Apply(json, s, Rename(id)))
  {
    assert HolderOk(json, start, s, s.calls[id]) && CommitOk(s, id, s.calls[id].pc);
    RenameFile(json, start, s, id);
    RenameCommits(s, Apply(json, s, Rename(id)), id);
    RenameOthers(json, start, s, id);
  }

  lemma RenameOthers(json: Json, start: Option<File>, s: State, id: nat)
    requires LockInv(s) && Enabled(s, Rename(id))
    ensures HolderInv(json, start, Apply(json, s, Rename(id)))
  {
    var t := Apply(json, s, Rename(id));
    forall i | i in t.calls
      ensures HolderOk(json, start, t, t.calls[i])
    {
      assert i != id ==> t.calls[i] == s.calls[i] && !Holds(s.calls[i].pc);
    }
  }

  lemma RenameCommits(s: State, t: State, id: nat)
    requires LockInv(s) && CommitInv(s) && id in s.calls && s.calls[id].pc.Synced?
    requires t.calls == s.calls[id := s.calls[id].(pc := Renamed)] && t.committed == s.committed + [id]
    requires t.locks == s.locks && t.lock == s.lock
    ensures LockInv(t) && CommitInv(t)
  {
    assert CommitOk(s, id, s.calls[id].pc);
    RenameLogs(s, id);
    forall i | i in t.calls
      ensures CommitOk(t, i, t.calls[i].pc)
    {
      assert CommitOk(s, i, s.calls[i].pc);
    }
  }

  lemma RenameFile(json: Json, start: Option<File>, s: State, id: nat)
    requires CommitInv(s) && Enabled(s, Rename(id)) && HolderOk(json, start, s, s.calls[id])
    requires FileInv(json, start, s) && AsideInv(json, start, s)
    ensures FileInv(json, start, Apply(json, s, Rename(id))) && AsideInv(json, start, Apply(json, s, Rename(id)))
  {
    var t := Apply(json, s, Rename(id));
    assert t.committed[..|t.committed| - 1] == s.committed;
    RecordsStay(s, t, s.committed);
    var base := Loaded(json, start);
    assert base + Records(t, t.committed) == base + Records(s, s.committed) + [s.calls[id].record];
  }

  /** The last to get the lock is the last to commit. */
  lemma RenameLogs(s: State, id: nat)
    requires LockInv(s) && CommitInv(s) && s.lock == Some(id) && id !in s.committed
    ensures s.committed + [id] == Those(s.locks, AsSet(s.committed + [id]))
  {
    var n := |s.locks| - 1;
    assert id !in s.locks[..n];
    ThoseWithout(s.locks[..n], AsSet(s.committed), id);
    assert AsSet(s.committed + [id]) == AsSet(s.committed) + {id};
  }

  lemma PowerLossKeeps(json: Json, start: Option<File>, s: State, garbage: Bytes)
    requires Inv(json, start, s) && (start.Some? ==> start.value.synced)
    ensures Inv(json, start, Apply(json, s, PowerLoss(garbage)))
  {
    var t := Apply(json, s, PowerLoss(garbage));
    RecordsStay(s, t, s.committed);
    PowerLossCalls(s, t);
    assert t.history == s.history;
    forall i | i in t.calls
      ensures HolderOk(json, start, t, t.calls[i])
    {
      assert t.calls[i].pc.Returned? || t.calls[i].pc.Dead?;
    }
  }

  lemma PowerLossCalls(s: State, t: State)
    requires LockInv(s) && CommitInv(s) && t.calls.Keys == s.calls.Keys && t.lock == None
    requires forall i :: i in s.calls ==>
               t.calls[i] == if s.calls[i].pc.Returned? then s.calls[i] else s.calls[i].(pc := Dead)
    requires t.locks == s.locks && t.committed == s.committed
    ensures LockInv(t) && CommitInv(t)
  {
    forall i | i in t.calls
      ensures CommitOk(t, i, t.calls[i].pc)
    {
      assert CommitOk(s, i, s.calls[i].pc);
    }
  }

  lemma StepKeeps(json: Json, start: Option<File>, s: State, a: Action)
    requires json.Lawful() && (start.Some? ==> start.value.synced)
    requires Inv(json, start, s) && Enabled(s, a)
    ensures Inv(json, start, Apply(json, s, a))
  {
    match a
    case Start(id, _) => OpenedKeeps(json, start, s, Apply(json, s, a), id);
    case Lock(id) => LockKeeps(json, start, s, id);
    case Quarantine(id) => QuarantineKeeps(json, start, s, id);
    case Rename(id) => RenameKeeps(json, start, s, id);
    case Fail(_) => StopKeeps(json, start, s, a);
    case Kill(_) => StopKeeps(json, start, s, a);
    case PowerLoss(garbage) => PowerLossKeeps(json, start, s, garbage);
    case _ => QuietStepKeeps(json, start, s, a);
  }

  // ----- every run -----

  function Begin(start: Option<File>): State { State(start, None, [], None, map[], [], []) }

  ghost predicate Runs(json: Json, s: State, actions: seq<Action>, t: State)
    decreases |actions|
  {
    if actions == [] then s == t
    else Enabled(s, actions[0]) && Runs(json, Apply(json, s, actions[0]), actions[1..], t)
  }

  lemma {:induction false} RunKeeps(json: Json, start: Option<File>, s: State, actions: seq<Action>, t: State)
    requires json.Lawful() && (start.Some? ==> start.value.synced)
    requires Inv(json, start, s) && Runs(json, s, actions, t)
    ensures Inv(json, start, t)
    decreases |actions|
  {
    if actions != [] {
      StepKeeps(json, start, s, actions[0]);
      RunKeeps(json, start, Apply(json, s, actions[0]), actions[1..], t);
    }
  }

  /** Once a call committed, the file is the rendering of what it held at the start followed by one record for
      each committed call, in the order they got the lock, whoever failed, was killed or lost power. */
  lemma FileIsTheLog(json: Json, start: Option<File>, actions: seq<Action>, t: State)
    requires json.Lawful() && (start.Some? ==> start.value.synced) && Runs(json, Begin(start), actions, t)
    ensures t.committed != [] ==>
              t.history == Some(File(json.render(Loaded(json, start) + Records(t, t.committed)), true))
    ensures t.committed == [] ==>
              t.history == start || (t.history == None && IsCorrupt(json, start) && start.value.bytes in t.quarantined)
    ensures t.committed == Those(t.locks, AsSet(t.committed))
  {
    RunKeeps(json, start, Begin(start), actions, t);
  }

  /** From an absent or parseable start the file is never anything but absent or complete. */
  lemma FileIsNeverTorn(json: Json, start: Option<File>, actions: seq<Action>, t: State)
    requires json.Lawful() && (start.Some? ==> start.value.synced) && Runs(json, Begin(start), actions, t)
    requires !IsCorrupt(json, start)
    ensures !IsCorrupt(json, t.history) && Loaded(json, t.history) == Loaded(json, start) + Records(t, t.committed)
    ensures start.Some? ==> t.history.Some?
  {
    RunKeeps(json, start, Begin(start), actions, t);
    var h := Loaded(json, start) + Records(t, t.committed);
    assert json.parse(json.render(h)) == Some(h) && json.render(h) != [];
    if t.committed == [] {
      assert h == Loaded(json, start);
    }
  }

  /** Every call that returned success is in the log exactly once; one that returned an error is not; and one
      that was killed is in at most once. */
  lemma SuccessIsRecordedOnce(json: Json, start: Option<File>, actions: seq<Action>, t: State, id: nat)
    requires json.Lawful() && (start.Some? ==> start.value.synced) && Runs(json, Begin(start), actions, t)
    requires id in t.calls
    ensures t.calls[id].pc == Returned(true) ==> multiset(t.committed)[id] == 1
    ensures t.calls[id].pc == Returned(false) ==> multiset(t.committed)[id] == 0
    ensures multiset(t.committed)[id] <= 1
  {
    RunKeeps(json, start, Begin(start), actions, t);
    assert CommitOk(t, id, t.calls[id].pc);
    CountOnce(t.committed, id);
  }

  lemma {:induction false} CountOnce(ids: seq<nat>, id: nat)
    requires Distinct(ids)
    ensures multiset(ids)[id] == if id in ids then 1 else 0
    decreases |ids|
  {
    if ids != [] {
      var n := |ids| - 1;
      CountOnce(ids[..n], id);
      assert ids == ids[..n] + [ids[n]];
    }
  }

  /** Linearizable: a call that returned success before another one started has its record first, and the log
      only ever grows at the end. */
  lemma {:induction false} LogGrows(json: Json, s: State, actions: seq<Action>, t: State)
    requires Runs(json, s, actions, t)
    ensures s.committed <= t.committed
    decreases |actions|
  {
    if actions != [] {
      LogGrows(json, Apply(json, s, actions[0]), actions[1..], t);
    }
  }

  lemma EarlierCallIsFirst(json: Json, start: Option<File>, before: seq<Action>, s: State, after: seq<Action>, t: State,
                           i: nat, j: nat)
    requires json.Lawful() && (start.Some? ==> start.value.synced)
    requires Runs(json, Begin(start), before, s) && Runs(json, s, after, t)
    requires i in s.calls && s.calls[i].pc == Returned(true) && j !in s.calls && j in t.committed
    ensures exists m, n :: 0 <= m < n < |t.committed| && t.committed[m] == i && t.committed[n] == j
  {
    RunKeeps(json, start, Begin(start), before, s);
    LogGrows(json, s, after, t);
    assert CommitOk(s, i, s.calls[i].pc);
    var m :| 0 <= m < |s.committed| && s.committed[m] == i;
    var n :| 0 <= n < |t.committed| && t.committed[n] == j;
    assert t.committed[m] == i;
    assert forall k :: 0 <= k < |s.committed| ==> t.committed[k] == s.committed[k] && s.committed[k] in s.calls;
  }

  /** A start that does not parse is never lost: it is still the file, or it has been moved aside, once and whole; from
      the first record on it has. Nothing else is moved aside. */
  lemma CorruptIsKept(json: Json, start: Option<File>, actions: seq<Action>, t: State)
    requires json.Lawful() && (start.Some? ==> start.value.synced) && Runs(json, Begin(start), actions, t)
    ensures start.Some? && start.value.bytes != [] && json.parse(start.value.bytes) == None ==>
              if t.committed == [] && t.history.Some? then t.history == start && t.quarantined == []
              else t.quarantined == [start.value.bytes]
    ensures start.None? || start.value.bytes == [] || json.parse(start.value.bytes).Some? ==> t.quarantined == []
  {
    RunKeeps(json, start, Begin(start), actions, t);
  }

  // ----- what may happen, and what must -----

  /** A call may fail or be killed until its rename, and be killed even after it; unsynced bytes do not outlive a loss
      of power. */
  lemma MayStop(json: Json, s: State, id: nat, garbage: Bytes)
    requires id in s.calls
    ensures Enabled(s, Kill(id)) <==> !s.calls[id].pc.Returned? && !s.calls[id].pc.Dead?
    ensures Enabled(s, Fail(id)) <==> Enabled(s, Kill(id)) && !s.calls[id].pc.Renamed?
    ensures s.tmp.Some? && !s.tmp.value.synced ==> Apply(json, s, PowerLoss(garbage)).tmp == Some(File(garbage, true))
    ensures s.history.Some? && !s.history.value.synced ==>
              Apply(json, s, PowerLoss(garbage)).history == Some(File(garbage, true))
    ensures forall i :: i in s.calls && !s.calls[i].pc.Returned? ==> Apply(json, s, PowerLoss(garbage)).calls[i].pc == Dead
  {
  }

  /** The lock is free unless some call is between getting it and its end, however the others ended. */
  lemma LockIsFreeIff(json: Json, start: Option<File>, actions: seq<Action>, s: State)
    requires json.Lawful() && (start.Some? ==> start.value.synced) && Runs(json, Begin(start), actions, s)
    ensures s.lock == None <==>
              forall id :: id in s.calls ==> s.calls[id].pc.Opened? || s.calls[id].pc.Returned? || s.calls[id].pc.Dead?
  {
    RunKeeps(json, start, Begin(start), actions, s);
  }

  /** The steps of one call with nobody in its way. */
  function OneCall(json: Json, s: State, id: nat, record: Record, size: nat): seq<Action> {
    [Start(id, record), Lock(id), Load(id)]
    + (if IsCorrupt(json, s.history) then [Quarantine(id)] else [])
    + [Truncate(id), WriteSome(id, size), Sync(id), Rename(id), Unlock(id)]
  }

  lemma {:induction false} RunsJoin(json: Json, s: State, xs: seq<Action>, t: State, ys: seq<Action>, u: State)
    requires Runs(json, s, xs, t) && Runs(json, t, ys, u)
    ensures Runs(json, s, xs + ys, u)
    decreases |xs|
  {
    if xs == [] {
      assert xs + ys == ys;
    } else {
      RunsJoin(json, Apply(json, s, xs[0]), xs[1..], t, ys, u);
      assert (xs + ys)[1..] == xs[1..] + ys;
    }
  }

  lemma RunsOne(json: Json, s: State, a: Action)
    requires Enabled(s, a)
    ensures Runs(json, s, [a], Apply(json, s, a))
  {
    assert Runs(json, Apply(json, s, a), [a][1..], Apply(json, s, a));
  }

  /** Up to the rendering: the call holds the lock and has its data. */
  lemma Reads(json: Json, s: State, id: nat, record: Record) returns (t: State)
    requires id !in s.calls && s.lock == None
    ensures Runs(json, s, [Start(id, record), Lock(id), Load(id)] + (if IsCorrupt(json, s.history) then [Quarantine(id)] else []), t)
    ensures id in t.calls && t.calls[id] == Call(record, Read(json.render(Loaded(json, s.history) + [record])))
    ensures t.lock == Some(id) && t.committed == s.committed
  {
    var begun := Apply(json, s, Start(id, record));
    var locked := Apply(json, begun, Lock(id));
    t := Apply(json, locked, Load(id));
    RunsOne(json, s, Start(id, record));
    RunsOne(json, begun, Lock(id));
    RunsOne(json, locked, Load(id));
    RunsJoin(json, s, [Start(id, record)], begun, [Lock(id)], locked);
    RunsJoin(json, s, [Start(id, record)] + [Lock(id)], locked, [Load(id)], t);
    var steps := [Start(id, record), Lock(id), Load(id)];
    assert steps == [Start(id, record)] + [Lock(id)] + [Load(id)];
    if IsCorrupt(json, s.history) {
      RunsOne(json, t, Quarantine(id));
      RunsJoin(json, s, steps, t, [Quarantine(id)], Apply(json, t, Quarantine(id)));
      t := Apply(json, t, Quarantine(id));
      assert [] + [record] == [record];
    } else {
      assert steps + [] == steps;
    }
  }

  /** From there to the return. */
  lemma Commits(json: Json, s: State, id: nat) returns (t: State)
    requires id in s.calls && s.calls[id].pc.Read? && s.calls[id].pc.data != [] && s.lock == Some(id)
    ensures Runs(json, s, [Truncate(id), WriteSome(id, |s.calls[id].pc.data|), Sync(id), Rename(id), Unlock(id)], t)
    ensures t.calls == s.calls[id := Call(s.calls[id].record, Returned(true))] && t.lock == None
    ensures t.history == Some(File(s.calls[id].pc.data, true)) && t.committed == s.committed + [id]
  {
    var data := s.calls[id].pc.data;
    var emptied := Apply(json, s, Truncate(id));
    var written := Apply(json, emptied, WriteSome(id, |data|));
    assert [] + data[0..0 + |data|] == data;
    assert written.calls[id].pc == Written(data) && written.tmp == Some(File(data, false));
    var synced := Apply(json, written, Sync(id));
    var renamed := Apply(json, synced, Rename(id));
    t := Apply(json, renamed, Unlock(id));
    RunsOne(json, s, Truncate(id));
    RunsOne(json, emptied, WriteSome(id, |data|));
    RunsOne(json, written, Sync(id));
    RunsOne(json, synced, Rename(id));
    RunsOne(json, renamed, Unlock(id));
    RunsJoin(json, s, [Truncate(id)], emptied, [WriteSome(id, |data|)], written);
    RunsJoin(json, s, [Truncate(id)] + [WriteSome(id, |data|)], written, [Sync(id)], synced);
    RunsJoin(json, s, [Truncate(id)] + [WriteSome(id, |data|)] + [Sync(id)], synced, [Rename(id)], renamed);
    RunsJoin(json, s, [Truncate(id)] + [WriteSome(id, |data|)] + [Sync(id)] + [Rename(id)], renamed, [Unlock(id)], t);
    assert [Truncate(id)] + [WriteSome(id, |data|)] + [Sync(id)] + [Rename(id)] + [Unlock(id)]
           == [Truncate(id), WriteSome(id, |data|), Sync(id), Rename(id), Unlock(id)];
  }

  /** Whatever happened before, whoever was killed: a call that finds the lock free and is left alone returns success,
      with its record after those the file had. */
  lemma LoneCallSucceeds(json: Json, s: State, id: nat, record: Record) returns (size: nat, t: State)
    requires json.Lawful() && id !in s.calls && s.lock == None
    ensures Runs(json, s, OneCall(json, s, id, record, size), t)
    ensures id in t.calls && t.calls[id] == Call(record, Returned(true)) && t.committed == s.committed + [id]
    ensures t.history == Some(File(json.render(Loaded(json, s.history) + [record]), true)) && t.lock == None
  {
    var read := Reads(json, s, id, record);
    size := |read.calls[id].pc.data|;
    t := Commits(json, read, id);
    RunsJoin(json, s, [Start(id, record), Lock(id), Load(id)] + (if IsCorrupt(json, s.history) then [Quarantine(id)] else []),
             read, [Truncate(id), WriteSome(id, size), Sync(id), Rename(id), Unlock(id)], t);
  }
}
