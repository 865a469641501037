/** The rendezvous server: concurrent connection tasks sharing one map of waiters, one lock hold at a
    time (rendezvous/src/server.rs). Time is a number of ticks; each task has an id. */
module Rendezvous {
  import opened Prelude

  type Code = string

  datatype Endpoint = Endpoint(ip: nat, port: nat)

  datatype Register = Register(version: nat, code: Code, endpoint: Endpoint, fingerprint: nat, device: nat, wantRelay: bool)

  const PROTOCOL_VERSION: nat := 1

  /** The waiting task's registration, the sending half of its channel (named by the task), and its expiry. */
  datatype Waiter = Waiter(id: nat, first: Register, expiresAt: nat)

  datatype Reply =
    | Match(endpoint: Endpoint, fingerprint: nat, device: nat)
    | RelayMatch(relay: Endpoint, token: nat, fingerprint: nat, device: nat)
    | Expired
    | Rejected

  /** What the second peer's task tells the first one's; `from` records which task it was. */
  datatype Payload =
    | Direct(second: Register, from: nat)
    | Relay(token: nat, relay: Endpoint, fingerprint: nat, device: nat, from: nat)

  predicate IsAlphanumeric(c: char) { '0' <= c <= '9' || 'a' <= c <= 'z' || 'A' <= c <= 'Z' }

  predicate IsValidCode(code: Code) {
    4 <= |code| <= 32 && forall k :: 0 <= k < |code| ==> IsAlphanumeric(code[k])
  }

  /** The registration with the address its connection came from: only the port is the client's word. */
  function Stamp(r: Register, ip: nat): Register { r.(endpoint := Endpoint(ip, r.endpoint.port)) }

  // ----- the waiter map and its critical sections -----

  type Waiting = map<Code, Waiter>

  function Retained(m: Waiting, now: nat): Waiting {
    map c | c in m && m[c].expiresAt > now :: m[c]
  }

  function Without(m: Waiting, code: Code): Waiting { m - {code} }

  function Inserted(m: Waiting, w: Waiter): Waiting { m[w.first.code := w] }

  function PutBackIn(m: Waiting, w: Waiter): Waiting {
    if w.first.code in m then m else Inserted(m, w)
  }

  function Cleaned(m: Waiting, code: Code, device: nat): Waiting {
    if code in m && m[code].first.device == device then Without(m, code) else m
  }

  class ServerState {
    var waiting: Waiting
    const ttl: nat

    constructor (ttl: nat)
      ensures waiting == map[] && this.ttl == ttl
    {
      waiting, this.ttl := map[], ttl;
    }

    /** Drop expired waiters, then take the one under the code, if any. What is taken has not expired. */
    method TakeForPairing(now: nat, code: Code) returns (taken: Option<Waiter>)
      modifies this
      ensures waiting == Without(Retained(old(waiting), now), code)
      ensures forall c :: c in waiting <==> c in old(waiting) && old(waiting)[c].expiresAt > now && c != code
      ensures forall c :: c in waiting ==> waiting[c] == old(waiting)[c]
      ensures taken.Some? <==> code in old(waiting) && old(waiting)[code].expiresAt > now
      ensures taken.Some? ==> taken.value == old(waiting)[code] && taken.value.expiresAt > now
    {
      waiting := Retained(waiting, now);
      taken := if code in waiting then Some(waiting[code]) else None;
      waiting := Without(waiting, code);
    }

    /** Only into an empty slot: a registration that raced in is never overwritten. */
    method PutBack(w: Waiter) returns (kept: bool)
      modifies this
      ensures waiting == PutBackIn(old(waiting), w) && kept == (w.first.code !in old(waiting))
      ensures waiting.Keys == old(waiting).Keys + {w.first.code} && (kept ==> waiting[w.first.code] == w)
      ensures forall c :: c in old(waiting) ==> c in waiting && waiting[c] == old(waiting)[c]
    {
      kept := w.first.code !in waiting;
      if kept {
        waiting := waiting[w.first.code := w];
      }
    }

    method RegisterFirst(id: nat, req: Register, now: nat) returns (ok: bool)
      modifies this
      ensures ok <==> !(req.code in old(waiting) && old(waiting)[req.code].expiresAt > now)
      ensures waiting == if ok then Inserted(Retained(old(waiting), now), Waiter(id, req, now + ttl))
                         else Retained(old(waiting), now)
      ensures ok ==> req.code in waiting && waiting[req.code] == Waiter(id, req, now + ttl)
      ensures forall c :: c in waiting <==> (c in old(waiting) && old(waiting)[c].expiresAt > now) || (ok && c == req.code)
      ensures forall c :: c in waiting && (ok ==> c != req.code) ==> waiting[c] == old(waiting)[c]
    {
      waiting := Retained(waiting, now);
      ok := req.code !in waiting;
      if ok {
        waiting := waiting[req.code := Waiter(id, req, now + ttl)];
      }
    }

    method Cleanup(code: Code, device: nat)
      modifies this
      ensures waiting == Cleaned(old(waiting), code, device)
      ensures forall c :: c in waiting <==> c in old(waiting) && (c == code ==> old(waiting)[c].first.device != device)
      ensures forall c :: c in waiting ==> waiting[c] == old(waiting)[c]
    {
      if code in waiting && waiting[code].first.device == device {
        waiting := waiting - {code};
      }
    }
  }

  // ----- tasks -----

  datatype Pc =
    | Fresh
    | Deciding(w: Waiter)
    | Refused(w: Waiter)
    | Writing(w: Waiter, reply: Reply, payload: Payload)
    | Notifying(w: Waiter, payload: Payload)
    | First
    | Awaiting(deadline: nat)
    | Cleaning(outcome: Option<Payload>)
    | Replying(outcome: Option<Payload>)
    | Finished

  predicate Holding(pc: Pc) { pc.Deciding? || pc.Refused? || pc.Writing? || pc.Notifying? }

  datatype Task = Task(req: Register, pc: Pc)

  /** Where a waiter, with the sending half of its one-shot channel, is: in the map, with a second peer's
      task, or resolved, with a payload delivered or not. */
  datatype Place = Queued | With(task: nat) | Sent(payload: Payload) | Dropped

  /** One session reserved on the relay, for two fingerprints. */
  datatype Grant = Grant(token: nat, first: nat, second: nat)

  /** The relay as far as the server sees it: `sessions` are its live ones, by token. The rest is a record of the
      past: `grants` is what each second peer's task reserved, `lapsed` those whose session the relay evicted. */
  datatype Reservations = Reservations(sessions: map<nat, (nat, nat)>, grants: map<nat, Grant>, lapsed: set<nat>)

  /** Refused for two equal fingerprints, and for a token some live session has. */
  predicate Refuses(r: Reservations, g: Grant) {
    g.first == g.second || g.token in r.sessions
  }

  function Reserve(r: Reservations, task: nat, g: Grant): Reservations {
    r.(sessions := r.sessions[g.token := (g.first, g.second)], grants := r.grants[task := g])
  }

  function EvictFrom(r: Reservations, token: nat): Reservations {
    r.(sessions := r.sessions - {token},
       lapsed := r.lapsed + set j | j in r.grants && r.grants[j].token == token)
  }

  /** What a client asked for, in its own words, and the address its connection came from. */
  datatype Connection = Connection(asked: Register, ip: nat)

  /** Beside the server's state the model keeps a record of the past: `connections` is what each task began
      with; `places` follows every waiter ever registered, by its task; `written` is the reply each client got;
      `served` says which waiter's data a second peer was written. */
  datatype State = State(now: nat, ttl: nat, relay: Option<Endpoint>, waiting: Waiting, tasks: map<nat, Task>,
                         connections: map<nat, Connection>, places: map<nat, Place>, written: map<nat, Reply>,
                         served: map<nat, nat>, reservations: Reservations)

  datatype Action =
    | Tick(ticks: nat)
    | Arrive(id: nat, req: Register, ip: nat)
    | Take(id: nat)
    | Decide(id: nat, token: nat)
    | Evict(token: nat)
    | PutBackWaiter(id: nat)
    | Write(id: nat, ok: bool)
    | Notify(id: nat)
    | Insert(id: nat, delay: nat)
    | Wake(id: nat)
    | TimeOut(id: nat)
    | CleanUp(id: nat)
    | Answer(id: nat, ok: bool)

  predicate At(s: State, id: nat) { id in s.tasks }

  predicate Enabled(s: State, a: Action) {
    match a
    case Tick(_) => true
    case Arrive(id, _, _) => id !in s.tasks && id !in s.places && id !in s.written
    case Take(id) => At(s, id) && s.tasks[id].pc.Fresh?
    case Evict(token) => token in s.reservations.sessions
    case Decide(id, _) => At(s, id) && s.tasks[id].pc.Deciding?
    case PutBackWaiter(id) => At(s, id) && s.tasks[id].pc.Refused?
    case Write(id, _) => At(s, id) && s.tasks[id].pc.Writing?
    case Notify(id) => At(s, id) && s.tasks[id].pc.Notifying?
    case Insert(id, _) => At(s, id) && s.tasks[id].pc.First?
    case Wake(id) => At(s, id) && s.tasks[id].pc.Awaiting? && id in s.places && (s.places[id].Sent? || s.places[id].Dropped?)
    case TimeOut(id) => At(s, id) && s.tasks[id].pc.Awaiting? && s.now >= s.tasks[id].pc.deadline
                        && id in s.places && (s.places[id].Queued? || s.places[id].With?)
    case CleanUp(id) => At(s, id) && s.tasks[id].pc.Cleaning?
    case Answer(id, _) => At(s, id) && s.tasks[id].pc.Replying?
  }

  function Goto(s: State, id: nat, pc: Pc): State
    requires id in s.tasks
  {
    s.(tasks := s.tasks[id := s.tasks[id].(pc := pc)])
  }

  predicate Lists(s: State, m: Waiting, i: nat) {
    i in s.tasks && s.tasks[i].req.code in m && m[s.tasks[i].req.code].id == i
  }

  /** Replace the map; a queued waiter that is no longer in it is dropped, which closes its channel. */
  function SetWaiting(s: State, m: Waiting): State {
    s.(waiting := m,
       places := map i | i in s.places :: if s.places[i].Queued? && !Lists(s, m, i) then Dropped else s.places[i])
  }

  function Put(s: State, id: nat, x: Place): State { s.(places := s.places[id := x]) }

  function MatchOf(r: Register): Reply { Match(r.endpoint, r.fingerprint, r.device) }

  /** The reply to a first peer for what its channel delivered. */
  function AnswerOf(outcome: Option<Payload>): Reply {
    match outcome
    case None => Expired
    case Some(Direct(second, _)) => MatchOf(second)
    case Some(Relay(token, relay, fp, dev, _)) => RelayMatch(relay, token, fp, dev)
  }

  function ArriveStep(s: State, id: nat, req: Register, ip: nat): State {
    var ok := req.version == PROTOCOL_VERSION && IsValidCode(req.code);
    s.(tasks := s.tasks[id := Task(Stamp(req, ip), if ok then Fresh else Finished)],
       connections := s.connections[id := Connection(req, ip)],
       written := if ok then s.written else s.written[id := Rejected])
  }

  function TakeStep(s: State, id: nat): State
    requires id in s.tasks
  {
    var code := s.tasks[id].req.code;
    var kept := Retained(s.waiting, s.now);
    if code in kept then Goto(Put(SetWaiting(s, Without(kept, code)), kept[code].id, With(id)), id, Deciding(kept[code]))
    else Goto(SetWaiting(s, kept), id, First)
  }

  /** A relay is needed when either peer asks for one and the server has one. */
  predicate NeedsRelay(relay: Option<Endpoint>, first: Register, second: Register) {
    (second.wantRelay || first.wantRelay) && relay.Some?
  }

  function GrantFor(req: Register, w: Waiter, token: nat): Grant {
    Grant(token, w.first.fingerprint, req.fingerprint)
  }

  /** Direct or relayed? A relayed pair needs a session reserved for it first. */
  function Verdict(s: State, id: nat, req: Register, w: Waiter, token: nat): (pc: Pc)
    ensures Holding(pc) && pc.w == w && !pc.Deciding? && !pc.Notifying?
  {
    if NeedsRelay(s.relay, w.first, req) then
      if Refuses(s.reservations, GrantFor(req, w, token)) then Refused(w)
      else Writing(w, RelayMatch(s.relay.value, token, w.first.fingerprint, w.first.device),
                   Relay(token, s.relay.value, req.fingerprint, req.device, id))
    else Writing(w, MatchOf(w.first), Direct(req, id))
  }

  function DecideStep(s: State, id: nat, token: nat): State
    requires id in s.tasks && s.tasks[id].pc.Deciding?
  {
    var req, w := s.tasks[id].req, s.tasks[id].pc.w;
    var pc := Verdict(s, id, req, w, token);
    var relayed := pc.Writing? && pc.payload.Relay?;
    Goto(s.(reservations := if relayed then Reserve(s.reservations, id, GrantFor(req, w, token)) else s.reservations),
         id, pc)
  }

  function PutBackStep(s: State, id: nat): State
    requires id in s.tasks && s.tasks[id].pc.Refused?
  {
    var w := s.tasks[id].pc.w;
    var t := s.(written := s.written[id := Rejected]);
    if w.first.code in s.waiting then Goto(Put(t, w.id, Dropped), id, Finished)
    else Goto(Put(t.(waiting := PutBackIn(s.waiting, w)), w.id, Queued), id, Finished)
  }

  function WriteStep(s: State, id: nat, ok: bool): State
    requires id in s.tasks && s.tasks[id].pc.Writing?
  {
    var pc := s.tasks[id].pc;
    if ok then Goto(s.(written := s.written[id := pc.reply], served := s.served[id := pc.w.id]), id, Notifying(pc.w, pc.payload))
    else Goto(Put(s, pc.w.id, Dropped), id, Finished)
  }

  function NotifyStep(s: State, id: nat): State
    requires id in s.tasks && s.tasks[id].pc.Notifying?
  {
    var pc := s.tasks[id].pc;
    var heard := pc.w.id in s.tasks && s.tasks[pc.w.id].pc.Awaiting?;
    Goto(Put(s, pc.w.id, if heard then Sent(pc.payload) else Dropped), id, Finished)
  }

  /** The waiting time starts only after the entry is in the map, so it may end `delay` after the entry expires. */
  function Enter(s: State, id: nat, delay: nat): State
    requires id in s.tasks
  {
    var req := s.tasks[id].req;
    Goto(Put(s.(waiting := Inserted(s.waiting, Waiter(id, req, s.now + s.ttl))), id, Queued), id,
         Awaiting(s.now + s.ttl + delay))
  }

  function InsertStep(s: State, id: nat, delay: nat): State
    requires id in s.tasks
  {
    var t := SetWaiting(s, Retained(s.waiting, s.now));
    if s.tasks[id].req.code in t.waiting then Goto(t.(written := s.written[id := Rejected]), id, Finished)
    else Enter(t, id, delay)
  }

  function WakeStep(s: State, id: nat): State
    requires id in s.tasks && id in s.places
  {
    Goto(s, id, Cleaning(if s.places[id].Sent? then Some(s.places[id].payload) else None))
  }

  function CleanUpStep(s: State, id: nat): State
    requires id in s.tasks && s.tasks[id].pc.Cleaning?
  {
    var req := s.tasks[id].req;
    Goto(SetWaiting(s, Cleaned(s.waiting, req.code, req.device)), id, Replying(s.tasks[id].pc.outcome))
  }

  function AnswerStep(s: State, id: nat, ok: bool): State
    requires id in s.tasks && s.tasks[id].pc.Replying?
  {
    Goto(if ok then s.(written := s.written[id := AnswerOf(s.tasks[id].pc.outcome)]) else s, id, Finished)
  }

  function Apply(s: State, a: Action): State
    requires Enabled(s, a)
  {
    match a
    case Tick(ticks) => s.(now := s.now + ticks)
    case Arrive(id, req, ip) => ArriveStep(s, id, req, ip)
    case Take(id) => TakeStep(s, id)
    case Decide(id, token) => DecideStep(s, id, token)
    case Evict(token) => s.(reservations := EvictFrom(s.reservations, token))
    case PutBackWaiter(id) => PutBackStep(s, id)
    case Write(id, ok) => WriteStep(s, id, ok)
    case Notify(id) => NotifyStep(s, id)
    case Insert(id, delay) => InsertStep(s, id, delay)
    case Wake(id) => WakeStep(s, id)
    case TimeOut(id) => Goto(s, id, Cleaning(None))
    case CleanUp(id) => CleanUpStep(s, id)
    case Answer(id, ok) => AnswerStep(s, id, ok)
  }
}
