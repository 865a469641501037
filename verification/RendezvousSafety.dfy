/** What every interleaving of the rendezvous tasks keeps: mirrored pairs, one place per waiter. */
module RendezvousSafety {
  import opened Prelude
  import opened Rendezvous

  // ----- the invariant -----

  predicate IsFirst(pc: Pc) { pc.Awaiting? || pc.Cleaning? || pc.Replying? }

  /** A waiter carries its own task's registration. Once its task no longer waits it has expired. */
  ghost predicate WaiterOk(s: State, w: Waiter) {
    && w.id in s.tasks && w.first == s.tasks[w.id].req
    && (if s.tasks[w.id].pc.Awaiting? then w.expiresAt <= s.tasks[w.id].pc.deadline else w.expiresAt <= s.now)
  }

  /** Conservation, one way: what is in the map or held by a task is placed there, so no waiter is in
      two places. */
  ghost predicate MapInv(s: State) {
    forall c :: c in s.waiting ==>
      && s.waiting[c].first.code == c && WaiterOk(s, s.waiting[c])
      && s.waiting[c].id in s.places && s.places[s.waiting[c].id].Queued?
  }

  ghost predicate HeldInv(s: State) {
    forall j :: j in s.tasks && Holding(s.tasks[j].pc) ==> HoldsOk(s, j, s.tasks[j].pc.w)
  }

  ghost predicate HoldsOk(s: State, j: nat, w: Waiter)
    requires j in s.tasks
  {
    && WaiterOk(s, w) && w.first.code == s.tasks[j].req.code
    && w.id in s.places && s.places[w.id] == With(j)
  }

  /** Conservation, the other way: a waiter placed in the map or with a task is really there, so none is lost. */
  ghost predicate PlacesInv(s: State) {
    && (forall i :: i in s.places ==> PlaceOk(s, i, s.places[i]))
    && (forall i :: i in s.tasks && IsFirst(s.tasks[i].pc) ==> i in s.places)
  }

  ghost predicate PlaceOk(s: State, i: nat, p: Place) {
    && i in s.tasks && (IsFirst(s.tasks[i].pc) || s.tasks[i].pc.Finished?)
    && match p
       case Queued => Lists(s, s.waiting, i)
       case With(j) => j in s.tasks && Holding(s.tasks[j].pc) && s.tasks[j].pc.w.id == i
       case Sent(payload) => Mirrors(s, i, payload) && s.tasks[payload.from].pc.Finished?
       case Dropped => true
  }

  /** The two sides of one decision: what the first peer is sent, `p`, names the second, and the second's reply
      the first; with one token granted for just these two fingerprints if they are to be relayed. */
  predicate Exchanged(s: State, first: Register, second: Register, toSecond: Reply, p: Payload) {
    match p
    case Direct(r, _) => !NeedsRelay(s.relay, first, second) && r == second && toSecond == MatchOf(first)
    case Relay(token, relay, fp, dev, _) =>
      && NeedsRelay(s.relay, first, second) && relay == s.relay.value && first.fingerprint != second.fingerprint
      && fp == second.fingerprint && dev == second.device
      && toSecond == RelayMatch(relay, token, first.fingerprint, first.device)
      && HasGrant(s, p.from, Grant(token, first.fingerprint, second.fingerprint))
  }

  predicate HasGrant(s: State, j: nat, g: Grant) { j in s.reservations.grants && s.reservations.grants[j] == g }

  /** The mirror of a payload: task `from` shares the code, and what it was written is the other side. */
  ghost predicate Mirrors(s: State, i: nat, p: Payload) {
    && i in s.tasks && p.from in s.tasks && p.from !in s.places
    && p.from in s.served && s.served[p.from] == i
    && s.tasks[p.from].req.code == s.tasks[i].req.code
    && p.from in s.written
    && Exchanged(s, s.tasks[i].req, s.tasks[p.from].req, s.written[p.from], p)
  }

  /** Before its write a second task has decided on the right pair of messages. */
  ghost predicate Decided(s: State, j: nat, w: Waiter, reply: Reply, p: Payload)
    requires j in s.tasks
  {
    p.from == j && Exchanged(s, w.first, s.tasks[j].req, reply, p)
  }

  ghost predicate OutcomeOk(s: State, i: nat, outcome: Option<Payload>) {
    outcome.Some? ==> i in s.places && s.places[i] == Sent(outcome.value)
  }

  ghost predicate TaskOk(s: State, j: nat, t: Task)
    requires j in s.tasks
  {
    match t.pc
    case Writing(w, reply, payload) => Decided(s, j, w, reply, payload) && j !in s.written
    case Notifying(w, payload) => Mirrors(s, w.id, payload) && payload.from == j
    case Cleaning(outcome) => OutcomeOk(s, j, outcome) && j !in s.written
    case Replying(outcome) => OutcomeOk(s, j, outcome) && j !in s.written
    case Finished => true
    case _ => j !in s.written
  }

  ghost predicate TasksInv(s: State) {
    forall j :: j in s.tasks ==> TaskOk(s, j, s.tasks[j])
  }

  predicate IsMatch(r: Reply) { r.Match? || r.RelayMatch? }

  /** A reply that hands out this registration. */
  predicate Names(reply: Reply, r: Register) {
    reply == MatchOf(r) || (reply.RelayMatch? && reply.fingerprint == r.fingerprint && reply.device == r.device)
  }

  /** A first peer's match comes from its channel, a second peer's from the waiter it was served. */
  ghost predicate WrittenInv(s: State) {
    && (forall i :: i in s.written ==> i in s.tasks)
    && (forall i :: i in s.written && IsMatch(s.written[i]) && i in s.places ==>
          s.places[i].Sent? && s.written[i] == AnswerOf(Some(s.places[i].payload)))
    && (forall j :: j in s.written && IsMatch(s.written[j]) && j !in s.places ==> j in s.served)
  }

  /** A waiter once served to a second peer is never with another. */
  ghost predicate ServedInv(s: State) {
    forall j :: j in s.served ==> ServedOk(s, j, s.served[j])
  }

  ghost predicate ServedOk(s: State, j: nat, i: nat) {
    && j in s.tasks && i in s.tasks && j in s.written && Names(s.written[j], s.tasks[i].req)
    && (s.written[j].RelayMatch? ==> HasToken(s, j, s.written[j].token))
    && s.tasks[j].req.code == s.tasks[i].req.code
    && j !in s.places && i in s.places
    && match s.places[i]
       case Queued => false
       case With(k) => k == j && j in s.tasks && s.tasks[j].pc.Notifying?
       case Sent(p) => p.from == j
       case Dropped => true
  }

  ghost predicate OnceInv(s: State) {
    forall j, k :: j in s.served && k in s.served && s.served[j] == s.served[k] ==> j == k
  }

  /** A grant whose session has not been evicted is live, for just its two fingerprints, and the only such one of
      its token. */
  ghost predicate ReservedInv(r: Reservations) {
    && (forall j :: j in r.grants && j !in r.lapsed ==>
          r.grants[j].token in r.sessions && r.sessions[r.grants[j].token] == (r.grants[j].first, r.grants[j].second))
    && (forall j, k :: j in r.grants && k in r.grants && j !in r.lapsed && k !in r.lapsed ==>
          r.grants[j].token == r.grants[k].token ==> j == k)
    && r.lapsed <= r.grants.Keys
  }

  predicate PastDeciding(pc: Pc) { pc.Writing? || pc.Notifying? || pc.Finished? }

  /** Only a second peer that has decided has a grant, so no task gets two. */
  ghost predicate GrantsInv(s: State) {
    && ReservedInv(s.reservations)
    && forall j :: j in s.reservations.grants ==> j in s.tasks && PastDeciding(s.tasks[j].pc)
  }

  ghost predicate Inv(s: State) {
    && MapInv(s) && HeldInv(s) && PlacesInv(s) && TasksInv(s) && WrittenInv(s) && ServedInv(s) && OnceInv(s)
    && GrantsInv(s)
  }

  /** What no step undoes: registrations, written replies, granted tokens. */
  ghost predicate Grows(s: State, t: State) {
    && (forall i :: i in s.tasks ==> i in t.tasks && t.tasks[i].req == s.tasks[i].req)
    && (forall i :: i in s.written ==> i in t.written && t.written[i] == s.written[i])
    && (forall i :: i in t.places ==> i in s.places || (i in s.tasks && s.tasks[i].pc.First?))
    && (forall j :: j in s.served ==> j in t.served && t.served[j] == s.served[j])
    && (forall j :: j in s.reservations.grants ==> HasGrant(t, j, s.reservations.grants[j]))
    && s.now <= t.now && s.relay == t.relay
  }

  lemma MirrorsStay(s: State, t: State, i: nat, p: Payload)
    requires Grows(s, t) && Mirrors(s, i, p) && !s.tasks[p.from].pc.First?
    ensures Mirrors(t, i, p)
  {
  }

  lemma TaskStays(s: State, t: State, j: nat)
    requires Grows(s, t) && j in s.tasks && t.tasks[j] == s.tasks[j] && TaskOk(s, j, s.tasks[j])
    requires j in t.written ==> j in s.written
    requires j in s.places && s.places[j].Sent? ==> j in t.places && t.places[j] == s.places[j]
    ensures TaskOk(t, j, t.tasks[j])
  {
    match s.tasks[j].pc
    case Notifying(w, payload) => MirrorsStay(s, t, w.id, payload);
    case _ =>
  }

  /** All tasks but `id` stand still. */
  lemma OthersStay(s: State, t: State, id: nat)
    requires TasksInv(s) && Grows(s, t) && id in s.tasks && t.tasks == s.tasks[id := t.tasks[id]]
    requires TaskOk(t, id, t.tasks[id])
    requires forall j :: j in t.written ==> j in s.written || j == id
    requires forall j :: j in s.places && s.places[j].Sent? ==> j in t.places && t.places[j] == s.places[j]
    ensures TasksInv(t)
  {
    forall j | j in t.tasks
      ensures TaskOk(t, j, t.tasks[j])
    {
      if j != id {
        assert TaskOk(s, j, s.tasks[j]);
        TaskStays(s, t, j);
      }
    }
  }

  lemma SentStays(s: State, t: State, i: nat)
    requires Grows(s, t) && i in s.places && s.places[i].Sent? && PlaceOk(s, i, s.places[i])
    requires t.tasks[s.places[i].payload.from].pc.Finished?
    requires IsFirst(t.tasks[i].pc) || t.tasks[i].pc.Finished?
    ensures PlaceOk(t, i, s.places[i])
  {
    MirrorsStay(s, t, i, s.places[i].payload);
  }

  /** A step of task `id` that leaves the map and every waiter where it is. */
  ghost predicate Quiet(s: State, t: State, id: nat) {
    && Grows(s, t) && t.waiting == s.waiting && t.places == s.places
    && id in s.tasks && t.tasks == s.tasks[id := t.tasks[id]]
    && var before, after := s.tasks[id].pc, t.tasks[id].pc;
       && !before.Finished? && !after.Awaiting?
       && (Holding(before) <==> Holding(after)) && (Holding(before) ==> after.w == before.w)
       && (IsFirst(before) ==> IsFirst(after) || after.Finished?) && (IsFirst(after) ==> IsFirst(before))
       && (before.Awaiting? ==>
             id in s.places && (s.places[id].Queued? || s.places[id].With? ==> before.deadline <= s.now))
  }

  lemma QuietMap(s: State, t: State, id: nat)
    requires MapInv(s) && Quiet(s, t, id)
    ensures MapInv(t)
  {
    forall c | c in t.waiting
      ensures t.waiting[c].first.code == c && WaiterOk(t, t.waiting[c])
    {
      assert WaiterOk(s, s.waiting[c]);
    }
  }

  lemma QuietHeld(s: State, t: State, id: nat)
    requires HeldInv(s) && Quiet(s, t, id)
    ensures HeldInv(t)
  {
    forall j | j in t.tasks && Holding(t.tasks[j].pc)
      ensures HoldsOk(t, j, t.tasks[j].pc.w)
    {
      assert HoldsOk(s, j, s.tasks[j].pc.w);
    }
  }

  lemma QuietPlaces(s: State, t: State, id: nat)
    requires PlacesInv(s) && Quiet(s, t, id)
    ensures PlacesInv(t)
  {
    forall i | i in t.places
      ensures PlaceOk(t, i, t.places[i])
    {
      assert PlaceOk(s, i, s.places[i]);
      if s.places[i].Sent? {
        SentStays(s, t, i);
      }
    }
  }

  lemma QuietTasks(s: State, t: State, id: nat)
    requires TasksInv(s) && Quiet(s, t, id) && TaskOk(t, id, t.tasks[id])
    requires forall j :: j in t.written ==> j in s.written || j == id
    ensures TasksInv(t)
  {
    OthersStay(s, t, id);
  }

  /** How waiters move in a step of task `id`: out of the map, or away from the task itself, which cannot
      put one back once it has written the waiter's data to its peer. */
  ghost predicate Flow(s: State, t: State, id: nat) {
    && id in s.tasks && id in t.tasks
    && (forall i :: i in s.places ==> i in t.places && FlowOk(s, s.places[i], t.places[i], id))
    && (forall i :: i in t.places ==> i in s.places || (i == id && s.tasks[id].pc.First?))
    && (s.tasks[id].pc.Notifying? ==> forall i :: i in t.places ==> t.places[i] != With(id))
  }

  ghost predicate FlowOk(s: State, before: Place, after: Place, id: nat)
    requires id in s.tasks
  {
    || after == before
    || before.Queued?
    || (before == With(id)
        && match after
           case Queued => !s.tasks[id].pc.Notifying?
           case With(_) => false
           case Sent(p) => p.from == id
           case Dropped => true)
  }

  lemma ServedStays(s: State, t: State, id: nat)
    requires ServedInv(s) && OnceInv(s) && TasksInv(s) && Grows(s, t) && Flow(s, t, id) && t.served == s.served
    requires t.tasks == s.tasks[id := t.tasks[id]]
    ensures ServedInv(t) && OnceInv(t)
  {
    assert TaskOk(s, id, s.tasks[id]);
    forall j | j in t.served
      ensures ServedOk(t, j, t.served[j])
    {
      assert ServedOk(s, j, s.served[j]) && TaskOk(s, j, s.tasks[j]);
    }
  }

  /** The reply written to `id` is no match, or it is the one its channel or its waiter accounts for. */
  lemma WrittenStays(s: State, t: State, id: nat)
    requires WrittenInv(s) && TasksInv(s) && Grows(s, t) && Flow(s, t, id)
    requires forall i :: i in t.written ==> i in s.written || i == id
    requires id in t.written && id !in s.written && IsMatch(t.written[id]) ==>
               if id in t.places then t.places[id].Sent? && t.written[id] == AnswerOf(Some(t.places[id].payload))
               else id in t.served
    ensures WrittenInv(t)
  {
    assert TaskOk(s, id, s.tasks[id]);
    forall i | i in t.written && IsMatch(t.written[i]) && i in t.places
      ensures t.places[i].Sent? && t.written[i] == AnswerOf(Some(t.places[i].payload))
    {
      if i in s.written {
        assert i in s.places;
        assert FlowOk(s, s.places[i], t.places[i], id);
      }
    }
  }

  lemma QuietFlows(s: State, t: State, id: nat)
    requires Quiet(s, t, id) && !s.tasks[id].pc.Notifying?
    ensures Flow(s, t, id)
  {
  }

  // ----- each step -----

  /** A step of a task that reserves nothing. */
  lemma GrantsStay(s: State, t: State, id: nat)
    requires GrantsInv(s) && t.reservations == s.reservations
    requires id in s.tasks && id in t.tasks && t.tasks == s.tasks[id := t.tasks[id]]
    requires PastDeciding(s.tasks[id].pc) ==> PastDeciding(t.tasks[id].pc)
    ensures GrantsInv(t)
  {
  }

  /** A granted session was in nobody's hands: every grant of its token had lapsed. */
  lemma ReserveKeeps(r: Reservations, task: nat, g: Grant)
    requires ReservedInv(r) && !Refuses(r, g) && task !in r.grants
    ensures ReservedInv(Reserve(r, task, g))
  {
  }

  lemma EvictKeeps(r: Reservations, token: nat)
    requires ReservedInv(r)
    ensures ReservedInv(EvictFrom(r, token))
  {
  }

  lemma DecideKeeps(s: State, id: nat, token: nat)
    requires Inv(s) && id in s.tasks && s.tasks[id].pc.Deciding?
    ensures Inv(DecideStep(s, id, token))
  {
    DecideGrants(s, id, token);
    DecideQuiet(s, id, token);
    QuietKeeps(s, DecideStep(s, id, token), id);
  }

  lemma DecideGrants(s: State, id: nat, token: nat)
    requires GrantsInv(s) && id in s.tasks && s.tasks[id].pc.Deciding?
    ensures GrantsInv(DecideStep(s, id, token))
  {
    var g := GrantFor(s.tasks[id].req, s.tasks[id].pc.w, token);
    if !Refuses(s.reservations, g) {
      ReserveKeeps(s.reservations, id, g);
    }
  }

  lemma DecideQuiet(s: State, id: nat, token: nat)
    requires TasksInv(s) && GrantsInv(s) && id in s.tasks && s.tasks[id].pc.Deciding?
    ensures var t := DecideStep(s, id, token); Quiet(s, t, id) && TaskOk(t, id, t.tasks[id])
  {
    DecideGrows(s, id, token);
    DecideOk(s, id, token);
  }

  lemma DecideGrows(s: State, id: nat, token: nat)
    requires GrantsInv(s) && id in s.tasks && s.tasks[id].pc.Deciding?
    ensures Grows(s, DecideStep(s, id, token))
  {
  }

  lemma DecideOk(s: State, id: nat, token: nat)
    requires id in s.tasks && s.tasks[id].pc.Deciding? && TaskOk(s, id, s.tasks[id])
    ensures var t := DecideStep(s, id, token); TaskOk(t, id, t.tasks[id])
  {
  }

  /** A quiet step that serves nobody keeps everything, given that what it writes is accounted for. */
  lemma QuietKeeps(s: State, t: State, id: nat)
    requires Inv(s) && Quiet(s, t, id) && TaskOk(t, id, t.tasks[id]) && t.served == s.served && GrantsInv(t)
    requires !s.tasks[id].pc.Notifying?
    requires forall i :: i in t.written ==> i in s.written || i == id
    requires id in t.written && id !in s.written && IsMatch(t.written[id]) ==>
               id in t.places && t.places[id].Sent? && t.written[id] == AnswerOf(Some(t.places[id].payload))
    ensures Inv(t)
  {
    QuietMap(s, t, id);
    QuietHeld(s, t, id);
    QuietPlaces(s, t, id);
    QuietTasks(s, t, id);
    QuietFlows(s, t, id);
    WrittenStays(s, t, id);
    ServedStays(s, t, id);
  }

  /** ... and reserves nothing. */
  lemma QuietStays(s: State, t: State, id: nat)
    requires Inv(s) && Quiet(s, t, id) && TaskOk(t, id, t.tasks[id])
    requires t.served == s.served && t.reservations == s.reservations
    requires IsFirst(s.tasks[id].pc)
    requires forall i :: i in t.written ==> i in s.written || i == id
    requires id in t.written && id !in s.written && IsMatch(t.written[id]) ==>
               id in t.places && t.places[id].Sent? && t.written[id] == AnswerOf(Some(t.places[id].payload))
    ensures Inv(t)
  {
    GrantsStay(s, t, id);
    QuietKeeps(s, t, id);
  }

  lemma WakeKeeps(s: State, id: nat)
    requires Inv(s) && Enabled(s, Wake(id))
    ensures Inv(WakeStep(s, id))
  {
    WakeQuiet(s, id);
    QuietStays(s, WakeStep(s, id), id);
  }

  lemma WakeQuiet(s: State, id: nat)
    requires TasksInv(s) && Enabled(s, Wake(id))
    ensures var t := WakeStep(s, id); Quiet(s, t, id) && TaskOk(t, id, t.tasks[id])
  {
    assert TaskOk(s, id, s.tasks[id]);
  }

  lemma TimeOutKeeps(s: State, id: nat)
    requires Inv(s) && Enabled(s, TimeOut(id))
    ensures Inv(Goto(s, id, Cleaning(None)))
  {
    TimeOutQuiet(s, id);
    QuietStays(s, Goto(s, id, Cleaning(None)), id);
  }

  lemma TimeOutQuiet(s: State, id: nat)
    requires TasksInv(s) && Enabled(s, TimeOut(id))
    ensures var t := Goto(s, id, Cleaning(None)); Quiet(s, t, id) && TaskOk(t, id, t.tasks[id])
  {
    assert TaskOk(s, id, s.tasks[id]);
  }

  lemma AnswerKeeps(s: State, id: nat, ok: bool)
    requires Inv(s) && id in s.tasks && s.tasks[id].pc.Replying?
    ensures Inv(AnswerStep(s, id, ok))
  {
    AnswerQuiet(s, id, ok);
    QuietStays(s, AnswerStep(s, id, ok), id);
  }

  lemma AnswerQuiet(s: State, id: nat, ok: bool)
    requires TasksInv(s) && id in s.tasks && s.tasks[id].pc.Replying?
    ensures Quiet(s, AnswerStep(s, id, ok), id)
    ensures IsMatch(AnswerOf(s.tasks[id].pc.outcome)) ==>
              id in s.places && s.places[id].Sent? && s.tasks[id].pc.outcome == Some(s.places[id].payload)
  {
    assert TaskOk(s, id, s.tasks[id]);
    AnswerGrows(s, id, ok);
  }

  lemma AnswerGrows(s: State, id: nat, ok: bool)
    requires id in s.tasks && s.tasks[id].pc.Replying? && id !in s.written
    ensures Grows(s, AnswerStep(s, id, ok))
  {
  }

  lemma ServeKeeps(s: State, id: nat)
    requires Inv(s) && id in s.tasks && s.tasks[id].pc.Writing?
    ensures Inv(WriteStep(s, id, true))
  {
    var t := WriteStep(s, id, true);
    ServeFresh(s, id);
    ServeNotPlaced(s, id);
    ServeQuiet(s, id);
    QuietMap(s, t, id);
    QuietHeld(s, t, id);
    QuietPlaces(s, t, id);
    QuietTasks(s, t, id);
    QuietFlows(s, t, id);
    WrittenStays(s, t, id);
    ServeServed(s, id);
    GrantsStay(s, t, id);
  }

  lemma ServeNotPlaced(s: State, id: nat)
    requires PlacesInv(s) && id in s.tasks && Holding(s.tasks[id].pc)
    ensures id !in s.places
  {
    assert id in s.places ==> PlaceOk(s, id, s.places[id]);
  }

  lemma ServeFresh(s: State, id: nat)
    requires TasksInv(s) && ServedInv(s) && id in s.tasks && s.tasks[id].pc.Writing?
    ensures id !in s.written && id !in s.served
  {
    assert TaskOk(s, id, s.tasks[id]);
    assert id in s.served ==> ServedOk(s, id, s.served[id]);
  }

  lemma ServeQuiet(s: State, id: nat)
    requires HeldInv(s) && TasksInv(s) && id in s.tasks && s.tasks[id].pc.Writing?
    requires id !in s.written && id !in s.served && id !in s.places
    ensures var t := WriteStep(s, id, true); Quiet(s, t, id) && TaskOk(t, id, t.tasks[id])
  {
    ServeGrows(s, id);
    assert TaskOk(s, id, s.tasks[id]) && HoldsOk(s, id, s.tasks[id].pc.w);
  }

  lemma ServeGrows(s: State, id: nat)
    requires id in s.tasks && s.tasks[id].pc.Writing? && id !in s.written && id !in s.served
    ensures Grows(s, WriteStep(s, id, true))
  {
  }

  lemma ServeServed(s: State, id: nat)
    requires HeldInv(s) && PlacesInv(s) && TasksInv(s) && ServedInv(s) && OnceInv(s)
    requires id in s.tasks && s.tasks[id].pc.Writing?
    ensures ServedInv(WriteStep(s, id, true)) && OnceInv(WriteStep(s, id, true))
  {
    var t := WriteStep(s, id, true);
    var w := s.tasks[id].pc.w;
    assert TaskOk(s, id, s.tasks[id]) && HoldsOk(s, id, w) && PlaceOk(s, w.id, s.places[w.id]);
    ServeFresh(s, id);
    ServeNotPlaced(s, id);
    forall j | j in s.served
      ensures ServedOk(t, j, s.served[j]) && s.served[j] != w.id
    {
      assert ServedOk(s, j, s.served[j]);
    }
    assert ServedOk(t, id, w.id);
  }

  /** Task `id` takes entries out of the map: it may keep its own code's waiter, and drops the others. */
  ghost predicate Prunes(s: State, t: State, id: nat) {
    && Grows(s, t) && id in s.tasks && t.served == s.served && t.tasks == s.tasks[id := t.tasks[id]]
    && t.reservations == s.reservations
    && (forall c :: c in t.waiting ==> c in s.waiting && t.waiting[c] == s.waiting[c])
    && t.places.Keys == s.places.Keys
    && (forall i :: i in s.places ==> t.places[i] == PrunedPlace(s, t, id, i))
    && var before, after := s.tasks[id].pc, t.tasks[id].pc;
       && (before.Fresh? || before.First? || before.Cleaning?)
       && (Holding(after) ==>
             && after.Deciding? && after.w.first.code == s.tasks[id].req.code
             && after.w.first.code in s.waiting && s.waiting[after.w.first.code] == after.w
             && after.w.first.code !in t.waiting)
       && (IsFirst(after) ==> before.Cleaning? && !after.Awaiting?)
       && (before.Cleaning? ==> IsFirst(after) || after.Finished?)
  }

  function PrunedPlace(s: State, t: State, id: nat, i: nat): Place
    requires i in s.places && id in t.tasks
  {
    if !s.places[i].Queued? || Lists(s, t.waiting, i) then s.places[i]
    else if Holding(t.tasks[id].pc) && t.tasks[id].pc.w.id == i then With(id)
    else Dropped
  }

  lemma PruneKeeps(s: State, t: State, id: nat)
    requires Inv(s) && Prunes(s, t, id) && TaskOk(t, id, t.tasks[id])
    requires forall i :: i in t.written ==> i in s.written || i == id
    requires id in t.written && id !in s.written ==> !IsMatch(t.written[id])
    ensures Inv(t)
  {
    PruneMap(s, t, id);
    PruneHeld(s, t, id);
    PrunePlaces(s, t, id);
    assert Flow(s, t, id);
    OthersStay(s, t, id);
    WrittenStays(s, t, id);
    ServedStays(s, t, id);
    GrantsStay(s, t, id);
  }

  lemma PruneMap(s: State, t: State, id: nat)
    requires MapInv(s) && Prunes(s, t, id)
    ensures MapInv(t)
  {
    forall c | c in t.waiting
      ensures t.waiting[c].first.code == c && WaiterOk(t, t.waiting[c])
      ensures t.waiting[c].id in t.places && t.places[t.waiting[c].id].Queued?
    {
      assert WaiterOk(s, s.waiting[c]);
      assert Lists(s, t.waiting, t.waiting[c].id);
    }
  }

  lemma PruneHeld(s: State, t: State, id: nat)
    requires MapInv(s) && HeldInv(s) && PlacesInv(s) && Prunes(s, t, id)
    ensures HeldInv(t)
  {
    forall j | j in t.tasks && Holding(t.tasks[j].pc)
      ensures HoldsOk(t, j, t.tasks[j].pc.w)
    {
      var w := t.tasks[j].pc.w;
      if j == id {
        assert w == s.waiting[s.tasks[id].req.code] && WaiterOk(s, w);
        assert !Lists(s, t.waiting, w.id);
      } else {
        assert HoldsOk(s, j, w);
      }
      assert PlaceOk(s, w.id, s.places[w.id]);
    }
  }

  lemma PrunePlaces(s: State, t: State, id: nat)
    requires PlacesInv(s) && Prunes(s, t, id)
    ensures PlacesInv(t)
  {
    forall i | i in t.places
      ensures PlaceOk(t, i, t.places[i])
    {
      assert PlaceOk(s, i, s.places[i]) && t.places[i] == PrunedPlace(s, t, id, i);
      if s.places[i].Sent? {
        SentStays(s, t, i);
      }
    }
  }

  lemma TakeKeeps(s: State, id: nat)
    requires Inv(s) && id in s.tasks && s.tasks[id].pc.Fresh?
    ensures Inv(TakeStep(s, id))
  {
    assert TaskOk(s, id, s.tasks[id]);
    TakePrunes(s, id);
    PruneKeeps(s, TakeStep(s, id), id);
  }

  lemma TakePrunes(s: State, id: nat)
    requires MapInv(s) && id in s.tasks && s.tasks[id].pc.Fresh?
    ensures Prunes(s, TakeStep(s, id), id)
  {
    var code := s.tasks[id].req.code;
    var kept := Retained(s.waiting, s.now);
    if code in kept {
      var w := s.waiting[code];
      assert w.first.code == code && WaiterOk(s, w) && w.id in s.places && s.places[w.id].Queued?;
      ShrinkPrunes(s, Without(kept, code), id, Deciding(w));
    } else {
      ShrinkPrunes(s, kept, id, First);
    }
  }

  function Shrunk(s: State, m: Waiting, id: nat, pc: Pc): State {
    if pc.Deciding? then Put(SetWaiting(s, m), pc.w.id, With(id)) else SetWaiting(s, m)
  }

  lemma ShrinkPrunes(s: State, m: Waiting, id: nat, pc: Pc)
    requires id in s.tasks && (s.tasks[id].pc.Fresh? || s.tasks[id].pc.First?)
    requires forall c :: c in m ==> c in s.waiting && m[c] == s.waiting[c]
    requires pc.First? || pc.Finished? ||
             (pc.Deciding? && pc.w.first.code == s.tasks[id].req.code
              && pc.w.first.code in s.waiting && s.waiting[pc.w.first.code] == pc.w && pc.w.first.code !in m
              && pc.w.id in s.places && s.places[pc.w.id].Queued?
              && pc.w.id in s.tasks && s.tasks[pc.w.id].req.code == pc.w.first.code)
    ensures Prunes(s, Goto(Shrunk(s, m, id, pc), id, pc), id)
  {
    ShrinkPlaces(s, m, id, pc);
    ShrinkGrows(s, m, id, pc);
  }

  lemma ShrinkGrows(s: State, m: Waiting, id: nat, pc: Pc)
    requires id in s.tasks && (pc.Deciding? ==> pc.w.id in s.places)
    ensures Grows(s, Goto(Shrunk(s, m, id, pc), id, pc))
  {
  }

  lemma ShrinkPlaces(s: State, m: Waiting, id: nat, pc: Pc)
    requires id in s.tasks && !IsFirst(pc)
    requires Holding(pc) ==>
               && pc.Deciding? && pc.w.id in s.places && s.places[pc.w.id].Queued?
               && pc.w.id in s.tasks && s.tasks[pc.w.id].req.code !in m
    ensures var t := Goto(Shrunk(s, m, id, pc), id, pc);
            t.places.Keys == s.places.Keys && forall i :: i in s.places ==> t.places[i] == PrunedPlace(s, t, id, i)
  {
  }

  lemma CleanUpKeeps(s: State, id: nat)
    requires Inv(s) && id in s.tasks && s.tasks[id].pc.Cleaning?
    ensures Inv(CleanUpStep(s, id))
  {
    assert TaskOk(s, id, s.tasks[id]);
    CleanUpPrunes(s, id);
    PruneKeeps(s, CleanUpStep(s, id), id);
  }

  lemma CleanUpPrunes(s: State, id: nat)
    requires id in s.tasks && s.tasks[id].pc.Cleaning?
    ensures Prunes(s, CleanUpStep(s, id), id)
  {
  }

  lemma InsertKeeps(s: State, id: nat, delay: nat)
    requires Inv(s) && id in s.tasks && s.tasks[id].pc.First?
    ensures Inv(InsertStep(s, id, delay))
  {
    if s.tasks[id].req.code in Retained(s.waiting, s.now) {
      RejectKeeps(s, id);
    } else {
      ShrinkKeeps(s, id);
      EnterKeeps(SetWaiting(s, Retained(s.waiting, s.now)), id, delay);
    }
  }

  lemma RejectKeeps(s: State, id: nat)
    requires Inv(s) && id in s.tasks && s.tasks[id].pc.First?
    ensures Inv(Goto(SetWaiting(s, Retained(s.waiting, s.now)).(written := s.written[id := Rejected]), id, Finished))
  {
    RejectPrunes(s, id);
    PruneKeeps(s, Goto(SetWaiting(s, Retained(s.waiting, s.now)).(written := s.written[id := Rejected]), id, Finished), id);
  }

  lemma RejectPrunes(s: State, id: nat)
    requires TasksInv(s) && id in s.tasks && s.tasks[id].pc.First?
    ensures Prunes(s, Goto(SetWaiting(s, Retained(s.waiting, s.now)).(written := s.written[id := Rejected]), id, Finished), id)
  {
    assert id !in s.written by { assert TaskOk(s, id, s.tasks[id]); }
    ShrinkPrunes(s, Retained(s.waiting, s.now), id, Finished);
    PrunesWriting(s, Goto(SetWaiting(s, Retained(s.waiting, s.now)), id, Finished), id);
  }

  lemma PrunesWriting(s: State, t: State, id: nat)
    requires Prunes(s, t, id) && id !in s.written && t.written == s.written
    ensures Prunes(s, t.(written := s.written[id := Rejected]), id)
  {
    var u := t.(written := s.written[id := Rejected]);
    forall i | i in s.places
      ensures u.places[i] == PrunedPlace(s, u, id, i)
    {
      assert t.places[i] == PrunedPlace(s, t, id, i);
    }
  }

  lemma ShrinkKeeps(s: State, id: nat)
    requires Inv(s) && id in s.tasks && s.tasks[id].pc.First?
    ensures Inv(SetWaiting(s, Retained(s.waiting, s.now)))
  {
    var kept := Retained(s.waiting, s.now);
    assert TaskOk(s, id, s.tasks[id]);
    ShrinkPrunes(s, kept, id, First);
    assert s.tasks == s.tasks[id := s.tasks[id].(pc := First)];
    PruneKeeps(s, SetWaiting(s, kept), id);
  }

  lemma EnterKeeps(s: State, id: nat, delay: nat)
    requires Inv(s) && id in s.tasks && s.tasks[id].pc.First? && s.tasks[id].req.code !in s.waiting
    ensures Inv(Enter(s, id, delay))
  {
    var t := Enter(s, id, delay);
    EnterWaiters(s, id, delay);
    EnterFlows(s, id, delay);
    EnterPlaces(s, id, delay);
    OthersStay(s, t, id);
    WrittenStays(s, t, id);
    ServedStays(s, t, id);
    GrantsStay(s, t, id);
  }

  lemma EnterFlows(s: State, id: nat, delay: nat)
    requires TasksInv(s) && id in s.tasks && s.tasks[id].pc.First? && id !in s.places
    ensures var t := Enter(s, id, delay); Grows(s, t) && Flow(s, t, id) && TaskOk(t, id, t.tasks[id])
  {
    assert TaskOk(s, id, s.tasks[id]);
  }

  lemma EnterWaiters(s: State, id: nat, delay: nat)
    requires MapInv(s) && HeldInv(s) && PlacesInv(s) && id in s.tasks && s.tasks[id].pc.First?
    requires s.tasks[id].req.code !in s.waiting
    ensures MapInv(Enter(s, id, delay)) && HeldInv(Enter(s, id, delay))
    ensures id !in s.places
  {
    var t := Enter(s, id, delay);
    assert id in s.places ==> PlaceOk(s, id, s.places[id]);
    forall c | c in t.waiting
      ensures t.waiting[c].first.code == c && WaiterOk(t, t.waiting[c])
      ensures t.waiting[c].id in t.places && t.places[t.waiting[c].id].Queued?
    {
      assert c in s.waiting ==> WaiterOk(s, s.waiting[c]);
    }
    forall j | j in t.tasks && Holding(t.tasks[j].pc)
      ensures HoldsOk(t, j, t.tasks[j].pc.w)
    {
      assert HoldsOk(s, j, s.tasks[j].pc.w);
    }
  }

  lemma EnterPlaces(s: State, id: nat, delay: nat)
    requires PlacesInv(s) && id in s.tasks && s.tasks[id].pc.First? && id !in s.places
    requires s.tasks[id].req.code !in s.waiting && Grows(s, Enter(s, id, delay))
    ensures PlacesInv(Enter(s, id, delay))
  {
    var t := Enter(s, id, delay);
    forall i | i in t.places
      ensures PlaceOk(t, i, t.places[i])
    {
      if i != id {
        assert PlaceOk(s, i, s.places[i]);
        if s.places[i].Sent? {
          SentStays(s, t, i);
        }
      }
    }
  }

  /** Task `id` lets its waiter go: back into the map, or with a payload, or dropped. */
  ghost predicate Releases(s: State, t: State, id: nat) {
    && Grows(s, t) && id in s.tasks && Holding(s.tasks[id].pc) && t.served == s.served
    && t.reservations == s.reservations
    && t.tasks == s.tasks[id := Task(s.tasks[id].req, Finished)]
    && var w := s.tasks[id].pc.w;
       && w.id in t.places && t.places == s.places[w.id := t.places[w.id]]
       && t.waiting == (if t.places[w.id].Queued? then PutBackIn(s.waiting, w) else s.waiting)
       && match t.places[w.id]
          case Queued => w.first.code !in s.waiting && !s.tasks[id].pc.Notifying?
          case With(_) => false
          case Sent(p) => Mirrors(t, w.id, p) && p.from == id
          case Dropped => true
  }

  lemma ReleaseKeeps(s: State, t: State, id: nat)
    requires Inv(s) && Releases(s, t, id)
    requires forall i :: i in t.written ==> i in s.written || i == id
    requires id in t.written && id !in s.written ==> !IsMatch(t.written[id])
    ensures Inv(t)
  {
    assert HoldsOk(s, id, s.tasks[id].pc.w);
    ReleaseMap(s, t, id);
    ReleaseHeld(s, t, id);
    ReleasePlaces(s, t, id);
    ReleaseFlows(s, t, id);
    OthersStay(s, t, id);
    WrittenStays(s, t, id);
    ServedStays(s, t, id);
    GrantsStay(s, t, id);
  }

  lemma ReleaseFlows(s: State, t: State, id: nat)
    requires HeldInv(s) && PlacesInv(s) && Releases(s, t, id)
    ensures Flow(s, t, id)
  {
    assert HoldsOk(s, id, s.tasks[id].pc.w);
    forall i | i in t.places
      ensures t.places[i] != With(id)
    {
      assert PlaceOk(s, i, s.places[i]);
    }
  }

  lemma ReleaseMap(s: State, t: State, id: nat)
    requires MapInv(s) && HeldInv(s) && Releases(s, t, id)
    ensures MapInv(t)
  {
    var w := s.tasks[id].pc.w;
    assert HoldsOk(s, id, w);
    forall c | c in t.waiting
      ensures t.waiting[c].first.code == c && WaiterOk(t, t.waiting[c])
      ensures t.waiting[c].id in t.places && t.places[t.waiting[c].id].Queued?
    {
      assert c in s.waiting ==> WaiterOk(s, s.waiting[c]);
    }
  }

  lemma ReleaseHeld(s: State, t: State, id: nat)
    requires HeldInv(s) && Releases(s, t, id)
    ensures HeldInv(t)
  {
    assert HoldsOk(s, id, s.tasks[id].pc.w);
    forall j | j in t.tasks && Holding(t.tasks[j].pc)
      ensures HoldsOk(t, j, t.tasks[j].pc.w)
    {
      assert HoldsOk(s, j, s.tasks[j].pc.w);
    }
  }

  lemma ReleasePlaces(s: State, t: State, id: nat)
    requires HeldInv(s) && PlacesInv(s) && Releases(s, t, id)
    ensures PlacesInv(t)
  {
    var w := s.tasks[id].pc.w;
    assert HoldsOk(s, id, w);
    forall i | i in t.places
      ensures PlaceOk(t, i, t.places[i])
    {
      assert PlaceOk(s, i, s.places[i]);
      if s.places[i].Sent? {
        SentStays(s, t, i);
      }
    }
  }

  lemma PutBackKeeps(s: State, id: nat)
    requires Inv(s) && id in s.tasks && s.tasks[id].pc.Refused?
    ensures Inv(PutBackStep(s, id))
  {
    PutBackReleases(s, id);
    PutBackWrites(s, id);
    ReleaseKeeps(s, PutBackStep(s, id), id);
  }

  lemma PutBackWrites(s: State, id: nat)
    requires id in s.tasks && s.tasks[id].pc.Refused?
    ensures PutBackStep(s, id).written == s.written[id := Rejected]
  {
  }

  lemma PutBackReleases(s: State, id: nat)
    requires HeldInv(s) && TasksInv(s) && id in s.tasks && s.tasks[id].pc.Refused?
    ensures Releases(s, PutBackStep(s, id), id)
  {
    assert TaskOk(s, id, s.tasks[id]) && HoldsOk(s, id, s.tasks[id].pc.w);
    PutBackGrows(s, id);
  }

  lemma PutBackGrows(s: State, id: nat)
    requires id in s.tasks && s.tasks[id].pc.Refused? && s.tasks[id].pc.w.id in s.places && id !in s.written
    ensures Grows(s, PutBackStep(s, id))
  {
  }

  lemma DropKeeps(s: State, id: nat)
    requires Inv(s) && id in s.tasks && s.tasks[id].pc.Writing?
    ensures Inv(WriteStep(s, id, false))
  {
    DropReleases(s, id);
    ReleaseKeeps(s, WriteStep(s, id, false), id);
  }

  lemma DropReleases(s: State, id: nat)
    requires HeldInv(s) && id in s.tasks && s.tasks[id].pc.Writing?
    ensures Releases(s, WriteStep(s, id, false), id)
  {
    assert HoldsOk(s, id, s.tasks[id].pc.w);
  }

  lemma NotifyKeeps(s: State, id: nat)
    requires Inv(s) && id in s.tasks && s.tasks[id].pc.Notifying?
    ensures Inv(NotifyStep(s, id))
  {
    NotifyReleases(s, id);
    ReleaseKeeps(s, NotifyStep(s, id), id);
  }

  lemma NotifyReleases(s: State, id: nat)
    requires HeldInv(s) && PlacesInv(s) && TasksInv(s) && id in s.tasks && s.tasks[id].pc.Notifying?
    ensures Releases(s, NotifyStep(s, id), id)
  {
    var pc := s.tasks[id].pc;
    assert TaskOk(s, id, s.tasks[id]) && HoldsOk(s, id, pc.w);
    NotifyGrows(s, id);
    MirrorsStay(s, NotifyStep(s, id), pc.w.id, pc.payload);
  }

  lemma NotifyGrows(s: State, id: nat)
    requires id in s.tasks && s.tasks[id].pc.Notifying? && s.tasks[id].pc.w.id in s.places
    ensures Grows(s, NotifyStep(s, id))
  {
  }

  /** Time passing and the relay evicting a session: no task moves. */
  lemma AsideKeeps(s: State, t: State)
    requires Inv(s) && t == s.(now := t.now, reservations := t.reservations)
    requires s.now <= t.now && ReservedInv(t.reservations) && t.reservations.grants == s.reservations.grants
    ensures Inv(t)
  {
    forall i | i in t.places
      ensures PlaceOk(t, i, t.places[i])
    {
      assert PlaceOk(s, i, s.places[i]);
    }
    forall j | j in t.tasks
      ensures TaskOk(t, j, t.tasks[j])
    {
      assert TaskOk(s, j, s.tasks[j]);
    }
    forall j | j in t.served
      ensures ServedOk(t, j, t.served[j])
    {
      assert ServedOk(s, j, s.served[j]);
    }
  }

  lemma AsideStepKeeps(s: State, a: Action)
    requires Inv(s) && Enabled(s, a) && (a.Tick? || a.Evict?)
    ensures Inv(Apply(s, a))
  {
    if a.Evict? {
      EvictKeeps(s.reservations, a.token);
    }
    AsideKeeps(s, Apply(s, a));
  }

  lemma ArriveKeeps(s: State, id: nat, req: Register, ip: nat)
    requires Inv(s) && id !in s.tasks && id !in s.places && id !in s.written
    ensures Inv(ArriveStep(s, id, req, ip))
  {
    var t := ArriveStep(s, id, req, ip);
    ArriveWaiters(s, id, req, ip);
    ArrivePlaces(s, id, req, ip);
    ArriveRest(s, id, req, ip);
    ArriveTasks(s, t, id);
  }

  lemma ArriveRest(s: State, id: nat, req: Register, ip: nat)
    requires OnceInv(s) && GrantsInv(s) && id !in s.tasks && id !in s.places && id !in s.written
    ensures var t := ArriveStep(s, id, req, ip); OnceInv(t) && GrantsInv(t) && TaskOk(t, id, t.tasks[id])
  {
  }

  lemma ArriveTasks(s: State, t: State, id: nat)
    requires TasksInv(s) && Grows(s, t) && id !in s.tasks && id in t.tasks && t.tasks == s.tasks[id := t.tasks[id]]
    requires t.places == s.places && TaskOk(t, id, t.tasks[id])
    requires forall j :: j in t.written ==> j in s.written || j == id
    ensures TasksInv(t)
  {
    forall j | j in t.tasks
      ensures TaskOk(t, j, t.tasks[j])
    {
      if j != id {
        assert TaskOk(s, j, s.tasks[j]);
        TaskStays(s, t, j);
      }
    }
  }

  lemma ArrivePlaces(s: State, id: nat, req: Register, ip: nat)
    requires PlacesInv(s) && WrittenInv(s) && ServedInv(s) && Enabled(s, Arrive(id, req, ip))
    requires Grows(s, ArriveStep(s, id, req, ip))
    ensures var t := ArriveStep(s, id, req, ip); PlacesInv(t) && WrittenInv(t) && ServedInv(t)
  {
    ArriveServed(s, id, req, ip);
    ArrivePlaced(s, ArriveStep(s, id, req, ip), id);
  }

  lemma ArrivePlaced(s: State, t: State, id: nat)
    requires PlacesInv(s) && Grows(s, t) && id !in s.tasks && id in t.tasks && t.tasks == s.tasks[id := t.tasks[id]]
    requires t.places == s.places && t.waiting == s.waiting && !IsFirst(t.tasks[id].pc)
    ensures PlacesInv(t)
  {
    forall i | i in t.places
      ensures PlaceOk(t, i, t.places[i])
    {
      assert PlaceOk(s, i, s.places[i]);
      if s.places[i].Sent? {
        SentStays(s, t, i);
      }
    }
  }

  lemma ArriveServed(s: State, id: nat, req: Register, ip: nat)
    requires ServedInv(s) && Enabled(s, Arrive(id, req, ip))
    ensures ServedInv(ArriveStep(s, id, req, ip))
  {
    forall j | j in s.served
      ensures ServedOk(ArriveStep(s, id, req, ip), j, s.served[j])
    {
      assert ServedOk(s, j, s.served[j]);
    }
  }

  lemma ArriveWaiters(s: State, id: nat, req: Register, ip: nat)
    requires MapInv(s) && HeldInv(s) && Enabled(s, Arrive(id, req, ip))
    ensures var t := ArriveStep(s, id, req, ip); Grows(s, t) && MapInv(t) && HeldInv(t)
  {
    var t := ArriveStep(s, id, req, ip);
    forall c | c in t.waiting
      ensures WaiterOk(t, t.waiting[c])
    {
      assert WaiterOk(s, s.waiting[c]);
    }
    forall j | j in t.tasks && Holding(t.tasks[j].pc)
      ensures HoldsOk(t, j, t.tasks[j].pc.w)
    {
      assert HoldsOk(s, j, s.tasks[j].pc.w);
    }
  }

  lemma SecondPeerKeeps(s: State, a: Action)
    requires Inv(s) && Enabled(s, a) && (a.Take? || a.Decide? || a.PutBackWaiter? || a.Write? || a.Notify?)
    ensures Inv(Apply(s, a))
  {
    match a
    case Take(id) => TakeKeeps(s, id);
    case Decide(id, token) => DecideKeeps(s, id, token);
    case PutBackWaiter(id) => PutBackKeeps(s, id);
    case Write(id, ok) => if ok { ServeKeeps(s, id); } else { DropKeeps(s, id); }
    case Notify(id) => NotifyKeeps(s, id);
  }

  lemma FirstPeerKeeps(s: State, a: Action)
    requires Inv(s) && Enabled(s, a) && (a.Wake? || a.TimeOut? || a.CleanUp? || a.Answer?)
    ensures Inv(Apply(s, a))
  {
    match a
    case Wake(id) => WakeKeeps(s, id);
    case TimeOut(id) => TimeOutKeeps(s, id);
    case CleanUp(id) => CleanUpKeeps(s, id);
    case Answer(id, ok) => AnswerKeeps(s, id, ok);
  }

  lemma EntryKeeps(s: State, a: Action)
    requires Inv(s) && Enabled(s, a) && (a.Arrive? || a.Insert?)
    ensures Inv(Apply(s, a))
  {
    match a
    case Arrive(id, req, ip) => ArriveKeeps(s, id, req, ip);
    case Insert(id, delay) => InsertKeeps(s, id, delay);
  }

  lemma {:induction false} StepKeeps(s: State, a: Action)
    requires Inv(s) && Enabled(s, a)
    ensures Inv(Apply(s, a))
  {
    if a.Take? || a.Decide? || a.PutBackWaiter? || a.Write? || a.Notify? {
      SecondPeerKeeps(s, a);
    } else if a.Wake? || a.TimeOut? || a.CleanUp? || a.Answer? {
      FirstPeerKeeps(s, a);
    } else if a.Arrive? || a.Insert? {
      EntryKeeps(s, a);
    } else {
      AsideStepKeeps(s, a);
    }
  }

  // ----- every run -----

  const NO_RESERVATIONS := Reservations(map[], map[], {})

  function Start(ttl: nat, relay: Option<Endpoint>): State {
    State(0, ttl, relay, map[], map[], map[], map[], map[], map[], NO_RESERVATIONS)
  }

  ghost predicate Runs(s: State, actions: seq<Action>, t: State)
    decreases |actions|
  {
    if actions == [] then s == t
    else Enabled(s, actions[0]) && Runs(Apply(s, actions[0]), actions[1..], t)
  }

  ghost predicate Reachable(t: State) {
    exists ttl: nat, relay, actions :: Runs(Start(ttl, relay), actions, t)
  }

  lemma {:induction false} RunKeeps(s: State, actions: seq<Action>, t: State)
    requires Inv(s) && Runs(s, actions, t)
    ensures Inv(t)
    decreases |actions|
  {
    if actions != [] {
      StepKeeps(s, actions[0]);
      RunKeeps(Apply(s, actions[0]), actions[1..], t);
    }
  }

  lemma ReachableInv(t: State)
    requires Reachable(t)
    ensures Inv(t)
  {
    var ttl: nat, relay, actions :| Runs(Start(ttl, relay), actions, t);
    RunKeeps(Start(ttl, relay), actions, t);
  }

  // ----- who the tasks are -----

  /** A task's registration is what its client asked for, with the address its connection came from in place of
      the one it claimed; only the port is the client's word. */
  ghost predicate KnowsItsClient(s: State, i: nat) {
    && i in s.tasks && i in s.connections
    && s.tasks[i].req == s.connections[i].asked.(endpoint := Endpoint(s.connections[i].ip, s.connections[i].asked.endpoint.port))
  }

  ghost predicate ClientsKnown(s: State) { forall i :: i in s.tasks ==> KnowsItsClient(s, i) }

  /** Who the tasks are never changes. */
  ghost predicate SameClients(s: State, t: State) {
    t.tasks.Keys == s.tasks.Keys && t.connections == s.connections && forall i :: i in s.tasks ==> t.tasks[i].req == s.tasks[i].req
  }

  lemma TakerIsSame(s: State, a: Action)
    requires Enabled(s, a) && (a.Take? || a.Decide?)
    ensures SameClients(s, Apply(s, a))
  {
  }

  lemma PutBackIsSame(s: State, id: nat)
    requires Enabled(s, PutBackWaiter(id))
    ensures SameClients(s, PutBackStep(s, id))
  {
  }

  lemma SecondPeerIsSame(s: State, a: Action)
    requires Enabled(s, a) && (a.PutBackWaiter? || a.Write? || a.Notify?)
    ensures SameClients(s, Apply(s, a))
  {
    if a.PutBackWaiter? {
      PutBackIsSame(s, a.id);
    }
  }

  lemma FirstPeerIsSame(s: State, a: Action)
    requires Enabled(s, a) && (a.Wake? || a.TimeOut? || a.CleanUp? || a.Answer? || a.Insert?)
    ensures SameClients(s, Apply(s, a))
  {
  }

  lemma ClientsStayKnown(s: State, a: Action)
    requires ClientsKnown(s) && Enabled(s, a)
    ensures ClientsKnown(Apply(s, a))
    ensures a.Arrive? ==> Apply(s, a).connections == s.connections[a.id := Connection(a.req, a.ip)]
    ensures !a.Arrive? ==> Apply(s, a).connections == s.connections
  {
    if a.Arrive? {
      ArrivalIsKnown(s, a.id, a.req, a.ip);
    } else {
      if a.Take? || a.Decide? {
        TakerIsSame(s, a);
      } else if a.PutBackWaiter? || a.Write? || a.Notify? {
        SecondPeerIsSame(s, a);
      } else if a.Wake? || a.TimeOut? || a.CleanUp? || a.Answer? || a.Insert? {
        FirstPeerIsSame(s, a);
      }
      SameAreKnown(s, Apply(s, a));
    }
  }

  lemma SameAreKnown(s: State, t: State)
    requires ClientsKnown(s) && SameClients(s, t)
    ensures ClientsKnown(t)
  {
    forall i | i in t.tasks
      ensures KnowsItsClient(t, i)
    {
      assert KnowsItsClient(s, i);
    }
  }

  lemma ArrivalIsKnown(s: State, id: nat, req: Register, ip: nat)
    requires ClientsKnown(s) && id !in s.tasks
    ensures ClientsKnown(ArriveStep(s, id, req, ip))
  {
    forall i | i in s.tasks
      ensures KnowsItsClient(ArriveStep(s, id, req, ip), i)
    {
      assert KnowsItsClient(s, i);
    }
  }

  lemma {:induction false} RunKnowsClients(s: State, actions: seq<Action>, t: State)
    requires ClientsKnown(s) && Runs(s, actions, t)
    ensures ClientsKnown(t)
    decreases |actions|
  {
    if actions != [] {
      ClientsStayKnown(s, actions[0]);
      RunKnowsClients(Apply(s, actions[0]), actions[1..], t);
    }
  }

  lemma ReachableKnowsClients(t: State)
    requires Reachable(t)
    ensures ClientsKnown(t)
  {
    var ttl: nat, relay, actions :| Runs(Start(ttl, relay), actions, t);
    RunKnowsClients(Start(ttl, relay), actions, t);
  }

  /** What the server hands out of a client's registration: where its connection came from, with its own port. */
  function Contact(c: Connection): Reply {
    Match(Endpoint(c.ip, c.asked.endpoint.port), c.asked.fingerprint, c.asked.device)
  }

  /** The two replies mirror each other: each peer is told the other's contact, or, exactly when one of them asked
      for a relay and there is one, both get its address and one token. That token was reserved by the second
      peer's task for their two different fingerprints. */
  ghost predicate MirroredReplies(s: State, first: nat, second: nat, toFirst: Reply, toSecond: Reply)
    requires first in s.connections && second in s.connections
  {
    var a, b := s.connections[first].asked, s.connections[second].asked;
    if s.relay.Some? && (a.wantRelay || b.wantRelay) then
      && toFirst.RelayMatch? && a.fingerprint != b.fingerprint
      && toFirst == RelayMatch(s.relay.value, toFirst.token, b.fingerprint, b.device)
      && toSecond == RelayMatch(s.relay.value, toFirst.token, a.fingerprint, a.device)
      && HasGrant(s, second, Grant(toFirst.token, a.fingerprint, b.fingerprint))
    else
      toFirst == Contact(s.connections[second]) && toSecond == Contact(s.connections[first])
  }

  /** Mirroring: when a first peer is about to be answered with a match, the peer it names, under the same
      code, has already been written the mirror of that answer. */
  lemma FirstAnswerIsMirrored(s: State, id: nat) returns (peer: nat)
    requires Reachable(s) && id in s.tasks && s.tasks[id].pc.Replying? && IsMatch(AnswerOf(s.tasks[id].pc.outcome))
    ensures id in s.connections && peer in s.connections && peer != id
    ensures s.connections[peer].asked.code == s.connections[id].asked.code
    ensures peer in s.written && id !in s.written
    ensures MirroredReplies(s, id, peer, AnswerOf(s.tasks[id].pc.outcome), s.written[peer])
    ensures peer in s.served && s.served[peer] == id
  {
    ReachableInv(s);
    ReachableKnowsClients(s);
    assert TaskOk(s, id, s.tasks[id]);
    assert PlaceOk(s, id, s.places[id]);
    peer := s.places[id].payload.from;
    assert KnowsItsClient(s, id) && KnowsItsClient(s, peer);
  }

  /** A granted token is the pair's own: until the relay evicts its session it maps to just the two fingerprints
      it was granted for, and every other grant of the same token has lapsed. */
  lemma TokenIsExclusive(s: State, j: nat, k: nat)
    requires Reachable(s) && j in s.reservations.grants && j !in s.reservations.lapsed
    ensures var r := s.reservations;
            && r.grants[j].token in r.sessions
            && r.sessions[r.grants[j].token] == (r.grants[j].first, r.grants[j].second)
            && (k in r.grants && k != j && r.grants[k].token == r.grants[j].token ==> k in r.lapsed)
  {
    ReachableInv(s);
  }

  /** A grant lapses by the eviction of its session and in no other way. */
  lemma LapsesByEviction(s: State, a: Action, j: nat)
    requires Reachable(s) && Enabled(s, a) && j !in s.reservations.lapsed
    ensures j in Apply(s, a).reservations.lapsed <==> j in s.reservations.grants && a == Evict(s.reservations.grants[j].token)
  {
    ReachableInv(s);
    if a.Decide? {
      assert Apply(s, a).reservations.lapsed == s.reservations.lapsed;
    }
  }

  /** So does a session: it keeps its two fingerprints until then, and can be granted anew only afterwards. */
  lemma SessionLastsUntilEvicted(s: State, a: Action, token: nat)
    requires Enabled(s, a) && token in s.reservations.sessions
    ensures var after := Apply(s, a).reservations.sessions;
            if a == Evict(token) then token !in after
            else token in after && after[token] == s.reservations.sessions[token]
  {
  }

  /** So no other pair was written the token: while second peer `j`'s grant stands, whoever was written a relay
      match with its token is `j`, or the first peer it was paired with, or of a pair whose session was evicted. */
  lemma TokenWrittenToOnePair(s: State, j: nat, i: nat) returns (first: nat, second: nat)
    requires Reachable(s) && j in s.reservations.grants && j !in s.reservations.lapsed
    requires i in s.written && s.written[i].RelayMatch? && s.written[i].token == s.reservations.grants[j].token
    ensures second in s.served && s.served[second] == first && (i == first || i == second)
    ensures HasToken(s, second, s.written[i].token) && (second == j || second in s.reservations.lapsed)
  {
    first, second := EveryMatchHasItsPair(s, i);
    ReachableInv(s);
    TokenIsExclusive(s, j, second);
  }

  predicate HasToken(s: State, j: nat, token: nat) {
    j in s.reservations.grants && s.reservations.grants[j].token == token
  }

  /** A reply that hands out this client. */
  predicate NamesClient(reply: Reply, c: Connection) {
    || reply == Contact(c)
    || (reply.RelayMatch? && reply.fingerprint == c.asked.fingerprint && reply.device == c.asked.device)
  }

  /** Every match ever written belongs to one pair: a second peer's names the waiter it was served; a first
      peer's mirrors that of the second peer which was served its waiter. */
  lemma EveryMatchHasItsPair(s: State, i: nat) returns (first: nat, second: nat)
    requires Reachable(s) && i in s.written && IsMatch(s.written[i])
    ensures second in s.served && s.served[second] == first && (i == first || i == second) && first != second
    ensures first in s.connections && second in s.connections
    ensures s.connections[first].asked.code == s.connections[second].asked.code
    ensures second in s.written && NamesClient(s.written[second], s.connections[first])
    ensures s.written[second].RelayMatch? ==> HasToken(s, second, s.written[second].token)
    ensures i == first ==> MirroredReplies(s, first, second, s.written[first], s.written[second])
  {
    ReachableInv(s);
    if i in s.places {
      assert PlaceOk(s, i, s.places[i]);
      first, second := i, s.places[i].payload.from;
    } else {
      first, second := s.served[i], i;
    }
    assert ServedOk(s, second, first);
    ReachableKnowsClients(s);
    assert KnowsItsClient(s, first) && KnowsItsClient(s, second);
  }

  /** ... and no registration is in two pairs, on either side or on both. */
  lemma PairsAreDisjoint(s: State, j: nat, k: nat)
    requires Reachable(s) && j in s.served && k in s.served
    ensures s.served[j] == s.served[k] ==> j == k
    ensures s.served[j] != k
  {
    ReachableInv(s);
    assert ServedOk(s, j, s.served[j]) && ServedOk(s, k, s.served[k]);
  }

  /** Conservation: a registered waiter is in exactly one place. It is under its own code in the map, or with
      the one task that took it, or resolved; and a task that waits always has one. */
  lemma EachWaiterIsInOnePlace(s: State, i: nat)
    requires Reachable(s) && i in s.tasks
    ensures IsFirst(s.tasks[i].pc) ==> i in s.places
    ensures i in s.places ==>
              && (s.places[i].Queued? <==> exists c :: c in s.waiting && s.waiting[c].id == i)
              && (forall c :: c in s.waiting && s.waiting[c].id == i ==> c == s.tasks[i].req.code)
              && (forall j :: j in s.tasks ==> (s.places[i] == With(j) <==> Holding(s.tasks[j].pc) && s.tasks[j].pc.w.id == i))
    ensures i !in s.places ==> forall c :: c in s.waiting ==> s.waiting[c].id != i
  {
    ReachableInv(s);
    if i in s.places {
      assert PlaceOk(s, i, s.places[i]);
      forall j | j in s.tasks
        ensures s.places[i] == With(j) <==> Holding(s.tasks[j].pc) && s.tasks[j].pc.w.id == i
      {
        if Holding(s.tasks[j].pc) {
          assert HoldsOk(s, j, s.tasks[j].pc.w);
        }
      }
    }
  }

  /** A waiter taken for pairing has not expired. */
  lemma TakenIsLive(s: State, id: nat)
    requires Reachable(s) && Enabled(s, Take(id)) && Apply(s, Take(id)).tasks[id].pc.Deciding?
    ensures Apply(s, Take(id)).tasks[id].pc.w.expiresAt > s.now
    ensures Apply(s, Take(id)).tasks[id].pc.w.first.code == s.tasks[id].req.code
    ensures var w := Apply(s, Take(id)).tasks[id].pc.w; w.id in s.tasks && s.tasks[w.id].pc.Awaiting?
  {
    ReachableInv(s);
    assert WaiterOk(s, s.waiting[s.tasks[id].req.code]);
  }

  /** Putting a waiter back after a refusal leaves every other entry alone: one that raced in stays. */
  lemma {:induction false} PutBackSpares(s: State, id: nat, c: Code)
    requires Reachable(s) && Enabled(s, PutBackWaiter(id)) && c in s.waiting
    ensures c in Apply(s, PutBackWaiter(id)).waiting && Apply(s, PutBackWaiter(id)).waiting[c] == s.waiting[c]
  {
    ReachableInv(s);
  }

  /** Another task's entry under the code, of the same device and still live. */
  ghost predicate SameDeviceWaits(s: State, id: nat, j: nat)
    requires id in s.tasks
  {
    && j != id && j in s.places && s.places[j].Queued? && j in s.tasks
    && s.tasks[j].req.code == s.tasks[id].req.code && s.tasks[j].req.device == s.tasks[id].req.device
    && Lists(s, s.waiting, j) && s.waiting[s.tasks[j].req.code].expiresAt > s.now
  }

  ghost predicate RemovesLiveEntry(s: State, id: nat)
    requires Enabled(s, CleanUp(id))
  {
    exists c :: c in s.waiting && c !in Apply(s, CleanUp(id)).waiting
                && s.waiting[c].id != id && s.waiting[c].expiresAt > s.now
  }

  /** Cleaning up compares device ids only. It removes a live entry of another task exactly when the same device
      has one under the same code; and it never changes an entry. */
  lemma CleanUpHitsIff(s: State, id: nat)
    requires Reachable(s) && Enabled(s, CleanUp(id))
    ensures RemovesLiveEntry(s, id) <==> exists j :: SameDeviceWaits(s, id, j)
    ensures forall c :: c in Apply(s, CleanUp(id)).waiting ==> c in s.waiting && Apply(s, CleanUp(id)).waiting[c] == s.waiting[c]
  {
    ReachableInv(s);
    var code := s.tasks[id].req.code;
    if RemovesLiveEntry(s, id) {
      assert WaiterOk(s, s.waiting[code]);
      assert SameDeviceWaits(s, id, s.waiting[code].id);
    }
    if j :| SameDeviceWaits(s, id, j) {
      assert WaiterOk(s, s.waiting[code]);
      assert code in s.waiting && code !in Apply(s, CleanUp(id)).waiting;
    }
  }

  /** No two unfinished registrations of one device under one code. */
  ghost predicate OneInFlight(s: State) {
    forall i, j :: i in s.tasks && j in s.tasks && !s.tasks[i].pc.Finished? && !s.tasks[j].pc.Finished? ==>
      s.tasks[i].req.device == s.tasks[j].req.device && s.tasks[i].req.code == s.tasks[j].req.code ==> i == j
  }

  /** With one registration per device and code in flight nothing but the task's own entry or a dead one goes. */
  lemma CleanUpSpares(s: State, id: nat)
    requires Reachable(s) && OneInFlight(s) && Enabled(s, CleanUp(id))
    ensures !RemovesLiveEntry(s, id)
  {
    CleanUpHitsIff(s, id);
    LiveEntryAwaits(s);
  }

  /** The task of a live entry still waits. */
  lemma LiveEntryAwaits(s: State)
    requires Reachable(s)
    ensures forall c :: c in s.waiting && s.waiting[c].expiresAt > s.now ==>
              s.waiting[c].id in s.tasks && s.tasks[s.waiting[c].id].pc.Awaiting?
  {
    ReachableInv(s);
    forall c | c in s.waiting && s.waiting[c].expiresAt > s.now
      ensures s.waiting[c].id in s.tasks && s.tasks[s.waiting[c].id].pc.Awaiting?
    {
      assert WaiterOk(s, s.waiting[c]);
    }
  }

  lemma {:induction false} RunsSnoc(s: State, actions: seq<Action>, t: State, a: Action)
    requires Runs(s, actions, t) && Enabled(t, a)
    ensures Runs(s, actions + [a], Apply(t, a))
    decreases |actions|
  {
    if actions == [] {
      assert Runs(Apply(t, a), [], Apply(t, a));
    } else {
      RunsSnoc(Apply(s, actions[0]), actions[1..], t, a);
      assert (actions + [a])[1..] == actions[1..] + [a];
    }
  }

  lemma ReachableStep(t: State, a: Action)
    requires Reachable(t) && Enabled(t, a)
    ensures Reachable(Apply(t, a))
  {
    var ttl: nat, relay, actions :| Runs(Start(ttl, relay), actions, t);
    RunsSnoc(Start(ttl, relay), actions, t, a);
  }

  const FIRST_DEVICE: Register := Register(1, "abcd", Endpoint(1, 1), 10, 7, false)
  const SECOND_DEVICE: Register := Register(1, "abcd", Endpoint(2, 2), 20, 8, false)

  const BOTH_CONNECTED: map<nat, Connection> := map[0 := Connection(FIRST_DEVICE, 1), 1 := Connection(SECOND_DEVICE, 2)]

  /** Task `id` at `pc`, of a client that told its own address. */
  function Comes(s: State, id: nat, r: Register, pc: Pc): State {
    s.(tasks := s.tasks[id := Task(r, pc)], connections := s.connections[id := Connection(r, r.endpoint.ip)])
  }

  function OneWaits(): State {
    State(0, 300, None, map["abcd" := Waiter(0, FIRST_DEVICE, 300)], map[0 := Task(FIRST_DEVICE, Awaiting(300))],
          map[0 := Connection(FIRST_DEVICE, 1)], map[0 := Queued], map[], map[], NO_RESERVATIONS)
  }

  function OnePaired(): State {
    State(0, 300, None, map[], map[0 := Task(FIRST_DEVICE, Awaiting(300)), 1 := Task(SECOND_DEVICE, Finished)],
          BOTH_CONNECTED, map[0 := Sent(Direct(SECOND_DEVICE, 1))], map[1 := MatchOf(FIRST_DEVICE)], map[1 := 0], NO_RESERVATIONS)
  }

  function Waits(s: State, id: nat, r: Register): State {
    Comes(s, id, r, Awaiting(s.now + s.ttl)).(waiting := map["abcd" := Waiter(id, r, s.now + s.ttl)],
                                              places := s.places[id := Queued])
  }

  lemma Arrives(s: State, id: nat, r: Register)
    requires Enabled(s, Arrive(id, r, r.endpoint.ip)) && r.version == 1 && r.code == "abcd"
    ensures Apply(s, Arrive(id, r, r.endpoint.ip)) == Comes(s, id, r, Fresh)
  {
    assert IsValidCode("abcd");
    assert Stamp(r, r.endpoint.ip) == r;
  }

  lemma FindsNobody(s: State, id: nat)
    requires Enabled(s, Take(id)) && s.waiting == map[] && forall i :: i in s.places ==> !s.places[i].Queued?
    ensures Apply(s, Take(id)) == Goto(s, id, First)
  {
    assert SetWaiting(s, map[]).places == s.places;
    assert Retained(map[], s.now) == map[];
  }

  lemma IsInserted(s: State, id: nat)
    requires Enabled(s, Insert(id, 0)) && s.waiting == map[] && s.tasks[id].req.code == "abcd"
    requires id in s.connections && s.connections[id] == Connection(s.tasks[id].req, s.tasks[id].req.endpoint.ip)
    requires forall i :: i in s.places ==> !s.places[i].Queued?
    ensures Apply(s, Insert(id, 0)) == Waits(s, id, s.tasks[id].req)
  {
    assert SetWaiting(s, map[]).places == s.places;
    assert Retained(map[], s.now) == map[];
  }

  lemma OneArrives(s: State, id: nat)
    requires Reachable(s) && Enabled(s, Arrive(id, FIRST_DEVICE, 1)) && s.waiting == map[]
    requires forall i :: i in s.places ==> !s.places[i].Queued?
    ensures Reachable(Comes(s, id, FIRST_DEVICE, First))
  {
    Arrives(s, id, FIRST_DEVICE);
    ReachableStep(s, Arrive(id, FIRST_DEVICE, 1));
    var u := Comes(s, id, FIRST_DEVICE, Fresh);
    FindsNobody(u, id);
    ReachableStep(u, Take(id));
    assert Goto(u, id, First).tasks == Comes(s, id, FIRST_DEVICE, First).tasks;
  }

  lemma OneRegisters(s: State, id: nat)
    requires Reachable(s) && Enabled(s, Arrive(id, FIRST_DEVICE, 1)) && s.waiting == map[]
    requires forall i :: i in s.places ==> !s.places[i].Queued?
    ensures Reachable(Waits(s, id, FIRST_DEVICE))
  {
    OneArrives(s, id);
    var v := Comes(s, id, FIRST_DEVICE, First);
    IsInserted(v, id);
    ReachableStep(v, Insert(id, 0));
    WaitsOnce(s, id, FIRST_DEVICE);
  }

  lemma WaitsOnce(s: State, id: nat, r: Register)
    ensures Waits(Comes(s, id, r, First), id, r) == Waits(s, id, r)
  {
    var v := Comes(s, id, r, First);
    assert Waits(v, id, r).tasks == Waits(s, id, r).tasks && Waits(v, id, r).connections == Waits(s, id, r).connections;
  }

  lemma OnePairs()
    ensures Reachable(OnePaired())
  {
    var start := Start(300, None);
    assert Runs(start, [], start);
    OneRegisters(start, 0);
    assert Waits(start, 0, FIRST_DEVICE) == OneWaits();
    Arrives(OneWaits(), 1, SECOND_DEVICE);
    ReachableStep(OneWaits(), Arrive(1, SECOND_DEVICE, 2));
    SecondTakes();
    ReachableStep(Comes(OneWaits(), 1, SECOND_DEVICE, Fresh), Take(1));
    SecondServes();
    ReachableStep(OneTaken(), Decide(1, 0));
    ReachableStep(OneDecided(), Write(1, true));
    ReachableStep(OneServed(), Notify(1));
  }

  function OneTaken(): State {
    State(0, 300, None, map[],
          map[0 := Task(FIRST_DEVICE, Awaiting(300)), 1 := Task(SECOND_DEVICE, Deciding(Waiter(0, FIRST_DEVICE, 300)))],
          BOTH_CONNECTED, map[0 := With(1)], map[], map[], NO_RESERVATIONS)
  }

  function OneDecided(): State {
    Goto(OneTaken(), 1, Writing(Waiter(0, FIRST_DEVICE, 300), MatchOf(FIRST_DEVICE), Direct(SECOND_DEVICE, 1)))
  }

  function OneServed(): State {
    Goto(OneTaken().(written := map[1 := MatchOf(FIRST_DEVICE)], served := map[1 := 0]), 1,
         Notifying(Waiter(0, FIRST_DEVICE, 300), Direct(SECOND_DEVICE, 1)))
  }

  lemma SecondTakes()
    ensures var s := Comes(OneWaits(), 1, SECOND_DEVICE, Fresh);
            Enabled(s, Take(1)) && Apply(s, Take(1)) == OneTaken()
  {
    var s := Comes(OneWaits(), 1, SECOND_DEVICE, Fresh);
    assert Without(Retained(s.waiting, 0), "abcd") == map[];
    assert Put(SetWaiting(s, map[]), 0, With(1)).places == map[0 := With(1)];
  }

  lemma SecondServes()
    ensures Enabled(OneTaken(), Decide(1, 0)) && Apply(OneTaken(), Decide(1, 0)) == OneDecided()
    ensures Enabled(OneDecided(), Write(1, true)) && Apply(OneDecided(), Write(1, true)) == OneServed()
    ensures Enabled(OneServed(), Notify(1)) && Apply(OneServed(), Notify(1)) == OnePaired()
  {
    assert NotifyStep(OneServed(), 1).places == OnePaired().places;
    assert NotifyStep(OneServed(), 1).tasks == OnePaired().tasks;
    assert WriteStep(OneDecided(), 1, true).tasks == OneServed().tasks;
  }

  /** Without the hypothesis cleaning up can remove a live waiter: a device that is paired and registers the
      same code again, before its first task cleans up, loses its second registration. */
  lemma CleanUpHitsNewcomer() returns (s: State)
    ensures Reachable(s) && Enabled(s, CleanUp(0)) && "abcd" in s.waiting
    ensures s.waiting["abcd"].id == 2 && s.waiting["abcd"].expiresAt > s.now
    ensures 2 in s.tasks && s.tasks[2].pc.Awaiting?
    ensures "abcd" !in Apply(s, CleanUp(0)).waiting
  {
    OnePairs();
    ReachableStep(OnePaired(), Wake(0));
    var t := WakeStep(OnePaired(), 0);
    OneRegisters(t, 2);
    s := Waits(t, 2, FIRST_DEVICE);
  }
}
