/** What peers who are not interrupted get: each run of steps below starts in any reachable state. */
module RendezvousPairing {
  import opened Prelude
  import opened Rendezvous
  import opened RendezvousSafety

  // ----- runs -----

  lemma {:induction false} RunsJoin(s: State, xs: seq<Action>, t: State, ys: seq<Action>, u: State)
    requires Runs(s, xs, t) && Runs(t, ys, u)
    ensures Runs(s, xs + ys, u)
    decreases |xs|
  {
    if xs == [] {
      assert xs + ys == ys;
    } else {
      RunsJoin(Apply(s, xs[0]), xs[1..], t, ys, u);
      assert (xs + ys)[1..] == xs[1..] + ys;
    }
  }

  lemma OneStep(s: State, a: Action)
    requires Enabled(s, a)
    ensures Runs(s, [a], Apply(s, a))
  {
    assert [a][1..] == [];
    assert Runs(Apply(s, a), [], Apply(s, a));
  }

  lemma ThreeSteps(s: State, a: Action, b: Action, c: Action)
    requires Enabled(s, a) && Enabled(Apply(s, a), b) && Enabled(Apply(Apply(s, a), b), c)
    ensures Runs(s, [a, b, c], Apply(Apply(Apply(s, a), b), c))
  {
    OneStep(Apply(Apply(s, a), b), c);
    assert [a, b, c][1..] == [b, c] && [b, c][1..] == [c];
  }

  lemma {:induction false} RunReaches(s: State, xs: seq<Action>, t: State)
    requires Reachable(s) && Runs(s, xs, t)
    ensures Reachable(t)
    decreases |xs|
  {
    if xs != [] {
      ReachableStep(s, xs[0]);
      RunReaches(Apply(s, xs[0]), xs[1..], t);
    }
  }

  // ----- arriving -----

  /** A registration gets as far as the map exactly if it speaks version 1 and its code has 4 to 32 letters and digits;
      otherwise it is rejected at once. */
  lemma AdmittedIff(s: State, id: nat, req: Register, ip: nat)
    requires Enabled(s, Arrive(id, req, ip))
    ensures var t := Apply(s, Arrive(id, req, ip));
            var admitted := && req.version == 1 && 4 <= |req.code| <= 32
                            && forall k :: 0 <= k < |req.code| ==>
                                 '0' <= req.code[k] <= '9' || 'a' <= req.code[k] <= 'z' || 'A' <= req.code[k] <= 'Z';
            && (t.tasks[id].pc == Fresh <==> admitted)
            && (!admitted ==> t.tasks[id].pc == Finished && t.written == s.written[id := Rejected])
            && (admitted ==> t.written == s.written)
  {
  }

  /** The code's slot is taken: a waiter who has not expired. */
  predicate LiveUnder(s: State, code: Code) { code in s.waiting && s.waiting[code].expiresAt > s.now }

  /** A first peer that finds nobody is in the map until its time is up. */
  lemma FirstPeerWaits(s: State, i: nat, req: Register, ip: nat, delay: nat) returns (t: State)
    requires Enabled(s, Arrive(i, req, ip)) && req.version == PROTOCOL_VERSION && IsValidCode(req.code)
    requires !LiveUnder(s, req.code)
    ensures Runs(s, [Arrive(i, req, ip), Take(i), Insert(i, delay)], t)
    ensures req.code in t.waiting && t.waiting[req.code].id == i && t.waiting[req.code].expiresAt == s.now + s.ttl
    ensures i in t.tasks && t.tasks[i].pc == Awaiting(s.now + s.ttl + delay) && i in t.places && t.places[i] == Queued
    ensures i in t.connections && t.connections[i] == Connection(req, ip) && t.now == s.now && t.relay == s.relay
    ensures t.tasks.Keys == s.tasks.Keys + {i} && t.reservations == s.reservations
  {
    var arrived := Apply(s, Arrive(i, req, ip));
    TakesNobody(arrived, i);
    var first := Apply(arrived, Take(i));
    Enters(first, i, delay);
    t := Apply(first, Insert(i, delay));
    ThreeSteps(s, Arrive(i, req, ip), Take(i), Insert(i, delay));
  }

  lemma TakesNobody(s: State, i: nat)
    requires Enabled(s, Take(i)) && !LiveUnder(s, s.tasks[i].req.code)
    ensures var t := Apply(s, Take(i));
            && t.tasks == s.tasks[i := s.tasks[i].(pc := First)] && !LiveUnder(t, s.tasks[i].req.code)
            && t.connections == s.connections && t.now == s.now && t.ttl == s.ttl && t.relay == s.relay
            && t.reservations == s.reservations
  {
  }

  lemma Enters(s: State, i: nat, delay: nat)
    requires Enabled(s, Insert(i, delay)) && !LiveUnder(s, s.tasks[i].req.code)
    ensures var t := Apply(s, Insert(i, delay));
            && t.tasks == s.tasks[i := s.tasks[i].(pc := Awaiting(s.now + s.ttl + delay))]
            && s.tasks[i].req.code in t.waiting
            && t.waiting[s.tasks[i].req.code] == Waiter(i, s.tasks[i].req, s.now + s.ttl)
            && i in t.places && t.places[i] == Queued
            && t.connections == s.connections && t.now == s.now && t.relay == s.relay
            && t.reservations == s.reservations
  {
  }

  /** Of two peers that both found nobody the later one is rejected, and that exactly if the earlier is still live;
      its entry stays. */
  lemma LaterOfTwoIsRejectedIff(s: State, id: nat, delay: nat)
    requires Reachable(s) && Enabled(s, Insert(id, delay))
    ensures var t, code := Apply(s, Insert(id, delay)), s.tasks[id].req.code;
            && (LiveUnder(s, code) <==> id in t.written && t.written[id] == Rejected && t.tasks[id].pc.Finished?)
            && (LiveUnder(s, code) ==> code in t.waiting && t.waiting[code] == s.waiting[code])
            && (!LiveUnder(s, code) ==> id in t.places && t.places[id].Queued? && t.tasks[id].pc.Awaiting?)
  {
    ReachableInv(s);
    assert TaskOk(s, id, s.tasks[id]);
  }

  // ----- the second peer -----

  /** Second peer `j` is about to look for its code, under which `i` waits. */
  ghost predicate Meets(s: State, i: nat, j: nat) {
    && j in s.tasks && s.tasks[j].pc.Fresh? && LiveUnder(s, s.tasks[j].req.code)
    && s.waiting[s.tasks[j].req.code].id == i
  }

  /** ... or has just taken it: nobody else has moved. */
  ghost predicate Took(s: State, t: State, i: nat, j: nat, w: Waiter) {
    && i in s.tasks && j in s.tasks && i != j && w.id == i && w.first == s.tasks[i].req
    && s.tasks[i].pc.Awaiting? && s.tasks[i].req.code == s.tasks[j].req.code
    && t.tasks == s.tasks[j := s.tasks[j].(pc := Deciding(w))]
    && t.relay == s.relay && t.reservations == s.reservations && t.connections == s.connections && t.written == s.written
    && i in t.places && t.places[i] == With(j) && j !in t.places && w.first.code !in t.waiting && t.now == s.now
  }

  lemma Takes(s: State, i: nat, j: nat)
    requires Inv(s) && Meets(s, i, j)
    ensures Took(s, Apply(s, Take(j)), i, j, s.waiting[s.tasks[j].req.code])
  {
    var code := s.tasks[j].req.code;
    var w := s.waiting[code];
    assert WaiterOk(s, w);
    assert j in s.places ==> PlaceOk(s, j, s.places[j]);
  }

  /** Whether the pair is to be relayed, and if so, whether the relay will have it. */
  predicate Relayed(s: State, a: Register, b: Register) { s.relay.Some? && (a.wantRelay || b.wantRelay) }

  predicate Refusable(s: State, a: Register, b: Register, token: nat) {
    Relayed(s, a, b) && (a.fingerprint == b.fingerprint || token in s.reservations.sessions)
  }

  /** Each is to be told who the other is, and the first where its waiter is. */
  ghost predicate Told(s: State, i: nat, j: nat, token: nat, toFirst: Reply, toSecond: Reply)
    requires i in s.connections && j in s.connections
  {
    var a, b := s.connections[i].asked, s.connections[j].asked;
    if s.relay.Some? && (a.wantRelay || b.wantRelay) then
      && toFirst == RelayMatch(s.relay.value, token, b.fingerprint, b.device)
      && toSecond == RelayMatch(s.relay.value, token, a.fingerprint, a.device)
    else
      && toFirst == Match(Endpoint(s.connections[j].ip, b.endpoint.port), b.fingerprint, b.device)
      && toSecond == Match(Endpoint(s.connections[i].ip, a.endpoint.port), a.fingerprint, a.device)
  }

  /** The relay's sessions, with the pair's own if it is to be relayed. */
  ghost function Granted(s: State, i: nat, j: nat, token: nat): map<nat, (nat, nat)>
    requires i in s.connections && j in s.connections
  {
    var a, b := s.connections[i].asked, s.connections[j].asked;
    if s.relay.Some? && (a.wantRelay || b.wantRelay) then s.reservations.sessions[token := (a.fingerprint, b.fingerprint)]
    else s.reservations.sessions
  }

  lemma Decides(s: State, t: State, i: nat, j: nat, w: Waiter, token: nat)
    requires ClientsKnown(s) && Took(s, t, i, j, w)
    requires !Refusable(s, s.connections[i].asked, s.connections[j].asked, token)
    ensures var u := Apply(t, Decide(j, token));
            && u.tasks[j].pc.Writing? && u.tasks[j].pc.w == w
            && u.tasks == t.tasks[j := t.tasks[j].(pc := u.tasks[j].pc)]
            && Told(s, i, j, token, AnswerOf(Some(u.tasks[j].pc.payload)), u.tasks[j].pc.reply)
            && u.places == t.places && u.written == t.written
            && u.reservations.sessions == Granted(s, i, j, token)
  {
    assert KnowsItsClient(s, i) && KnowsItsClient(s, j);
  }

  /** The second peer's half, once decided: its reply, and the payload. */
  lemma Serves(s: State, i: nat, j: nat)
    requires i != j && i in s.tasks && s.tasks[i].pc.Awaiting? && j in s.tasks && s.tasks[j].pc.Writing?
    requires s.tasks[j].pc.w.id == i
    ensures Enabled(s, Write(j, true)) && Enabled(Apply(s, Write(j, true)), Notify(j))
    ensures var t := Apply(Apply(s, Write(j, true)), Notify(j));
            && t.tasks == s.tasks[j := s.tasks[j].(pc := Finished)]
            && t.written == s.written[j := s.tasks[j].pc.reply] && t.reservations == s.reservations
            && t.places == s.places[i := Sent(s.tasks[j].pc.payload)]
  {
  }

  /** The first peer's half: it wakes, cleans up and answers with what it was sent, or that it has expired. */
  lemma Answers(s: State, i: nat)
    requires Enabled(s, Wake(i))
    ensures Runs(s, [Wake(i), CleanUp(i), Answer(i, true)], Answered(s, i, Wake(i)))
    ensures var t := Answered(s, i, Wake(i));
            t.reservations == s.reservations
            && t.written == s.written[i := if s.places[i].Sent? then AnswerOf(Some(s.places[i].payload)) else Expired]
  {
    ThreeSteps(s, Wake(i), CleanUp(i), Answer(i, true));
  }

  function Answered(s: State, i: nat, a: Action): State
    requires Enabled(s, a) && (a == Wake(i) || a == TimeOut(i))
  {
    Apply(Apply(Apply(s, a), CleanUp(i)), Answer(i, true))
  }

  lemma FourSteps(s: State, a: Action, b: Action, c: Action, d: Action)
    requires Enabled(s, a) && Enabled(Apply(s, a), b) && Enabled(Apply(Apply(s, a), b), c)
    requires Enabled(Apply(Apply(Apply(s, a), b), c), d)
    ensures Runs(s, [a, b, c, d], Apply(Apply(Apply(Apply(s, a), b), c), d))
  {
    ThreeSteps(s, a, b, c);
    OneStep(Apply(Apply(Apply(s, a), b), c), d);
    RunsJoin(s, [a, b, c], Apply(Apply(Apply(s, a), b), c), [d], Apply(Apply(Apply(Apply(s, a), b), c), d));
  }

  /** Whoever waits under the code when a second peer comes is paired with it, unless the relay refuses: both are
      told where the other's connection came from and the other's port, or the relay's address and one token that
      is reserved for their two fingerprints. */
  lemma PairIsMatched(s: State, i: nat, j: nat, token: nat) returns (t: State)
    requires Reachable(s) && Meets(s, i, j)
    requires i in s.connections && j in s.connections
    requires !Refusable(s, s.connections[i].asked, s.connections[j].asked, token)
    ensures Runs(s, [Take(j), Decide(j, token), Write(j, true), Notify(j)] + [Wake(i), CleanUp(i), Answer(i, true)], t)
    ensures i in t.written && j in t.written && Told(s, i, j, token, t.written[i], t.written[j])
    ensures t.written == s.written[j := t.written[j]][i := t.written[i]]
    ensures t.reservations.sessions == Granted(s, i, j, token)
  {
    ReachableInv(s);
    ReachableKnowsClients(s);
    Takes(s, i, j);
    var w, taken := s.waiting[s.tasks[j].req.code], Apply(s, Take(j));
    Decides(s, taken, i, j, w, token);
    var decided := Apply(taken, Decide(j, token));
    Serves(decided, i, j);
    var served := Apply(Apply(decided, Write(j, true)), Notify(j));
    Answers(served, i);
    t := Answered(served, i, Wake(i));
    FourSteps(s, Take(j), Decide(j, token), Write(j, true), Notify(j));
    RunsJoin(s, [Take(j), Decide(j, token), Write(j, true), Notify(j)], served, [Wake(i), CleanUp(i), Answer(i, true)], t);
  }

  lemma IsRefused(s: State, t: State, i: nat, j: nat, w: Waiter, token: nat)
    requires ClientsKnown(s) && Took(s, t, i, j, w)
    requires Refusable(s, s.connections[i].asked, s.connections[j].asked, token)
    ensures Enabled(t, Decide(j, token)) && Enabled(Apply(t, Decide(j, token)), PutBackWaiter(j))
    ensures var u := Apply(Apply(t, Decide(j, token)), PutBackWaiter(j));
            && u.written == s.written[j := Rejected] && u.tasks == s.tasks[j := s.tasks[j].(pc := Finished)]
            && u.waiting == t.waiting[w.first.code := w] && u.now == s.now
            && i in u.places && u.places[i] == Queued && u.reservations == s.reservations
  {
    assert KnowsItsClient(s, i) && KnowsItsClient(s, j);
    assert Apply(t, Decide(j, token)) == Goto(t, j, Refused(w));
  }

  /** If the relay refuses, only the second peer is rejected: the waiter is back as it was, and may be paired yet. */
  lemma RefusedPairIsUndone(s: State, i: nat, j: nat, token: nat) returns (t: State)
    requires Reachable(s) && Meets(s, i, j)
    requires i in s.connections && j in s.connections
    requires Refusable(s, s.connections[i].asked, s.connections[j].asked, token)
    ensures Runs(s, [Take(j), Decide(j, token), PutBackWaiter(j)], t)
    ensures t.written == s.written[j := Rejected] && t.tasks == s.tasks[j := s.tasks[j].(pc := Finished)]
    ensures LiveUnder(t, s.tasks[j].req.code) && t.waiting[s.tasks[j].req.code] == s.waiting[s.tasks[j].req.code]
    ensures i in t.places && t.places[i] == Queued && t.reservations == s.reservations
  {
    ReachableInv(s);
    ReachableKnowsClients(s);
    Takes(s, i, j);
    var taken := Apply(s, Take(j));
    IsRefused(s, taken, i, j, s.waiting[s.tasks[j].req.code], token);
    t := Apply(Apply(taken, Decide(j, token)), PutBackWaiter(j));
    ThreeSteps(s, Take(j), Decide(j, token), PutBackWaiter(j));
  }

  lemma Loses(s: State, i: nat, j: nat)
    requires i != j && i in s.tasks && s.tasks[i].pc.Awaiting? && j in s.tasks && s.tasks[j].pc.Writing?
    requires s.tasks[j].pc.w.id == i
    ensures var t := Apply(s, Write(j, false)); Enabled(t, Wake(i)) && t.written == s.written && t.places[i] == Dropped
  {
  }

  /** If the second peer cannot be written its match, the first one's wait ends at once. */
  lemma LostPairExpires(s: State, i: nat, j: nat, token: nat) returns (t: State)
    requires Reachable(s) && Meets(s, i, j)
    requires i in s.connections && j in s.connections
    requires !Refusable(s, s.connections[i].asked, s.connections[j].asked, token)
    ensures Runs(s, [Take(j), Decide(j, token), Write(j, false)] + [Wake(i), CleanUp(i), Answer(i, true)], t)
    ensures t.written == s.written[i := Expired]
  {
    ReachableInv(s);
    ReachableKnowsClients(s);
    Takes(s, i, j);
    var w, taken := s.waiting[s.tasks[j].req.code], Apply(s, Take(j));
    Decides(s, taken, i, j, w, token);
    Loses(Apply(taken, Decide(j, token)), i, j);
    var lost := Apply(Apply(taken, Decide(j, token)), Write(j, false));
    ThreeSteps(s, Take(j), Decide(j, token), Write(j, false));
    Answers(lost, i);
    t := Answered(lost, i, Wake(i));
    RunsJoin(s, [Take(j), Decide(j, token), Write(j, false)], lost, [Wake(i), CleanUp(i), Answer(i, true)], t);
  }

  lemma TimesOut(s: State, i: nat)
    requires Enabled(s, TimeOut(i))
    requires s.tasks[i].req.code in s.waiting && s.waiting[s.tasks[i].req.code].first == s.tasks[i].req
    ensures var t := Answered(s, i, TimeOut(i)); t.written == s.written[i := Expired] && s.tasks[i].req.code !in t.waiting
    ensures Runs(s, [TimeOut(i), CleanUp(i), Answer(i, true)], Answered(s, i, TimeOut(i)))
  {
    ThreeSteps(s, TimeOut(i), CleanUp(i), Answer(i, true));
  }

  lemma QueuedEntry(s: State, i: nat)
    requires Reachable(s) && i in s.tasks && i in s.places && s.places[i].Queued?
    ensures s.tasks[i].req.code in s.waiting && s.waiting[s.tasks[i].req.code].first == s.tasks[i].req
  {
    ReachableInv(s);
    assert PlaceOk(s, i, s.places[i]) && WaiterOk(s, s.waiting[s.tasks[i].req.code]);
  }

  /** A waiter nobody came for is told so, exactly once its time is up. */
  lemma LonePeerExpires(s: State, i: nat) returns (t: State)
    requires Reachable(s) && i in s.tasks && s.tasks[i].pc.Awaiting? && i in s.places && s.places[i].Queued?
    ensures Enabled(s, TimeOut(i)) <==> s.now >= s.tasks[i].pc.deadline
    ensures !Enabled(s, Wake(i))
    ensures Enabled(s, TimeOut(i)) ==>
              && Runs(s, [TimeOut(i), CleanUp(i), Answer(i, true)], t)
              && t.written == s.written[i := Expired] && s.tasks[i].req.code !in t.waiting
  {
    t := s;
    if Enabled(s, TimeOut(i)) {
      QueuedEntry(s, i);
      TimesOut(s, i);
      t := Answered(s, i, TimeOut(i));
    }
  }

  // ----- two clients -----

  lemma SecondPeerMeets(s: State, i: nat, j: nat, req: Register, ip: nat)
    requires Reachable(s) && j !in s.tasks && LiveUnder(s, req.code) && s.waiting[req.code].id == i
    requires req.version == PROTOCOL_VERSION && IsValidCode(req.code) && i in s.connections && i != j
    ensures Enabled(s, Arrive(j, req, ip))
    ensures var t := Apply(s, Arrive(j, req, ip));
            && Runs(s, [Arrive(j, req, ip)], t) && Reachable(t) && Meets(t, i, j)
            && t.connections == s.connections[j := Connection(req, ip)] && t.relay == s.relay && t.reservations == s.reservations
  {
    ReachableInv(s);
    assert j in s.places ==> PlaceOk(s, j, s.places[j]);
    OneStep(s, Arrive(j, req, ip));
    ReachableStep(s, Arrive(j, req, ip));
  }

  /** Two clients that register a free code one after the other are put in touch: the one learns where the other's
      connection came from, whatever address it claimed, with the port it named; or both get one session of the relay. */
  lemma TwoClientsMeet(s: State, i: nat, j: nat, a: Register, b: Register, ipA: nat, ipB: nat, delay: nat, token: nat)
    returns (actions: seq<Action>, t: State)
    requires Reachable(s) && i !in s.tasks && j !in s.tasks && i != j && s.ttl > 0
    requires a.version == b.version == PROTOCOL_VERSION && a.code == b.code && IsValidCode(a.code)
    requires a.code in s.waiting ==> s.waiting[a.code].expiresAt <= s.now
    requires var relayed := s.relay.Some? && (a.wantRelay || b.wantRelay);
             relayed ==> a.fingerprint != b.fingerprint && token !in s.reservations.sessions
    ensures Runs(s, actions, t) && i in t.written && j in t.written
    ensures if s.relay.Some? && (a.wantRelay || b.wantRelay) then
              && t.written[i] == RelayMatch(s.relay.value, token, b.fingerprint, b.device)
              && t.written[j] == RelayMatch(s.relay.value, token, a.fingerprint, a.device)
              && token in t.reservations.sessions && t.reservations.sessions[token] == (a.fingerprint, b.fingerprint)
            else
              && t.written[i] == Match(Endpoint(ipB, b.endpoint.port), b.fingerprint, b.device)
              && t.written[j] == Match(Endpoint(ipA, a.endpoint.port), a.fingerprint, a.device)
  {
    NewcomerMayArrive(s, i, a, ipA);
    var alone := FirstPeerWaits(s, i, a, ipA, delay);
    RunReaches(s, [Arrive(i, a, ipA), Take(i), Insert(i, delay)], alone);
    SecondPeerMeets(alone, i, j, b, ipB);
    var both := Apply(alone, Arrive(j, b, ipB));
    t := PairIsMatched(both, i, j, token);
    actions := [Take(j), Decide(j, token), Write(j, true), Notify(j)] + [Wake(i), CleanUp(i), Answer(i, true)];
    RunsJoin(alone, [Arrive(j, b, ipB)], both, actions, t);
    actions := [Arrive(j, b, ipB)] + actions;
    RunsJoin(s, [Arrive(i, a, ipA), Take(i), Insert(i, delay)], alone, actions, t);
    actions := [Arrive(i, a, ipA), Take(i), Insert(i, delay)] + actions;
  }

  lemma NewcomerMayArrive(s: State, i: nat, req: Register, ip: nat)
    requires Reachable(s) && i !in s.tasks
    ensures Enabled(s, Arrive(i, req, ip))
  {
    ReachableInv(s);
    assert i in s.places ==> PlaceOk(s, i, s.places[i]);
  }
}
