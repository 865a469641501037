/** The packet relay: sessions, the reverse index from address to session, and the forwarding rule
    (rendezvous/src/relay.rs). Times are milliseconds. */
module Relay {
  import opened Prelude
  import opened RelayHello

  datatype Addr = Addr(ip: nat, port: nat)

  datatype Peer = Peer(addr: Addr, fingerprint: Fingerprint)

  datatype Session = Session(peerA: Option<Peer>, peerB: Option<Peer>, createdAt: nat, lastActive: nat,
                             expectedA: Fingerprint, expectedB: Fingerprint)

  datatype RelayError = DuplicateFingerprint | TokenInUse

  const SESSION_IDLE_TIMEOUT: nat := 120_000

  datatype View = View(sessions: map<Token, Session>, index: map<Addr, Token>, bytesForwarded: nat)

  // ----- what the operations do -----

  function NewSession(fpA: Fingerprint, fpB: Fingerprint, now: nat): Session {
    Session(None, None, now, now, fpA, fpB)
  }

  function Reserved(v: View, token: Token, fpA: Fingerprint, fpB: Fingerprint, now: nat): Result<View, RelayError> {
    if fpA == fpB then Err(DuplicateFingerprint)
    else if token in v.sessions then Err(TokenInUse)
    else Ok(v.(sessions := v.sessions[token := NewSession(fpA, fpB, now)]))
  }

  predicate IsStale(s: Session, now: nat) {
    if s.peerA.None? || s.peerB.None? then now - s.createdAt > SESSION_IDLE_TIMEOUT
    else now - s.lastActive > SESSION_IDLE_TIMEOUT
  }

  /** The relay without these sessions, and without every address that belongs to one of them. */
  function Forgetting(v: View, tokens: set<Token>): View {
    v.(sessions := v.sessions - tokens, index := map a | a in v.index && v.index[a] !in tokens :: v.index[a])
  }

  function StaleTokens(v: View, now: nat): set<Token> {
    set t | t in v.sessions && IsStale(v.sessions[t], now)
  }

  /** Where a datagram from this member of the session goes: to the other one, once both are there. */
  function Partner(s: Session, src: Addr): Option<Addr> {
    match (s.peerA, s.peerB)
    case (Some(a), Some(b)) => if src == a.addr then Some(b.addr) else if src == b.addr then Some(a.addr) else None
    case _ => None
  }

  /** The session with the sender of the hello in the slot its fingerprint was reserved for, if that is free. */
  function Joined(s: Session, src: Addr, fingerprint: Fingerprint, now: nat): Option<Session> {
    if fingerprint == s.expectedA then
      if s.peerA.Some? then None else Some(s.(peerA := Some(Peer(src, fingerprint)), lastActive := now))
    else if fingerprint == s.expectedB then
      if s.peerB.Some? then None else Some(s.(peerB := Some(Peer(src, fingerprint)), lastActive := now))
    else None
  }

  function AfterPacket(v: View, src: Addr, packet: seq<byte>, now: nat): (View, Option<Addr>) {
    if src in v.index then
      if v.index[src] !in v.sessions then (v, None)
      else
        var session := v.sessions[v.index[src]];
        var dest := Partner(session, src);
        (v.(sessions := v.sessions[v.index[src] := session.(lastActive := now)],
            bytesForwarded := v.bytesForwarded + if dest.Some? then |packet| else 0),
         dest)
    else
      match TryDecode(packet)
      case None => (v, None)
      case Some(hello) =>
        if hello.token !in v.sessions then (v, None)
        else match Joined(v.sessions[hello.token], src, hello.fingerprint, now)
             case None => (v, None)
             case Some(session) =>
               (v.(sessions := v.sessions[hello.token := session], index := v.index[src := hello.token]), None)
  }

  // ----- the state behind the lock -----

  class RelayState {
    var sessions: map<Token, Session>
    var addrToToken: map<Addr, Token>
    var bytesForwarded: nat

    ghost function Now(): View
      reads this
    {
      View(sessions, addrToToken, bytesForwarded)
    }

    constructor ()
      ensures Now() == View(map[], map[], 0)
    {
      sessions, addrToToken, bytesForwarded := map[], map[], 0;
    }

    method Reserve(token: Token, fpA: Fingerprint, fpB: Fingerprint, now: nat) returns (r: Result<(), RelayError>)
      modifies this
      ensures match Reserved(old(Now()), token, fpA, fpB, now)
              case Ok(v) => r == Ok(()) && Now() == v
              case Err(e) => r == Err(e) && Now() == old(Now())
      ensures fpA == fpB ==> r == Err(DuplicateFingerprint)
      ensures fpA != fpB && token in old(sessions) ==> r == Err(TokenInUse)
      ensures fpA != fpB && token !in old(sessions) ==>
                r == Ok(()) && Now() == old(Now()).(sessions := old(sessions)[token := Session(None, None, now, now, fpA, fpB)])
    {
      if fpA == fpB {
        return Err(DuplicateFingerprint);
      }
      if token in sessions {
        return Err(TokenInUse);
      }
      sessions := sessions[token := NewSession(fpA, fpB, now)];
      r := Ok(());
    }

    /** Removing the two slots' addresses removes just the entries that name the session. */
    method Forget(token: Token)
      requires Consistent(Now())
      modifies this
      ensures Now() == Forgetting(old(Now()), {token})
      ensures sessions == old(sessions) - {token} && bytesForwarded == old(bytesForwarded)
      ensures forall a :: a in addrToToken <==> a in old(addrToToken) && old(addrToToken)[a] != token
      ensures forall a :: a in addrToToken ==> addrToToken[a] == old(addrToToken)[a]
    {
      ghost var before := Now();
      ForgettingIsSlots(before, token);
      if token in sessions {
        var s := sessions[token];
        sessions := sessions - {token};
        if s.peerA.Some? {
          addrToToken := addrToToken - {s.peerA.value.addr};
        }
        if s.peerB.Some? {
          addrToToken := addrToToken - {s.peerB.value.addr};
        }
        assert addrToToken == before.index - SlotAddrs(s);
      }
    }

    method EvictIdle(now: nat)
      requires Consistent(Now())
      modifies this
      ensures Now() == Forgetting(old(Now()), StaleTokens(old(Now()), now))
      ensures forall t :: t in old(sessions) ==>
                (t in sessions <==> if old(sessions)[t].peerA.Some? && old(sessions)[t].peerB.Some?
                                    then now - old(sessions)[t].lastActive <= 120_000
                                    else now - old(sessions)[t].createdAt <= 120_000)
      ensures forall t :: t in sessions ==> t in old(sessions) && sessions[t] == old(sessions)[t]
      ensures forall a :: a in addrToToken <==> a in old(addrToToken) && old(addrToToken)[a] in sessions
      ensures forall a :: a in addrToToken ==> addrToToken[a] == old(addrToToken)[a]
      ensures bytesForwarded == old(bytesForwarded)
    {
      ghost var before := Now();
      var stale := set t | t in sessions && IsStale(sessions[t], now);
      ghost var done: set<Token> := {};
      assert Now() == Forgetting(before, {}) by {
        assert Now().sessions == Forgetting(before, {}).sessions;
        assert Now().index == Forgetting(before, {}).index;
      }
      while stale != {}
        invariant done + stale == StaleTokens(before, now)
        invariant Now() == Forgetting(before, done) && Consistent(Now())
        decreases stale
      {
        var token :| token in stale;
        ForgettingKeeps(Now(), {token});
        Forget(token);
        ForgettingTwice(before, done, {token});
        stale, done := stale - {token}, done + {token};
      }
      assert done == StaleTokens(before, now);
      SweepIs(before, now);
    }

    /** One datagram, past the rate cap: the loop body under the lock. */
    method OnPacket(src: Addr, packet: seq<byte>, now: nat) returns (dest: Option<Addr>)
      modifies this
      ensures (Now(), dest) == AfterPacket(old(Now()), src, packet, now)
    {
      dest := None;
      if src in addrToToken {
        var token := addrToToken[src];
        if token in sessions {
          var session := sessions[token];
          sessions := sessions[token := session.(lastActive := now)];
          dest := Partner(session, src);
          if dest.Some? {
            bytesForwarded := bytesForwarded + |packet|;
          }
        }
        return;
      }
      var hello := TryDecode(packet);
      if hello.None? || hello.value.token !in sessions {
        return;
      }
      var token := hello.value.token;
      ghost var before := sessions;
      var session := sessions[token];
      sessions := sessions - {token};
      if hello.value.fingerprint == session.expectedA {
        if session.peerA.Some? {
          sessions := sessions[token := session];
          assert sessions == before;
          return;
        }
        session := session.(peerA := Some(Peer(src, hello.value.fingerprint)));
      } else if hello.value.fingerprint == session.expectedB {
        if session.peerB.Some? {
          sessions := sessions[token := session];
          assert sessions == before;
          return;
        }
        session := session.(peerB := Some(Peer(src, hello.value.fingerprint)));
      } else {
        sessions := sessions[token := session];
        assert sessions == before;
        return;
      }
      sessions := sessions[token := session.(lastActive := now)];
      assert sessions == before[token := session.(lastActive := now)];
      addrToToken := addrToToken[src := token];
    }
  }

  // ----- the two maps stay inverse to each other -----

  predicate Fills(s: Session, a: Addr) {
    (s.peerA.Some? && s.peerA.value.addr == a) || (s.peerB.Some? && s.peerB.value.addr == a)
  }

  /** Each slot holds the fingerprint it was reserved for, the two differ, and so do the two addresses. */
  predicate SlotsOk(s: Session) {
    && s.expectedA != s.expectedB
    && (s.peerA.Some? ==> s.peerA.value.fingerprint == s.expectedA)
    && (s.peerB.Some? ==> s.peerB.value.fingerprint == s.expectedB)
    && (s.peerA.Some? && s.peerB.Some? ==> s.peerA.value.addr != s.peerB.value.addr)
  }

  ghost predicate Consistent(v: View) {
    && (forall t :: t in v.sessions ==> SlotsOk(v.sessions[t]))
    && (forall a :: a in v.index ==> v.index[a] in v.sessions && Fills(v.sessions[v.index[a]], a))
    && (forall t, a :: t in v.sessions && Fills(v.sessions[t], a) ==> a in v.index && v.index[a] == t)
  }

  function SlotAddrs(s: Session): set<Addr> {
    (if s.peerA.Some? then {s.peerA.value.addr} else {}) + (if s.peerB.Some? then {s.peerB.value.addr} else {})
  }

  lemma ForgettingIsSlots(v: View, token: Token)
    requires Consistent(v)
    ensures token in v.sessions ==> Forgetting(v, {token}).index == v.index - SlotAddrs(v.sessions[token])
    ensures token !in v.sessions ==> Forgetting(v, {token}) == v
    ensures Forgetting(v, {token}).sessions == v.sessions - {token}
  {
    if token in v.sessions {
      forall a | a in v.index
        ensures v.index[a] == token <==> a in SlotAddrs(v.sessions[token])
      {
        assert Fills(v.sessions[token], a) <==> a in SlotAddrs(v.sessions[token]);
      }
    } else {
      assert Forgetting(v, {token}).index == v.index;
      assert Forgetting(v, {token}).sessions == v.sessions;
    }
  }

  lemma ForgettingKeeps(v: View, tokens: set<Token>)
    requires Consistent(v)
    ensures Consistent(Forgetting(v, tokens))
  {
  }

  lemma ForgettingTwice(v: View, some: set<Token>, more: set<Token>)
    ensures Forgetting(Forgetting(v, some), more) == Forgetting(v, some + more)
  {
    assert Forgetting(Forgetting(v, some), more).sessions == Forgetting(v, some + more).sessions;
    assert Forgetting(Forgetting(v, some), more).index == Forgetting(v, some + more).index;
  }

  /** What a sweep leaves: the half-open sessions of the last two minutes and the pairs active in them, with their
      addresses. */
  lemma SweepIs(v: View, now: nat)
    requires Consistent(v)
    ensures var w := Forgetting(v, StaleTokens(v, now));
            && (forall t :: t in v.sessions ==>
                  (t in w.sessions <==> if v.sessions[t].peerA.Some? && v.sessions[t].peerB.Some?
                                        then now - v.sessions[t].lastActive <= 120_000
                                        else now - v.sessions[t].createdAt <= 120_000))
            && (forall t :: t in w.sessions ==> t in v.sessions && w.sessions[t] == v.sessions[t])
            && (forall a :: a in w.index <==> a in v.index && v.index[a] in w.sessions)
            && (forall a :: a in w.index ==> w.index[a] == v.index[a])
            && w.bytesForwarded == v.bytesForwarded
  {
  }

  datatype Event =
    | Reserve(token: Token, fpA: Fingerprint, fpB: Fingerprint, now: nat)
    | Packet(src: Addr, packet: seq<byte>, now: nat)
    | Sweep(now: nat)

  function Step(v: View, e: Event): View {
    match e
    case Reserve(token, fpA, fpB, now) => (match Reserved(v, token, fpA, fpB, now) case Ok(w) => w case Err(_) => v)
    case Packet(src, packet, now) => AfterPacket(v, src, packet, now).0
    case Sweep(now) => Forgetting(v, StaleTokens(v, now))
  }

  function After(events: seq<Event>): View {
    if events == [] then View(map[], map[], 0) else Step(After(events[..|events| - 1]), events[|events| - 1])
  }

  lemma StepKeeps(v: View, e: Event)
    requires Consistent(v)
    ensures Consistent(Step(v, e))
  {
    match e
    case Packet(src, packet, now) => PacketKeeps(v, src, packet, now);
    case _ =>
  }

  lemma PacketKeeps(v: View, src: Addr, packet: seq<byte>, now: nat)
    requires Consistent(v)
    ensures Consistent(AfterPacket(v, src, packet, now).0)
  {
    if src in v.index {
      assert v.index[src] in v.sessions && SlotsOk(v.sessions[v.index[src]]);
      TouchKeeps(v, v.index[src], now, AfterPacket(v, src, packet, now).0.bytesForwarded);
    } else if TryDecode(packet).Some? && TryDecode(packet).value.token in v.sessions {
      var hello := TryDecode(packet).value;
      if Joined(v.sessions[hello.token], src, hello.fingerprint, now).Some? {
        JoinKeeps(v, src, hello, now);
      }
    }
  }

  lemma TouchKeeps(v: View, t: Token, now: nat, bytes: nat)
    requires Consistent(v) && t in v.sessions
    ensures Consistent(v.(sessions := v.sessions[t := v.sessions[t].(lastActive := now)], bytesForwarded := bytes))
  {
    var m := v.sessions[t := v.sessions[t].(lastActive := now)];
    assert SlotsOk(v.sessions[t]);
    forall u, a | u in m && Fills(m[u], a)
      ensures a in v.index && v.index[a] == u
    {
      assert Fills(v.sessions[u], a);
    }
    assert forall a :: a in v.index ==> Fills(m[v.index[a]], a) == Fills(v.sessions[v.index[a]], a);
  }

  lemma JoinKeeps(v: View, src: Addr, hello: Hello, now: nat)
    requires Consistent(v) && src !in v.index && hello.token in v.sessions
    requires Joined(v.sessions[hello.token], src, hello.fingerprint, now).Some?
    ensures var s := Joined(v.sessions[hello.token], src, hello.fingerprint, now).value;
            Consistent(v.(sessions := v.sessions[hello.token := s], index := v.index[src := hello.token]))
  {
    var prior, s := v.sessions[hello.token], Joined(v.sessions[hello.token], src, hello.fingerprint, now).value;
    assert SlotsOk(prior) && !Fills(prior, src);
    assert forall a :: Fills(s, a) <==> Fills(prior, a) || a == src;
  }

  lemma {:induction false} AlwaysConsistent(events: seq<Event>)
    ensures Consistent(After(events))
    decreases |events|
  {
    if events != [] {
      AlwaysConsistent(events[..|events| - 1]);
      StepKeeps(After(events[..|events| - 1]), events[|events| - 1]);
    }
  }

  /** After any packets, reservations and sweeps: an address is indexed under a session iff it fills one of
      the session's slots, and it fills no other slot anywhere. */
  lemma IndexIsBijective(events: seq<Event>, a: Addr, t: Token)
    ensures var v := After(events);
            (a in v.index && v.index[a] == t) <==> (t in v.sessions && Fills(v.sessions[t], a))
    ensures var v := After(events);
            forall u :: t in v.sessions && u in v.sessions && Fills(v.sessions[t], a) && Fills(v.sessions[u], a) ==> t == u
  {
    AlwaysConsistent(events);
  }

  // ----- who gets a datagram -----

  /** This address joined the session: it sent a hello with the token and the fingerprint. */
  ghost predicate SaidHello(events: seq<Event>, a: Addr, token: Token, fingerprint: Fingerprint) {
    exists k :: 0 <= k < |events| && events[k].Packet? && events[k].src == a
                && TryDecode(events[k].packet) == Some(Hello(token, fingerprint))
  }

  ghost predicate WasReserved(events: seq<Event>, token: Token, fpA: Fingerprint, fpB: Fingerprint) {
    exists k :: 0 <= k < |events| && events[k].Reserve? && events[k].token == token
                && events[k].fpA == fpA && events[k].fpB == fpB
  }

  ghost predicate Accounted(events: seq<Event>, t: Token, s: Session) {
    && WasReserved(events, t, s.expectedA, s.expectedB)
    && (s.peerA.Some? ==> SaidHello(events, s.peerA.value.addr, t, s.peerA.value.fingerprint))
    && (s.peerB.Some? ==> SaidHello(events, s.peerB.value.addr, t, s.peerB.value.fingerprint))
  }

  lemma AccountedLater(events: seq<Event>, e: Event, t: Token, s: Session)
    requires Accounted(events, t, s)
    ensures Accounted(events + [e], t, s)
  {
    var k :| 0 <= k < |events| && events[k].Reserve? && events[k].token == t
             && events[k].fpA == s.expectedA && events[k].fpB == s.expectedB;
    assert (events + [e])[k] == events[k];
    if s.peerA.Some? {
      HelloLater(events, e, s.peerA.value.addr, t, s.peerA.value.fingerprint);
    }
    if s.peerB.Some? {
      HelloLater(events, e, s.peerB.value.addr, t, s.peerB.value.fingerprint);
    }
  }

  lemma HelloLater(events: seq<Event>, e: Event, a: Addr, t: Token, fp: Fingerprint)
    requires SaidHello(events, a, t, fp)
    ensures SaidHello(events + [e], a, t, fp)
  {
    var k :| 0 <= k < |events| && events[k].Packet? && events[k].src == a
             && TryDecode(events[k].packet) == Some(Hello(t, fp));
    assert (events + [e])[k] == events[k];
  }

  lemma {:induction false} EverySlotIsAccountedFor(events: seq<Event>, t: Token)
    requires t in After(events).sessions
    ensures Accounted(events, t, After(events).sessions[t])
    decreases |events|
  {
    var before, e := events[..|events| - 1], events[|events| - 1];
    var v, w := After(before), After(events);
    assert events == before + [e];
    assert events[|events| - 1] == e;
    if t in v.sessions {
      EverySlotIsAccountedFor(before, t);
      AccountedLater(before, e, t, v.sessions[t]);
    }
  }

  /** A datagram is only ever forwarded to the other member of its sender's own session: two distinct
      addresses, each of which presented the session's token and one of the two fingerprints reserved for it. */
  lemma ForwardsWithinSession(events: seq<Event>, src: Addr, packet: seq<byte>, now: nat) returns (t: Token)
    requires AfterPacket(After(events), src, packet, now).1.Some?
    ensures var v, dest := After(events), AfterPacket(After(events), src, packet, now).1.value;
            && dest != src && src in v.index && dest in v.index && v.index[src] == t && v.index[dest] == t
            && (forall a :: a in v.index && v.index[a] == t ==> a == src || a == dest)
    ensures var v, dest := After(events), AfterPacket(After(events), src, packet, now).1.value;
            exists fpA, fpB :: fpA != fpB && WasReserved(events, t, fpA, fpB)
              && ((SaidHello(events, src, t, fpA) && SaidHello(events, dest, t, fpB))
                  || (SaidHello(events, src, t, fpB) && SaidHello(events, dest, t, fpA)))
  {
    AlwaysConsistent(events);
    var v := After(events);
    t := v.index[src];
    EverySlotIsAccountedFor(events, t);
    var s := v.sessions[t];
    assert SlotsOk(s) && WasReserved(events, t, s.expectedA, s.expectedB);
  }

  /** Two distinct addresses that are indexed under one session. */
  predicate Paired(v: View, a: Addr, b: Addr) { a != b && a in v.index && b in v.index && v.index[a] == v.index[b] }

  lemma PairFillsSession(v: View, a: Addr, b: Addr)
    requires Consistent(v) && Paired(v, a, b)
    ensures v.index[a] in v.sessions
    ensures var s := v.sessions[v.index[a]];
            s.peerA.Some? && s.peerB.Some? && {s.peerA.value.addr, s.peerB.value.addr} == {a, b}
  {
    assert Fills(v.sessions[v.index[a]], a) && Fills(v.sessions[v.index[b]], b);
  }

  /** Every datagram between the two of a session gets through, in both directions, and is counted; no other does. */
  lemma ForwardedIff(events: seq<Event>, src: Addr, packet: seq<byte>, now: nat, dest: Addr)
    ensures var v, r := After(events), AfterPacket(After(events), src, packet, now);
            && (r.1 == Some(dest) <==> src != dest && src in v.index && dest in v.index && v.index[src] == v.index[dest])
            && r.0.bytesForwarded == v.bytesForwarded + (if r.1.Some? then |packet| else 0)
  {
    var v, r := After(events), AfterPacket(After(events), src, packet, now);
    AlwaysConsistent(events);
    if Paired(v, src, dest) {
      PairFillsSession(v, src, dest);
    }
    if r.1 == Some(dest) {
      var _ := ForwardsWithinSession(events, src, packet, now);
    }
  }

  lemma AfterOneMore(events: seq<Event>, e: Event)
    ensures After(events + [e]) == Step(After(events), e)
  {
    assert (events + [e])[..|events|] == events;
  }

  lemma AfterTwoMore(events: seq<Event>, e: Event, f: Event)
    ensures After(events + [e, f]) == Step(Step(After(events), e), f)
  {
    AfterOneMore(events, e);
    AfterOneMore(events + [e], f);
    assert events + [e, f] == events + [e] + [f];
  }

  /** A pair stays for two minutes after its last datagram, and no longer. */
  lemma ActivePairStaysIff(events: seq<Event>, a: Addr, b: Addr, packet: seq<byte>, now: nat, later: nat)
    requires Paired(After(events), a, b)
    ensures var v := After(events + [Packet(a, packet, now), Sweep(later)]);
            && (Paired(v, a, b) <==> later <= now + 120_000)
            && (later > now + 120_000 ==> a !in v.index && b !in v.index)
  {
    var v := After(events);
    AlwaysConsistent(events);
    PairFillsSession(v, a, b);
    AfterTwoMore(events, Packet(a, packet, now), Sweep(later));
    PacketKeeps(v, a, packet, now);
    SweepIs(AfterPacket(v, a, packet, now).0, later);
  }

  /** The slot reserved for this fingerprint is free. */
  predicate AwaitsPeer(s: Session, fp: Fingerprint) {
    (fp == s.expectedA && s.peerA.None?) || (fp == s.expectedB && s.peerB.None?)
  }

  /** A hello takes its sender into the session it names exactly if the sender is in none, and the slot reserved for
      its fingerprint is free; nobody else's place changes. */
  lemma JoinsIff(events: seq<Event>, src: Addr, packet: seq<byte>, now: nat, t: Token)
    requires src !in After(events).index
    ensures var v, w := After(events), AfterPacket(After(events), src, packet, now).0;
            && (src in w.index && w.index[src] == t <==>
                  && TryDecode(packet).Some? && TryDecode(packet).value.token == t && t in v.sessions
                  && AwaitsPeer(v.sessions[t], TryDecode(packet).value.fingerprint))
            && (src in w.index ==> w.index == v.index[src := w.index[src]]) && (src !in w.index ==> w == v)
  {
    AlwaysConsistent(events);
    var v := After(events);
    assert t in v.sessions ==> SlotsOk(v.sessions[t]);
  }

  /** Two minutes are also what a new session has to become a pair: with one datagram in between it cannot. */
  lemma HalfOpenStaysIff(events: seq<Event>, token: Token, fpA: Fingerprint, fpB: Fingerprint, now: nat,
        src: Addr, packet: seq<byte>, at: nat, later: nat)
    requires token !in After(events).sessions && fpA != fpB
    ensures var v := After(events + [Reserve(token, fpA, fpB, now)] + [Packet(src, packet, at), Sweep(later)]);
            token in v.sessions <==> later <= now + 120_000
  {
    AlwaysConsistent(events);
    AfterOneMore(events, Reserve(token, fpA, fpB, now));
    AfterTwoMore(events + [Reserve(token, fpA, fpB, now)], Packet(src, packet, at), Sweep(later));
    var v := Step(After(events), Reserve(token, fpA, fpB, now));
    StepKeeps(After(events), Reserve(token, fpA, fpB, now));
    PacketKeeps(v, src, packet, at);
    FirstPacketIsHello(v, src, packet, at, token);
    SweepIs(AfterPacket(v, src, packet, at).0, later);
  }

  lemma FirstPacketIsHello(v: View, src: Addr, packet: seq<byte>, at: nat, token: Token)
    requires Consistent(v) && token in v.sessions && v.sessions[token].peerA.None? && v.sessions[token].peerB.None?
    ensures var s := AfterPacket(v, src, packet, at).0.sessions;
            && token in s && s[token].createdAt == v.sessions[token].createdAt
            && (s[token].peerA.None? || s[token].peerB.None?)
  {
    assert src in v.index ==> Fills(v.sessions[v.index[src]], src);
  }

  /** Two peers that say hello to a session reserved for them are a pair, and stay one for two minutes. */
  lemma HellosPair(events: seq<Event>, token: Token, fpA: Fingerprint, fpB: Fingerprint, now: nat,
        a: Addr, first: nat, b: Addr, second: nat, later: nat)
    requires token !in After(events).sessions && fpA != fpB && a != b && a !in After(events).index && b !in After(events).index
    ensures var joined := events + [Reserve(token, fpA, fpB, now)]
                          + [Packet(a, Encode(Hello(token, fpA)), first), Packet(b, Encode(Hello(token, fpB)), second)];
            Paired(After(joined), a, b) && (Paired(After(joined + [Sweep(later)]), a, b) <==> later <= second + 120_000)
  {
    var joined := events + [Reserve(token, fpA, fpB, now)]
                  + [Packet(a, Encode(Hello(token, fpA)), first), Packet(b, Encode(Hello(token, fpB)), second)];
    AfterOneMore(events, Reserve(token, fpA, fpB, now));
    AfterTwoMore(events + [Reserve(token, fpA, fpB, now)],
                 Packet(a, Encode(Hello(token, fpA)), first), Packet(b, Encode(Hello(token, fpB)), second));
    BothJoin(Step(After(events), Reserve(token, fpA, fpB, now)), token, fpA, fpB, a, first, b, second);
    AfterOneMore(joined, Sweep(later));
    AlwaysConsistent(joined);
    SweepIs(After(joined), later);
  }

  lemma BothJoin(v: View, token: Token, fpA: Fingerprint, fpB: Fingerprint, a: Addr, first: nat, b: Addr, second: nat)
    requires token in v.sessions && fpA != fpB && a != b && a !in v.index && b !in v.index
    requires v.sessions[token].peerA.None? && v.sessions[token].peerB.None?
    requires v.sessions[token].expectedA == fpA && v.sessions[token].expectedB == fpB
    ensures var w := Step(Step(v, Packet(a, Encode(Hello(token, fpA)), first)), Packet(b, Encode(Hello(token, fpB)), second));
            && Paired(w, a, b) && w.index[a] == token && token in w.sessions
            && w.sessions[token].peerA.Some? && w.sessions[token].peerB.Some? && w.sessions[token].lastActive == second
  {
    Decodes(Hello(token, fpA));
    Decodes(Hello(token, fpB));
  }

  lemma Decodes(h: Hello)
    ensures TryDecode(Encode(h)) == Some(h)
  {
    RoundTrip(h, []);
    assert Encode(h) + [] == Encode(h);
  }
}
