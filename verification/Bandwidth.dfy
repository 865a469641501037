/** The bandwidth limiter: a token bucket that lends to one oversized request at a time
    (core/src/bandwidth.rs). Rates are bytes a second, times real seconds. */
module Bandwidth {
  import opened TokenBucket

  function Capacity(rate: nat): real { (2 * rate) as real }

  function Refilled(rate: nat, b: Bucket, now: real): (r: Bucket)
    ensures r.last == now && r.tokens <= Capacity(rate) && r.tokens <= b.tokens + Earned(rate, now - b.last)
  {
    var filled := b.tokens + Earned(rate, now - b.last);
    Bucket(if filled < Capacity(rate) then filled else Capacity(rate), now)
  }

  function Taken(b: Bucket, bytes: nat): Bucket { b.(tokens := b.tokens - bytes as real) }

  /** Under the first lock: the tokens are taken at once, or the caller has to sleep. */
  predicate HasTokens(rate: nat, b: Bucket, bytes: nat, now: real) {
    Refilled(rate, b, now).tokens >= bytes as real
  }

  function SleepTime(rate: nat, b: Bucket, bytes: nat, now: real): real
    requires rate > 0
  {
    (bytes as real - Refilled(rate, b, now).tokens) / rate as real
  }

  /** One call at `now`, alone with the bucket; a sleep overruns by `drift`. The bucket and the time of the grant. */
  function Granted(rate: nat, b: Bucket, bytes: nat, now: real, drift: real): (Bucket, real)
    requires rate > 0
  {
    var first := Refilled(rate, b, now);
    if HasTokens(rate, b, bytes, now) then (Taken(first, bytes), now)
    else
      var woken := now + SleepTime(rate, b, bytes, now) + drift;
      (Taken(Refilled(rate, first, woken), bytes), woken)
  }

  class BandwidthLimiter {
    const maxBytesPerSec: nat
    const capacity: real
    const refillRate: real
    var tokens: real
    var lastRefill: real

    ghost predicate Valid() {
      capacity == Capacity(maxBytesPerSec) && refillRate == maxBytesPerSec as real
    }

    ghost function Contents(): Bucket
      reads this
    {
      Bucket(tokens, lastRefill)
    }

    constructor (maxBytesPerSec: nat, now: real)
      ensures Valid() && this.maxBytesPerSec == maxBytesPerSec
      ensures Contents() == Bucket((2 * maxBytesPerSec) as real, now)
    {
      this.maxBytesPerSec := maxBytesPerSec;
      capacity := if maxBytesPerSec > 0 then (maxBytesPerSec * 2) as real else 0.0;
      tokens := if maxBytesPerSec > 0 then (maxBytesPerSec * 2) as real else 0.0;
      refillRate, lastRefill := maxBytesPerSec as real, now;
    }

    method Refill(now: real)
      requires Valid()
      modifies this
      ensures Contents() == Refilled(maxBytesPerSec, old(Contents()), now)
    {
      var elapsed := now - lastRefill;
      tokens := tokens + elapsed * refillRate;
      if capacity <= tokens {
        tokens := capacity;
      }
      lastRefill := now;
    }

    /** Returns when the bytes may be sent. */
    method WaitForTokens(bytes: nat, now: real, drift: real) returns (at: real)
      requires Valid()
      modifies this
      ensures maxBytesPerSec == 0 ==> at == now && Contents() == old(Contents())
      ensures maxBytesPerSec > 0 ==> (Contents(), at) == Granted(maxBytesPerSec, old(Contents()), bytes, now, drift)
    {
      if maxBytesPerSec == 0 {
        return now;
      }
      Refill(now);
      if tokens >= bytes as real {
        tokens := tokens - bytes as real;
        return now;
      }
      var tokensNeeded := bytes as real - tokens;
      at := now + tokensNeeded / refillRate + drift;
      Refill(at);
      tokens := tokens - bytes as real;
    }
  }

  // ----- one caller -----

  /** A caller's `k`-th call comes `pause` after its previous grant. */
  datatype Call = Call(bytes: nat, pause: real, drift: real)

  ghost predicate Sane(calls: seq<Call>) {
    forall k :: 0 <= k < |calls| ==> calls[k].pause >= 0.0 && calls[k].drift >= 0.0
  }

  ghost predicate Follows(rate: nat, before: (Bucket, real), c: Call, after: (Bucket, real))
    requires rate > 0
  {
    after == Granted(rate, before.0, c.bytes, before.1 + c.pause, c.drift)
  }

  /** The bucket and the time, at the start and after each call. */
  ghost predicate IsTrace(rate: nat, start: real, calls: seq<Call>, trace: seq<(Bucket, real)>)
    requires rate > 0
  {
    && |trace| == |calls| + 1 && trace[0] == (Bucket(Capacity(rate), start), start)
    && forall n :: 0 <= n < |calls| ==> Follows(rate, trace[n], calls[n], trace[n + 1])
  }

  function Bytes(calls: seq<Call>, i: nat, k: nat): nat
    requires i <= k <= |calls|
  {
    if i == k then 0 else Bytes(calls, i, k - 1) + calls[k - 1].bytes
  }

  lemma SleepEarns(rate: nat, missing: real)
    requires rate > 0
    ensures Earned(rate, missing / rate as real) == missing
    ensures missing >= 0.0 ==> missing / rate as real >= 0.0
  {
  }

  /** One call never grants more than the bucket held plus what was earned until the grant, and leaves a debt
      of at most what the request exceeds the capacity by. */
  lemma GrantIsEarned(rate: nat, b: Bucket, bytes: nat, now: real, drift: real)
    requires rate > 0 && now >= b.last && drift >= 0.0
    ensures var (after, at) := Granted(rate, b, bytes, now, drift);
            && now <= at && after.last == at
            && after.tokens + bytes as real <= Capacity(rate)
            && after.tokens + bytes as real <= b.tokens + Earned(rate, at - b.last)
            && bytes as real <= b.tokens + Earned(rate, at - b.last)
            && (after.tokens >= 0.0 || after.tokens >= Capacity(rate) - bytes as real)
  {
    var first := Refilled(rate, b, now);
    if !HasTokens(rate, b, bytes, now) {
      var wait := SleepTime(rate, b, bytes, now);
      SleepEarns(rate, bytes as real - first.tokens);
      EarnedAdds(rate, wait, drift);
      EarnedAdds(rate, drift, 0.0);
      EarnedAdds(rate, now - b.last, wait + drift);
      assert now + wait + drift - now == wait + drift;
      assert now + wait + drift - b.last == (now - b.last) + (wait + drift);
    }
  }

  lemma CallIsEarned(rate: nat, before: (Bucket, real), c: Call, after: (Bucket, real))
    requires rate > 0 && c.pause >= 0.0 && c.drift >= 0.0
    requires Follows(rate, before, c, after) && before.0.last == before.1
    ensures before.1 <= after.1 && after.0.last == after.1 && after.0.tokens <= Capacity(rate)
    ensures StepEarned(rate, before, after, c.bytes)
    ensures after.0.tokens >= 0.0 || after.0.tokens >= Capacity(rate) - c.bytes as real
  {
    GrantIsEarned(rate, before.0, c.bytes, before.1 + c.pause, c.drift);
  }

  lemma {:induction false} TraceMoves(rate: nat, start: real, calls: seq<Call>, trace: seq<(Bucket, real)>, n: nat)
    requires rate > 0 && Sane(calls) && IsTrace(rate, start, calls, trace) && n <= |calls|
    ensures trace[n].0.last == trace[n].1 && trace[n].0.tokens <= Capacity(rate)
  {
    if n > 0 {
      TraceMoves(rate, start, calls, trace, n - 1);
      CallIsEarned(rate, trace[n - 1], calls[n - 1], trace[n]);
    }
  }

  /** The rate bound, for every stretch of one caller's calls and any sizes: after the grant of call `i` until
      the grant of call `k`, at most one capacity plus the rate times the time between is granted. */
  lemma {:induction false} RateBound(rate: nat, start: real, calls: seq<Call>, trace: seq<(Bucket, real)>, i: nat,
        k: nat)
    requires rate > 0 && Sane(calls) && IsTrace(rate, start, calls, trace) && i < k <= |calls|
    ensures Bytes(calls, i, k) as real <= Capacity(rate) + Earned(rate, trace[k].1 - trace[i].1)
  {
    TraceMoves(rate, start, calls, trace, i);
    EarnedSoFar(rate, start, calls, trace, i, k);
  }

  /** One call's grant comes from what the bucket held and what was earned meanwhile. */
  predicate StepEarned(rate: nat, before: (Bucket, real), after: (Bucket, real), bytes: nat) {
    && after.0.tokens + bytes as real <= before.0.tokens + Earned(rate, after.1 - before.1)
    && bytes as real <= before.0.tokens + Earned(rate, after.1 - before.1)
  }

  lemma {:induction false} EarnedSoFar(rate: nat, start: real, calls: seq<Call>, trace: seq<(Bucket, real)>, i: nat,
        k: nat)
    requires rate > 0 && Sane(calls) && IsTrace(rate, start, calls, trace) && i < k <= |calls|
    ensures StepEarned(rate, trace[i], trace[k], Bytes(calls, i, k))
  {
    TraceMoves(rate, start, calls, trace, k - 1);
    CallIsEarned(rate, trace[k - 1], calls[k - 1], trace[k]);
    if i < k - 1 {
      EarnedSoFar(rate, start, calls, trace, i, k - 1);
      Chained(rate, trace[i], trace[k - 1], trace[k], Bytes(calls, i, k - 1), calls[k - 1].bytes);
    } else {
      assert Bytes(calls, i, k) == Bytes(calls, i, i) + calls[i].bytes;
    }
  }

  /** A stretch of calls and one more. */
  lemma Chained(rate: nat, a: (Bucket, real), b: (Bucket, real), c: (Bucket, real), bytes: nat, more: nat)
    requires StepEarned(rate, a, b, bytes) && StepEarned(rate, b, c, more)
    ensures StepEarned(rate, a, c, bytes + more)
  {
    EarnedBetween(rate, a.1, b.1, c.1);
  }

  /** The debt: never more than the largest request exceeds the capacity by. */
  lemma DebtBound(rate: nat, start: real, calls: seq<Call>, trace: seq<(Bucket, real)>, n: nat, largest: nat)
    requires rate > 0 && Sane(calls) && IsTrace(rate, start, calls, trace) && n <= |calls|
    requires forall k :: 0 <= k < n ==> calls[k].bytes <= largest
    ensures trace[n].0.tokens >= 0.0 || -trace[n].0.tokens <= largest as real - Capacity(rate)
  {
    if n > 0 {
      TraceMoves(rate, start, calls, trace, n - 1);
      CallIsEarned(rate, trace[n - 1], calls[n - 1], trace[n]);
    }
  }

  /** What the calls since the `i`-th leave, at `now`, of the capacity and of what was earned since that grant. */
  function LeftSince(rate: nat, calls: seq<Call>, trace: seq<(Bucket, real)>, i: nat, k: nat, now: real): real
    requires i <= k <= |calls| && |trace| == |calls| + 1
  {
    if i == k then Capacity(rate)
    else Capacity(rate) + Earned(rate, now - trace[i + 1].1) - Bytes(calls, i, k) as real
  }

  function LevelAt(rate: nat, b: Bucket, now: real): real { Refilled(rate, b, now).tokens }

  /** Refilling on the way makes no difference. */
  lemma RefilledTwice(rate: nat, b: Bucket, mid: real, now: real)
    requires b.last <= mid <= now
    ensures LevelAt(rate, Refilled(rate, b, mid), now) == LevelAt(rate, b, now)
  {
    EarnedBetween(rate, b.last, mid, now);
    EarnedAdds(rate, now - mid, 0.0);
  }

  /** At its grant a call takes its bytes off the level. */
  lemma TakesFromLevel(rate: nat, before: (Bucket, real), c: Call, after: (Bucket, real), now: real)
    requires rate > 0 && c.pause >= 0.0 && c.drift >= 0.0
    requires Follows(rate, before, c, after) && before.0.last == before.1 && now >= after.1
    ensures after.0 == Bucket(LevelAt(rate, before.0, after.1) - c.bytes as real, after.1)
  {
    CallIsEarned(rate, before, c, after);
    RefilledTwice(rate, before.0, before.1 + c.pause, after.1);
  }

  /** The level is the least of what is left since each call. */
  lemma {:induction false} LevelIsLeast(rate: nat, start: real, calls: seq<Call>, trace: seq<(Bucket, real)>, k: nat,
        now: real) returns (least: nat)
    requires rate > 0 && Sane(calls) && IsTrace(rate, start, calls, trace) && k <= |calls| && now >= trace[k].1
    ensures least <= k && LevelAt(rate, trace[k].0, now) == LeftSince(rate, calls, trace, least, k, now)
    ensures forall i :: 0 <= i <= k ==> LevelAt(rate, trace[k].0, now) <= LeftSince(rate, calls, trace, i, k, now)
  {
    if k == 0 {
      EarnedAdds(rate, now - start, 0.0);
      return 0;
    }
    var at := trace[k].1;
    TraceMoves(rate, start, calls, trace, k - 1);
    CallIsEarned(rate, trace[k - 1], calls[k - 1], trace[k]);
    TakesFromLevel(rate, trace[k - 1], calls[k - 1], trace[k], now);
    least := LevelIsLeast(rate, start, calls, trace, k - 1, at);
    forall i | 0 <= i < k
      ensures LeftSince(rate, calls, trace, i, k, now)
              == LeftSince(rate, calls, trace, i, k - 1, at) - calls[k - 1].bytes as real + Earned(rate, now - at)
    {
      LeftLater(rate, calls, trace, i, k, now);
    }
    if LevelAt(rate, trace[k].0, now) == Capacity(rate) {
      least := k;
    }
  }

  lemma LeftLater(rate: nat, calls: seq<Call>, trace: seq<(Bucket, real)>, i: nat, k: nat, now: real)
    requires i < k <= |calls| && |trace| == |calls| + 1
    ensures LeftSince(rate, calls, trace, i, k, now)
            == LeftSince(rate, calls, trace, i, k - 1, trace[k].1) - calls[k - 1].bytes as real + Earned(rate, now - trace[k].1)
  {
    if i < k - 1 {
      EarnedBetween(rate, trace[i + 1].1, trace[k].1, now);
    } else {
      assert Bytes(calls, i, k) == Bytes(calls, i, i) + calls[i].bytes;
    }
  }

  /** With call `k` the calls since the `i`-th keep to two seconds' worth plus the rate times the time since. */
  predicate WithinSince(rate: nat, calls: seq<Call>, trace: seq<(Bucket, real)>, i: nat, k: nat, now: real)
    requires i < k < |calls| && |trace| == |calls| + 1
  {
    (Bytes(calls, i, k) + calls[k].bytes) as real <= (2 * rate) as real + (now - trace[i + 1].1) * rate as real
  }

  /** What is left since each call would do for call `k`. */
  ghost predicate EnoughLeft(rate: nat, calls: seq<Call>, trace: seq<(Bucket, real)>, k: nat, now: real)
    requires k < |calls| && |trace| == |calls| + 1
  {
    forall i :: 0 <= i <= k ==> LeftSince(rate, calls, trace, i, k, now) >= calls[k].bytes as real
  }

  lemma AtOnceIff(rate: nat, before: (Bucket, real), c: Call, after: (Bucket, real))
    requires rate > 0 && c.drift >= 0.0 && Follows(rate, before, c, after)
    ensures var now := before.1 + c.pause;
            && (after.1 == now <==> c.bytes as real <= LevelAt(rate, before.0, now))
            && (after.1 != now ==> c.bytes as real == LevelAt(rate, before.0, now) + Earned(rate, after.1 - c.drift - now))
  {
    var missing := c.bytes as real - LevelAt(rate, before.0, before.1 + c.pause);
    if missing > 0.0 {
      SleepEarns(rate, missing);
    }
  }

  lemma AtOnceIfEnough(rate: nat, start: real, calls: seq<Call>, trace: seq<(Bucket, real)>, k: nat)
    requires rate > 0 && Sane(calls) && IsTrace(rate, start, calls, trace) && k < |calls|
    ensures trace[k + 1].1 == trace[k].1 + calls[k].pause
            <==> EnoughLeft(rate, calls, trace, k, trace[k].1 + calls[k].pause)
  {
    var now := trace[k].1 + calls[k].pause;
    var least := LevelIsLeast(rate, start, calls, trace, k, now);
    AtOnceIff(rate, trace[k], calls[k], trace[k + 1]);
  }

  /** A caller never waits without need: it is granted its bytes at once exactly if they are within two seconds'
      worth, and with those granted since any earlier call within that plus the rate times the time since. */
  lemma GrantedAtOnceIff(rate: nat, start: real, calls: seq<Call>, trace: seq<(Bucket, real)>, k: nat)
    requires rate > 0 && Sane(calls) && IsTrace(rate, start, calls, trace) && k < |calls|
    ensures var now := trace[k].1 + calls[k].pause;
            trace[k + 1].1 == now <==>
              && calls[k].bytes <= 2 * rate
              && forall i :: 0 <= i < k ==> WithinSince(rate, calls, trace, i, k, now)
  {
    AtOnceIfEnough(rate, start, calls, trace, k);
    EnoughLeftIff(rate, calls, trace, k, trace[k].1 + calls[k].pause);
  }

  lemma EnoughLeftIff(rate: nat, calls: seq<Call>, trace: seq<(Bucket, real)>, k: nat, now: real)
    requires k < |calls| && |trace| == |calls| + 1
    ensures EnoughLeft(rate, calls, trace, k, now) <==>
              calls[k].bytes <= 2 * rate && forall i :: 0 <= i < k ==> WithinSince(rate, calls, trace, i, k, now)
  {
    if EnoughLeft(rate, calls, trace, k, now) {
      assert LeftSince(rate, calls, trace, k, k, now) >= calls[k].bytes as real;
      forall i | 0 <= i < k
        ensures WithinSince(rate, calls, trace, i, k, now)
      {
        LeftIs(rate, calls, trace, i, k, now);
      }
    } else {
      var i :| 0 <= i <= k && LeftSince(rate, calls, trace, i, k, now) < calls[k].bytes as real;
      if i < k {
        LeftIs(rate, calls, trace, i, k, now);
      }
    }
  }

  lemma LeftIs(rate: nat, calls: seq<Call>, trace: seq<(Bucket, real)>, i: nat, k: nat, now: real)
    requires i < k < |calls| && |trace| == |calls| + 1
    ensures LeftSince(rate, calls, trace, i, k, now) >= calls[k].bytes as real <==> WithinSince(rate, calls, trace, i, k, now)
  {
  }

  /** The calls from the `i`-th to the `k`-th are just two seconds' worth plus the rate times this time. */
  predicate UsedUp(rate: nat, calls: seq<Call>, i: nat, k: nat, since: real, until: real)
    requires i <= k < |calls|
  {
    (Bytes(calls, i, k) + calls[k].bytes) as real == (2 * rate) as real + (until - since) * rate as real
  }

  /** ... and if it has to sleep, the sleep it asks for is what earns the bytes that are missing. */
  lemma SleepIsExact(rate: nat, start: real, calls: seq<Call>, trace: seq<(Bucket, real)>, k: nat) returns (i: nat)
    requires rate > 0 && Sane(calls) && IsTrace(rate, start, calls, trace) && k < |calls|
    requires trace[k + 1].1 != trace[k].1 + calls[k].pause
    ensures i <= k
    ensures UsedUp(rate, calls, i, k, if i == k then trace[k].1 + calls[k].pause else trace[i + 1].1,
                   trace[k + 1].1 - calls[k].drift)
  {
    i := SleepsForLeft(rate, start, calls, trace, k);
    LeftGrows(rate, calls, trace, i, k, trace[k].1 + calls[k].pause, trace[k + 1].1 - calls[k].drift);
  }

  lemma SleepsForLeft(rate: nat, start: real, calls: seq<Call>, trace: seq<(Bucket, real)>, k: nat) returns (i: nat)
    requires rate > 0 && Sane(calls) && IsTrace(rate, start, calls, trace) && k < |calls|
    requires trace[k + 1].1 != trace[k].1 + calls[k].pause
    ensures i <= k
    ensures var now := trace[k].1 + calls[k].pause;
            calls[k].bytes as real
            == LeftSince(rate, calls, trace, i, k, now) + Earned(rate, trace[k + 1].1 - calls[k].drift - now)
  {
    i := LevelIsLeast(rate, start, calls, trace, k, trace[k].1 + calls[k].pause);
    AtOnceIff(rate, trace[k], calls[k], trace[k + 1]);
  }

  lemma LeftGrows(rate: nat, calls: seq<Call>, trace: seq<(Bucket, real)>, i: nat, k: nat, now: real, later: real)
    requires i <= k < |calls| && |trace| == |calls| + 1
    requires calls[k].bytes as real == LeftSince(rate, calls, trace, i, k, now) + Earned(rate, later - now)
    ensures UsedUp(rate, calls, i, k, if i == k then now else trace[i + 1].1, later)
  {
    if i < k {
      EarnedBetween(rate, trace[i + 1].1, now, later);
    }
  }

  // ----- several callers -----

  datatype Sleeper = Sleeper(bytes: nat, until: real)

  /** The bucket, the callers asleep in the order they fell asleep, and the bytes granted so far. */
  datatype Crowd = Crowd(bucket: Bucket, asleep: seq<Sleeper>, granted: nat)

  /** One hold of the lock: a caller's first look, or that of the `k`-th sleeper when its sleep is over. */
  datatype Hold =
    | Look(bytes: nat, at: real)
    | Wake(k: nat, at: real)

  /** A sleep may overrun and is never cut short. */
  predicate CanHold(c: Crowd, h: Hold) {
    h.at >= c.bucket.last && (h.Wake? ==> h.k < |c.asleep| && h.at >= c.asleep[h.k].until)
  }

  function Drop(asleep: seq<Sleeper>, k: nat): seq<Sleeper>
    requires k < |asleep|
  {
    asleep[..k] + asleep[k + 1..]
  }

  function Grant(rate: nat, c: Crowd, bytes: nat, at: real, asleep: seq<Sleeper>): Crowd {
    Crowd(Taken(Refilled(rate, c.bucket, at), bytes), asleep, c.granted + bytes)
  }

  function AfterHold(rate: nat, c: Crowd, h: Hold): Crowd
    requires rate > 0 && CanHold(c, h)
  {
    match h
    case Look(bytes, at) =>
      if HasTokens(rate, c.bucket, bytes, at) then Grant(rate, c, bytes, at, c.asleep)
      else Crowd(Refilled(rate, c.bucket, at), c.asleep + [Sleeper(bytes, at + SleepTime(rate, c.bucket, bytes, at))],
                 c.granted)
    case Wake(k, at) => Grant(rate, c, c.asleep[k].bytes, at, Drop(c.asleep, k))
  }

  function Asleep(asleep: seq<Sleeper>): nat {
    if asleep == [] then 0 else Asleep(asleep[..|asleep| - 1]) + asleep[|asleep| - 1].bytes
  }

  /** Any interleaving of any callers. */
  ghost predicate Crowds(rate: nat, start: real, holds: seq<Hold>, trace: seq<Crowd>)
    requires rate > 0
  {
    && |trace| == |holds| + 1 && trace[0] == Crowd(Bucket(Capacity(rate), start), [], 0)
    && forall n :: 0 <= n < |holds| ==> Steps(rate, trace[n], holds[n], trace[n + 1])
  }

  /** At most `most` bytes are asleep at once. */
  ghost predicate AsleepAtMost(trace: seq<Crowd>, most: nat) {
    forall n :: 0 <= n < |trace| ==> Asleep(trace[n].asleep) <= most
  }

  /** A caller that comes finds at most `others` bytes asleep. */
  ghost predicate FindsBytes(holds: seq<Hold>, trace: seq<Crowd>, others: nat) {
    |holds| < |trace| && forall n :: 0 <= n < |holds| && holds[n].Look? ==> Asleep(trace[n].asleep) <= others
  }

  /** A caller that comes finds fewer than `callers` asleep. */
  ghost predicate FindsCallers(holds: seq<Hold>, trace: seq<Crowd>, callers: nat) {
    |holds| < |trace| && forall n :: 0 <= n < |holds| && holds[n].Look? ==> |trace[n].asleep| < callers
  }

  ghost predicate Steps(rate: nat, c: Crowd, h: Hold, d: Crowd)
    requires rate > 0
  {
    CanHold(c, h) && d == AfterHold(rate, c, h)
  }

  /** A caller by itself is a crowd of one: its look, and its wake if it has to sleep. */
  lemma AloneIsGranted(rate: nat, c: Crowd, bytes: nat, now: real, drift: real)
    requires rate > 0 && c.asleep == [] && now >= c.bucket.last && drift >= 0.0
    ensures var (b, at) := Granted(rate, c.bucket, bytes, now, drift);
            var d := AfterHold(rate, c, Look(bytes, now));
            if d.asleep == [] then at == now && d == Crowd(b, [], c.granted + bytes)
            else CanHold(d, Wake(0, at)) && AfterHold(rate, d, Wake(0, at)) == Crowd(b, [], c.granted + bytes)
  {
    if !HasTokens(rate, c.bucket, bytes, now) {
      SleepEarns(rate, bytes as real - Refilled(rate, c.bucket, now).tokens);
    }
  }

  // ----- what draws in advance of earning -----

  /** Why a level stays bounded below while callers draw from it. Since a moment when it was not negative and the
      first `few` sleepers were asleep already, `owed` bytes have been drawn; and since the `k`-th of the others fell
      asleep, when what it still needed was its sleep's earnings, `since[k]` have. */
  datatype Debt = Debt(few: nat, owed: real, since: seq<real>)

  /** The bytes a sleeper itself adds to what may be owed: all or none. */
  function Own(own: bool, s: Sleeper): nat { if own then s.bytes else 0 }

  ghost predicate Owes(rate: nat, level: real, last: real, asleep: seq<Sleeper>, own: bool, bound: nat, d: Debt) {
    && |d.since| == |asleep| && d.few <= |asleep|
    && -level <= d.owed && d.owed + Asleep(asleep[..d.few]) as real <= bound as real
    && forall k :: d.few <= k < |asleep| ==> OwesSince(rate, level, last, asleep, own, bound, k, d.since[k])
  }

  ghost predicate OwesSince(rate: nat, level: real, last: real, asleep: seq<Sleeper>, own: bool, bound: nat, k: nat,
        since: real)
    requires k < |asleep|
  {
    && level >= asleep[k].bytes as real - Earned(rate, asleep[k].until - last) - since
    && since + (Asleep(asleep[..k]) + Own(own, asleep[k])) as real <= bound as real
  }

  /** No debt: nobody need be counted but those asleep. */
  lemma NoDebt(rate: nat, level: real, last: real, asleep: seq<Sleeper>, own: bool, bound: nat) returns (d: Debt)
    requires level >= 0.0 && Asleep(asleep) <= bound
    ensures Owes(rate, level, last, asleep, own, bound, d)
  {
    d := Debt(|asleep|, 0.0, seq(|asleep|, _ => 0.0));
    assert asleep[..|asleep|] == asleep;
  }

  /** The level rises by what time earns. */
  lemma RiseOwes(rate: nat, level: real, last: real, asleep: seq<Sleeper>, own: bool, bound: nat, d: Debt, at: real)
    requires Owes(rate, level, last, asleep, own, bound, d) && at >= last
    ensures Owes(rate, level + Earned(rate, at - last), at, asleep, own, bound, d)
  {
    EarnedAdds(rate, at - last, 0.0);
    forall k | d.few <= k < |asleep|
      ensures OwesSince(rate, level + Earned(rate, at - last), at, asleep, own, bound, k, d.since[k])
    {
      assert OwesSince(rate, level, last, asleep, own, bound, k, d.since[k]);
      EarnedBetween(rate, last, at, asleep[k].until);
    }
  }

  /** One more falls asleep. */
  lemma SleepOwes(rate: nat, level: real, last: real, asleep: seq<Sleeper>, own: bool, bound: nat, d: Debt, s: Sleeper)
    returns (e: Debt)
    requires Owes(rate, level, last, asleep, own, bound, d) && Asleep(asleep) + Own(own, s) <= bound
    requires level >= s.bytes as real - Earned(rate, s.until - last)
    ensures Owes(rate, level, last, asleep + [s], own, bound, e)
  {
    e := d.(since := d.since + [0.0]);
    var n, after := |asleep|, asleep + [s];
    assert after[..d.few] == asleep[..d.few];
    forall k | d.few <= k <= n
      ensures OwesSince(rate, level, last, after, own, bound, k, e.since[k])
    {
      assert after[..k] == asleep[..k];
      if k < n {
        assert OwesSince(rate, level, last, asleep, own, bound, k, d.since[k]);
      } else {
        assert asleep[..n] == asleep;
      }
    }
  }

  lemma {:induction false} AsleepWithout(asleep: seq<Sleeper>, k: nat)
    requires k < |asleep|
    ensures Asleep(asleep) == Asleep(Drop(asleep, k)) + asleep[k].bytes
    decreases |asleep|
  {
    var n := |asleep| - 1;
    if k == n {
      assert Drop(asleep, k) == asleep[..n];
    } else {
      AsleepWithout(asleep[..n], k);
      assert Drop(asleep, k)[..n - 1] == Drop(asleep[..n], k);
      assert Drop(asleep, k)[n - 1] == asleep[n];
    }
  }

  lemma DropPrefix(asleep: seq<Sleeper>, k: nat, n: nat)
    requires k < n <= |asleep|
    ensures Asleep(Drop(asleep, k)[..n - 1]) + asleep[k].bytes == Asleep(asleep[..n])
  {
    assert Drop(asleep, k)[..n - 1] == Drop(asleep[..n], k);
    AsleepWithout(asleep[..n], k);
  }

  /** The `k`-th sleeper draws: whoever fell asleep later counts it; whoever did earlier is among the few from now on. */
  function DrawnDebt(asleep: seq<Sleeper>, own: bool, k: nat, d: Debt): Debt
    requires k < |asleep| == |d.since|
  {
    var bytes := asleep[k].bytes as real;
    Debt(if k < d.few then d.few - 1 else k,
         if k < d.few then d.owed + bytes else d.since[k] + Own(own, asleep[k]) as real,
         seq(|d.since| - 1, i requires 0 <= i < |d.since| - 1 => if i < k then 0.0 else d.since[i + 1] + bytes))
  }

  lemma DrawFew(rate: nat, level: real, last: real, asleep: seq<Sleeper>, own: bool, bound: nat, d: Debt, k: nat)
    requires Owes(rate, level, last, asleep, own, bound, d) && k < |asleep| && asleep[k].until <= last
    ensures var e := DrawnDebt(asleep, own, k, d);
            && e.few < |asleep| && asleep[k].bytes as real - level <= e.owed
            && e.owed + Asleep(Drop(asleep, k)[..e.few]) as real <= bound as real
  {
    if k < d.few {
      DropPrefix(asleep, k, d.few);
    } else {
      assert Drop(asleep, k)[..k] == asleep[..k];
      assert OwesSince(rate, level, last, asleep, own, bound, k, d.since[k]);
      EarnedAdds(rate, last - asleep[k].until, asleep[k].until - last);
    }
  }

  lemma DrawSince(rate: nat, level: real, last: real, asleep: seq<Sleeper>, own: bool, bound: nat, k: nat, i: nat,
        since: real)
    requires k <= i < |asleep| - 1 && OwesSince(rate, level, last, asleep, own, bound, i + 1, since)
    ensures var bytes := asleep[k].bytes as real;
            OwesSince(rate, level - bytes, last, Drop(asleep, k), own, bound, i, since + bytes)
  {
    DropPrefix(asleep, k, i + 1);
  }

  lemma DrawOwes(rate: nat, level: real, last: real, asleep: seq<Sleeper>, own: bool, bound: nat, d: Debt, k: nat)
    requires Owes(rate, level, last, asleep, own, bound, d) && k < |asleep| && asleep[k].until <= last
    ensures Owes(rate, level - asleep[k].bytes as real, last, Drop(asleep, k), own, bound, DrawnDebt(asleep, own, k, d))
  {
    DrawFew(rate, level, last, asleep, own, bound, d, k);
    var e := DrawnDebt(asleep, own, k, d);
    forall i | e.few <= i < |asleep| - 1
      ensures OwesSince(rate, level - asleep[k].bytes as real, last, Drop(asleep, k), own, bound, i, e.since[i])
    {
      assert d.few <= i + 1 && k <= i;
      assert OwesSince(rate, level, last, asleep, own, bound, i + 1, d.since[i + 1]);
      DrawSince(rate, level, last, asleep, own, bound, k, i, d.since[i + 1]);
    }
  }

  /** A caller without tokens sleeps for as long as it takes to earn what it still needs. */
  lemma LookNeeds(rate: nat, c: Crowd, bytes: nat, at: real)
    requires rate > 0 && at >= c.bucket.last && !HasTokens(rate, c.bucket, bytes, at)
    ensures var s := Sleeper(bytes, at + SleepTime(rate, c.bucket, bytes, at));
            && AfterHold(rate, c, Look(bytes, at)) == Crowd(Refilled(rate, c.bucket, at), c.asleep + [s], c.granted)
            && Refilled(rate, c.bucket, at).tokens == bytes as real - Earned(rate, s.until - at)
  {
    var wait := SleepTime(rate, c.bucket, bytes, at);
    SleepEarns(rate, bytes as real - Refilled(rate, c.bucket, at).tokens);
    assert at + wait - at == wait;
  }

  // ----- what the bucket owes -----

  ghost predicate BucketOwes(rate: nat, c: Crowd, most: nat, d: Debt) {
    Owes(rate, c.bucket.tokens, c.bucket.last, c.asleep, true, most, d)
  }

  lemma RefillOwes(rate: nat, c: Crowd, most: nat, at: real, d: Debt) returns (e: Debt)
    requires BucketOwes(rate, c, most, d) && at >= c.bucket.last && Asleep(c.asleep) <= most
    ensures BucketOwes(rate, c.(bucket := Refilled(rate, c.bucket, at)), most, e)
  {
    var after := Refilled(rate, c.bucket, at);
    if after.tokens == Capacity(rate) {
      e := NoDebt(rate, after.tokens, at, c.asleep, true, most);
    } else {
      RiseOwes(rate, c.bucket.tokens, c.bucket.last, c.asleep, true, most, d, at);
      e := d;
    }
  }

  lemma LookOwes(rate: nat, c: Crowd, bytes: nat, at: real, most: nat, d: Debt) returns (e: Debt)
    requires rate > 0 && at >= c.bucket.last && BucketOwes(rate, c.(bucket := Refilled(rate, c.bucket, at)), most, d)
    requires Asleep(AfterHold(rate, c, Look(bytes, at)).asleep) <= most
    ensures BucketOwes(rate, AfterHold(rate, c, Look(bytes, at)), most, e)
  {
    var after := AfterHold(rate, c, Look(bytes, at));
    if HasTokens(rate, c.bucket, bytes, at) {
      e := NoDebt(rate, after.bucket.tokens, at, after.asleep, true, most);
    } else {
      LookNeeds(rate, c, bytes, at);
      var s := Sleeper(bytes, at + SleepTime(rate, c.bucket, bytes, at));
      assert (c.asleep + [s])[..|c.asleep|] == c.asleep;
      e := SleepOwes(rate, Refilled(rate, c.bucket, at).tokens, at, c.asleep, true, most, d, s);
    }
  }

  lemma HoldOwes(rate: nat, c: Crowd, h: Hold, most: nat, d: Debt) returns (e: Debt)
    requires rate > 0 && CanHold(c, h) && BucketOwes(rate, c, most, d)
    requires Asleep(c.asleep) <= most && Asleep(AfterHold(rate, c, h).asleep) <= most
    ensures BucketOwes(rate, AfterHold(rate, c, h), most, e)
  {
    e := RefillOwes(rate, c, most, h.at, d);
    match h
    case Wake(k, at) =>
      DrawOwes(rate, Refilled(rate, c.bucket, at).tokens, at, c.asleep, true, most, e, k);
      e := DrawnDebt(c.asleep, true, k, e);
    case Look(bytes, at) =>
      e := LookOwes(rate, c, bytes, at, most, e);
  }

  lemma {:induction false} CrowdOwes(rate: nat, start: real, holds: seq<Hold>, trace: seq<Crowd>, most: nat, n: nat)
    returns (d: Debt)
    requires rate > 0 && Crowds(rate, start, holds, trace) && AsleepAtMost(trace, most) && n <= |holds|
    ensures BucketOwes(rate, trace[n], most, d)
  {
    if n == 0 {
      d := NoDebt(rate, trace[0].bucket.tokens, start, [], true, most);
    } else {
      var c := CrowdOwes(rate, start, holds, trace, most, n - 1);
      assert Steps(rate, trace[n - 1], holds[n - 1], trace[n]);
      d := HoldOwes(rate, trace[n - 1], holds[n - 1], most, c);
    }
  }

  // ----- what callers are granted -----

  /** What is left, at `c`, of the capacity and of what has been earned since `from`. */
  function Unspent(rate: nat, from: Crowd, c: Crowd): real {
    Capacity(rate) + Earned(rate, c.bucket.last - from.bucket.last) - (c.granted - from.granted) as real
  }

  lemma NeverOverfull(rate: nat, start: real, holds: seq<Hold>, trace: seq<Crowd>, n: nat)
    requires rate > 0 && Crowds(rate, start, holds, trace) && n <= |holds|
    ensures trace[n].bucket.tokens <= Capacity(rate)
  {
    if n > 0 {
      assert Steps(rate, trace[n - 1], holds[n - 1], trace[n]);
    }
  }

  /** The bucket never holds more than is unspent. */
  lemma {:induction false} HeldIsUnspent(rate: nat, start: real, holds: seq<Hold>, trace: seq<Crowd>, i: nat, n: nat)
    requires rate > 0 && Crowds(rate, start, holds, trace) && i <= n <= |holds|
    ensures trace[n].bucket.tokens <= Unspent(rate, trace[i], trace[n])
    ensures trace[n].bucket.last == if n == 0 then start else holds[n - 1].at
  {
    if i == n {
      NeverOverfull(rate, start, holds, trace, n);
      assert n > 0 ==> Steps(rate, trace[n - 1], holds[n - 1], trace[n]);
    } else {
      HeldIsUnspent(rate, start, holds, trace, i, n - 1);
      assert Steps(rate, trace[n - 1], holds[n - 1], trace[n]);
      HoldSpends(rate, trace[i], trace[n - 1], holds[n - 1]);
    }
  }

  /** A hold earns until its time, and spends what it grants. */
  lemma HoldSpends(rate: nat, from: Crowd, c: Crowd, h: Hold)
    requires rate > 0 && CanHold(c, h)
    ensures var d := AfterHold(rate, c, h);
            && d.granted >= c.granted
            && Unspent(rate, from, d)
               == Unspent(rate, from, c) + Earned(rate, h.at - c.bucket.last) - (d.granted - c.granted) as real
            && d.bucket.tokens
               <= c.bucket.tokens + Earned(rate, h.at - c.bucket.last) - (d.granted - c.granted) as real
  {
    EarnedBetween(rate, from.bucket.last, c.bucket.last, h.at);
  }

  /** What has been granted is what was earned and what is owed. */
  lemma ExcessIsDebt(rate: nat, start: real, holds: seq<Hold>, trace: seq<Crowd>, n: nat)
    requires rate > 0 && Crowds(rate, start, holds, trace) && n <= |holds|
    ensures trace[n].granted as real + trace[n].bucket.tokens
            <= Capacity(rate) + Earned(rate, trace[n].bucket.last - start)
    ensures trace[n].bucket.last == if n == 0 then start else holds[n - 1].at
  {
    HeldIsUnspent(rate, start, holds, trace, 0, n);
  }

  /** The most the bucket ever owes is what was asleep at once. */
  lemma CrowdBound(rate: nat, start: real, holds: seq<Hold>, trace: seq<Crowd>, most: nat, n: nat)
    requires rate > 0 && Crowds(rate, start, holds, trace) && AsleepAtMost(trace, most) && n <= |holds|
    ensures -trace[n].bucket.tokens <= most as real
    ensures trace[n].granted as real
            <= Capacity(rate) + Earned(rate, trace[n].bucket.last - start) + most as real
  {
    var d := CrowdOwes(rate, start, holds, trace, most, n);
    ExcessIsDebt(rate, start, holds, trace, n);
  }

  /** The limit, with an allowance of `extra` bytes: over every stretch that begins with nobody asleep. */
  ghost predicate Limited(rate: nat, trace: seq<Crowd>, extra: nat) {
    forall i, n :: 0 <= i <= n < |trace| && trace[i].asleep == [] ==>
      (trace[n].granted - trace[i].granted) as real
      <= Capacity(rate) + Earned(rate, trace[n].bucket.last - trace[i].bucket.last) + extra as real
  }

  ghost predicate SpendOwes(rate: nat, from: Crowd, c: Crowd, others: nat, d: Debt) {
    Owes(rate, Unspent(rate, from, c), c.bucket.last, c.asleep, false, others, d)
  }

  /** A caller that is granted at once leaves no debt; one that sleeps adds none of its own. */
  lemma LookSpends(rate: nat, from: Crowd, c: Crowd, bytes: nat, at: real, others: nat, d: Debt) returns (e: Debt)
    requires rate > 0 && at >= c.bucket.last && c.bucket.tokens <= Unspent(rate, from, c)
    requires Owes(rate, Unspent(rate, from, c) + Earned(rate, at - c.bucket.last), at, c.asleep, false, others, d)
    requires Asleep(c.asleep) <= others
    ensures SpendOwes(rate, from, AfterHold(rate, c, Look(bytes, at)), others, e)
  {
    var after := AfterHold(rate, c, Look(bytes, at));
    HoldSpends(rate, from, c, Look(bytes, at));
    if HasTokens(rate, c.bucket, bytes, at) {
      e := NoDebt(rate, Unspent(rate, from, after), at, c.asleep, false, others);
    } else {
      LookNeeds(rate, c, bytes, at);
      var s := Sleeper(bytes, at + SleepTime(rate, c.bucket, bytes, at));
      e := SleepOwes(rate, Unspent(rate, from, after), at, c.asleep, false, others, d, s);
    }
  }

  lemma SpendStep(rate: nat, from: Crowd, c: Crowd, h: Hold, others: nat, d: Debt) returns (e: Debt)
    requires rate > 0 && CanHold(c, h) && SpendOwes(rate, from, c, others, d)
    requires c.bucket.tokens <= Unspent(rate, from, c) && (h.Look? ==> Asleep(c.asleep) <= others)
    ensures SpendOwes(rate, from, AfterHold(rate, c, h), others, e)
  {
    var risen := Unspent(rate, from, c) + Earned(rate, h.at - c.bucket.last);
    RiseOwes(rate, Unspent(rate, from, c), c.bucket.last, c.asleep, false, others, d, h.at);
    match h
    case Wake(k, at) =>
      HoldSpends(rate, from, c, h);
      DrawOwes(rate, risen, at, c.asleep, false, others, d, k);
      e := DrawnDebt(c.asleep, false, k, d);
    case Look(bytes, at) =>
      e := LookSpends(rate, from, c, bytes, at, others, d);
  }

  lemma {:induction false} StretchOwes(rate: nat, start: real, holds: seq<Hold>, trace: seq<Crowd>, others: nat, i: nat,
        n: nat)
    returns (d: Debt)
    requires rate > 0 && Crowds(rate, start, holds, trace) && FindsBytes(holds, trace, others)
    requires i <= n <= |holds| && trace[i].asleep == []
    ensures SpendOwes(rate, trace[i], trace[n], others, d)
  {
    if i == n {
      d := NoDebt(rate, Unspent(rate, trace[i], trace[n]), trace[n].bucket.last, [], false, others);
    } else {
      var c := StretchOwes(rate, start, holds, trace, others, i, n - 1);
      assert Steps(rate, trace[n - 1], holds[n - 1], trace[n]);
      HeldIsUnspent(rate, start, holds, trace, i, n - 1);
      d := SpendStep(rate, trace[i], trace[n - 1], holds[n - 1], others, c);
    }
  }

  /** However callers interleave, they are granted what one caller would be and no more besides than the bytes a
      caller finds asleep when it comes. */
  lemma SharedLimit(rate: nat, start: real, holds: seq<Hold>, trace: seq<Crowd>, others: nat)
    requires rate > 0 && Crowds(rate, start, holds, trace) && FindsBytes(holds, trace, others)
    ensures Limited(rate, trace, others)
  {
    forall i, n | 0 <= i <= n < |trace| && trace[i].asleep == []
      ensures -(others as real) <= Unspent(rate, trace[i], trace[n])
    {
      var d := StretchOwes(rate, start, holds, trace, others, i, n);
    }
  }

  // ----- and callers that use it up -----

  /** A burst empties the bucket; two callers want `bytes` each, sleep, and both go on when their sleep is over. */
  function TwoHolds(rate: nat, bytes: nat): seq<Hold>
    requires rate > 0
  {
    var over := bytes as real / rate as real;
    [Look(2 * rate, 0.0), Look(bytes, 0.0), Look(bytes, 0.0), Wake(0, over), Wake(0, over)]
  }

  function TwoSleep(rate: nat, bytes: nat): seq<Crowd>
    requires rate > 0
  {
    var s := Sleeper(bytes, bytes as real / rate as real);
    var first := (if bytes as real < Capacity(rate) then bytes as real else Capacity(rate)) - bytes as real;
    [Crowd(Bucket(Capacity(rate), 0.0), [], 0), Crowd(Bucket(0.0, 0.0), [], 2 * rate),
     Crowd(Bucket(0.0, 0.0), [s], 2 * rate), Crowd(Bucket(0.0, 0.0), [s, s], 2 * rate),
     Crowd(Bucket(first, s.until), [s], 2 * rate + bytes),
     Crowd(Bucket(first - bytes as real, s.until), [], 2 * rate + 2 * bytes)]
  }

  lemma BurstEmpties(rate: nat, bytes: nat)
    requires rate > 0 && bytes > 0
    ensures Steps(rate, TwoSleep(rate, bytes)[0], TwoHolds(rate, bytes)[0], TwoSleep(rate, bytes)[1])
  {
    EarnedAdds(rate, 0.0, 0.0);
    assert HasTokens(rate, Bucket(Capacity(rate), 0.0), 2 * rate, 0.0);
  }

  lemma EmptySleeps(rate: nat, bytes: nat, asleep: seq<Sleeper>, granted: nat)
    requires rate > 0 && bytes > 0
    ensures var c := Crowd(Bucket(0.0, 0.0), asleep, granted);
            Steps(rate, c, Look(bytes, 0.0), c.(asleep := asleep + [Sleeper(bytes, bytes as real / rate as real)]))
  {
    var b := Bucket(0.0, 0.0);
    EarnedAdds(rate, 0.0, 0.0);
    assert Refilled(rate, b, 0.0) == b && !HasTokens(rate, b, bytes, 0.0);
    assert SleepTime(rate, b, bytes, 0.0) == bytes as real / rate as real;
  }

  lemma FirstWakes(rate: nat, bytes: nat)
    requires rate > 0 && bytes > 0
    ensures Steps(rate, TwoSleep(rate, bytes)[3], TwoHolds(rate, bytes)[3], TwoSleep(rate, bytes)[4])
  {
    var t := TwoSleep(rate, bytes);
    SleepEarns(rate, bytes as real);
    assert Drop(t[3].asleep, 0) == t[4].asleep;
    assert Refilled(rate, t[3].bucket, t[4].bucket.last).tokens == t[4].bucket.tokens + bytes as real;
  }

  lemma SecondWakes(rate: nat, bytes: nat)
    requires rate > 0 && bytes > 0
    ensures Steps(rate, TwoSleep(rate, bytes)[4], TwoHolds(rate, bytes)[4], TwoSleep(rate, bytes)[5])
  {
    var t := TwoSleep(rate, bytes);
    EarnedAdds(rate, 0.0, 0.0);
    assert Drop(t[4].asleep, 0) == t[5].asleep;
    assert Refilled(rate, t[4].bucket, t[4].bucket.last) == t[4].bucket;
  }

  /** Two callers at once exceed the limit by the bytes the second found asleep, at every rate and size. */
  lemma TwoCallersExceedIt(rate: nat, bytes: nat)
    requires rate > 0 && bytes > 0
    ensures var holds, trace := TwoHolds(rate, bytes), TwoSleep(rate, bytes);
            && Crowds(rate, 0.0, holds, trace) && FindsBytes(holds, trace, bytes) && FindsCallers(holds, trace, 2)
            && trace[5].granted as real == Capacity(rate) + Earned(rate, trace[5].bucket.last) + bytes as real
  {
    var holds, trace := TwoHolds(rate, bytes), TwoSleep(rate, bytes);
    BurstEmpties(rate, bytes);
    EmptySleeps(rate, bytes, [], 2 * rate);
    EmptySleeps(rate, bytes, trace[2].asleep, 2 * rate);
    FirstWakes(rate, bytes);
    SecondWakes(rate, bytes);
    TwoSteps(rate, bytes);
    SleepEarns(rate, bytes as real);
    assert trace[2].asleep[..0] == [];
  }

  lemma TwoSteps(rate: nat, bytes: nat)
    requires rate > 0
    requires var h, t := TwoHolds(rate, bytes), TwoSleep(rate, bytes);
             && Steps(rate, t[0], h[0], t[1]) && Steps(rate, t[1], h[1], t[2]) && Steps(rate, t[2], h[2], t[3])
             && Steps(rate, t[3], h[3], t[4]) && Steps(rate, t[4], h[4], t[5])
    ensures Crowds(rate, 0.0, TwoHolds(rate, bytes), TwoSleep(rate, bytes))
  {
  }

  /** So the allowance is exact: callers that find at most `others` bytes asleep keep the limit with `extra` bytes
      more in every run exactly when `extra` covers `others`. */
  lemma SharedLimitIff(rate: nat, others: nat, extra: nat)
    requires rate > 0
    ensures (forall start, holds, trace :: Crowds(rate, start, holds, trace) && FindsBytes(holds, trace, others) ==>
               Limited(rate, trace, extra))
            <==> others <= extra
  {
    if others <= extra {
      forall start, holds, trace | Crowds(rate, start, holds, trace) && FindsBytes(holds, trace, others)
        ensures Limited(rate, trace, extra)
      {
        SharedLimit(rate, start, holds, trace, others);
        LimitedMore(rate, trace, others, extra);
      }
    } else {
      TwoCallersExceedIt(rate, others);
      TwoUnlimited(rate, others, extra);
    }
  }

  lemma LimitedMore(rate: nat, trace: seq<Crowd>, others: nat, extra: nat)
    requires Limited(rate, trace, others) && others <= extra
    ensures Limited(rate, trace, extra)
  {
  }

  lemma TwoUnlimited(rate: nat, bytes: nat, extra: nat)
    requires rate > 0 && extra < bytes
    ensures !Limited(rate, TwoSleep(rate, bytes), extra)
  {
    var trace := TwoSleep(rate, bytes);
    TwoCallersExceedIt(rate, bytes);
    assert trace[0].asleep == [] && trace[5].bucket.last - trace[0].bucket.last == trace[5].bucket.last;
  }

  /** And the limit itself is kept in every run, whatever the sizes, exactly when no caller comes while one sleeps. */
  lemma CallersLimitIff(rate: nat, callers: nat)
    requires rate > 0
    ensures (forall start, holds, trace :: Crowds(rate, start, holds, trace) && FindsCallers(holds, trace, callers) ==>
               Limited(rate, trace, 0))
            <==> callers <= 1
  {
    if callers <= 1 {
      forall start, holds, trace | Crowds(rate, start, holds, trace) && FindsCallers(holds, trace, callers)
        ensures Limited(rate, trace, 0)
      {
        SharedLimit(rate, start, holds, trace, 0);
      }
    } else {
      TwoCallersExceedIt(rate, rate);
      TwoUnlimited(rate, rate, 0);
    }
  }
}
