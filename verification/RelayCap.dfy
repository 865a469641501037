/** The relay's bandwidth cap: a token bucket over real time (rendezvous/src/relay.rs). The cap is in bytes
    a second, and zero means none. */
module RelayCap {
  import opened TokenBucket

  datatype Arrival = Arrival(at: real, len: nat)

  /** Arrivals in order, none before the loop started. */
  ghost predicate Ordered(start: real, arrivals: seq<Arrival>) {
    && (forall k :: 0 <= k < |arrivals| ==> start <= arrivals[k].at)
    && (forall j, k :: 0 <= j <= k < |arrivals| ==> arrivals[j].at <= arrivals[k].at)
  }

  function Burst(cap: nat): real { cap as real * 0.5 }

  /** What is in the bucket when the packet comes: at most half a second's worth. */
  function Available(cap: nat, b: Bucket, at: real): (tokens: real)
    ensures tokens <= Burst(cap) && tokens <= b.tokens + Earned(cap, at - b.last)
  {
    var filled := b.tokens + Earned(cap, at - b.last);
    if filled < Burst(cap) then filled else Burst(cap)
  }

  predicate Fits(cap: nat, b: Bucket, p: Arrival) { p.len as real <= Available(cap, b, p.at) }

  /** One packet: a dropped one leaves the tokens. */
  function Metered(cap: nat, b: Bucket, p: Arrival): Bucket {
    var tokens := Available(cap, b, p.at);
    Bucket(if Fits(cap, b, p) then tokens - p.len as real else tokens, p.at)
  }

  /** The bucket after `n` packets; it starts with a full second's worth. */
  function BucketAfter(cap: nat, start: real, arrivals: seq<Arrival>, n: nat): Bucket
    requires n <= |arrivals|
  {
    if n == 0 then Bucket(cap as real, start)
    else Metered(cap, BucketAfter(cap, start, arrivals, n - 1), arrivals[n - 1])
  }

  predicate Passes(cap: nat, start: real, arrivals: seq<Arrival>, k: nat)
    requires k < |arrivals|
  {
    Fits(cap, BucketAfter(cap, start, arrivals, k), arrivals[k])
  }

  /** The bytes let through from packet `j` up to but not including packet `k`. */
  function PassedBytes(cap: nat, start: real, arrivals: seq<Arrival>, j: nat, k: nat): nat
    requires j <= k <= |arrivals|
  {
    if j == k then 0
    else PassedBytes(cap, start, arrivals, j, k - 1) + if Passes(cap, start, arrivals, k - 1) then arrivals[k - 1].len else 0
  }

  /** The metering part of the forwarding loop. */
  method Meter(cap: nat, start: real, arrivals: seq<Arrival>) returns (passed: seq<bool>)
    ensures |passed| == |arrivals|
    ensures cap == 0 ==> forall k :: 0 <= k < |arrivals| ==> passed[k]
    ensures cap > 0 ==> forall k :: 0 <= k < |arrivals| ==> passed[k] == Passes(cap, start, arrivals, k)
  {
    passed := [];
    var bucketTokens, bucketLast := cap as real, start;
    for n := 0 to |arrivals|
      invariant |passed| == n
      invariant cap == 0 ==> forall k :: 0 <= k < n ==> passed[k]
      invariant cap > 0 ==> Bucket(bucketTokens, bucketLast) == BucketAfter(cap, start, arrivals, n)
      invariant cap > 0 ==> forall k :: 0 <= k < n ==> passed[k] == Passes(cap, start, arrivals, k)
    {
      if cap > 0 {
        var pass;
        bucketTokens, bucketLast, pass := MeterOne(cap, bucketTokens, bucketLast, arrivals[n].len, arrivals[n].at);
        passed := passed + [pass];
      } else {
        passed := passed + [true];
      }
    }
  }

  method MeterOne(cap: nat, tokens: real, last: real, len: nat, now: real)
    returns (bucketTokens: real, bucketLast: real, pass: bool)
    ensures Bucket(bucketTokens, bucketLast) == Metered(cap, Bucket(tokens, last), Arrival(now, len))
    ensures pass == Fits(cap, Bucket(tokens, last), Arrival(now, len))
  {
    bucketLast := now;
    bucketTokens := tokens + Earned(cap, now - last);
    if Burst(cap) <= bucketTokens {
      bucketTokens := Burst(cap);
    }
    pass := len as real <= bucketTokens;
    if pass {
      bucketTokens := bucketTokens - len as real;
    }
  }

  lemma {:induction false} BucketBounds(cap: nat, start: real, arrivals: seq<Arrival>, n: nat)
    requires Ordered(start, arrivals) && n <= |arrivals|
    ensures var b := BucketAfter(cap, start, arrivals, n);
            0.0 <= b.tokens && b.last == if n == 0 then start else arrivals[n - 1].at
  {
    if n > 0 {
      BucketBounds(cap, start, arrivals, n - 1);
      var b := BucketAfter(cap, start, arrivals, n - 1);
      EarnedAdds(cap, arrivals[n - 1].at - b.last, 0.0);
    }
  }

  /** A packet of more than half a second's worth never gets through, however long the link was idle, and any
      other does when nothing came for half a second. */
  lemma PassesAfterIdle(cap: nat, start: real, arrivals: seq<Arrival>, k: nat)
    requires Ordered(start, arrivals) && k < |arrivals|
    ensures Passes(cap, start, arrivals, k) ==> arrivals[k].len as real <= Burst(cap)
    ensures (k > 0 ==> arrivals[k].at >= arrivals[k - 1].at + 0.5) && arrivals[k].len as real <= Burst(cap) ==>
              Passes(cap, start, arrivals, k)
  {
    BucketBounds(cap, start, arrivals, k);
    if k == 0 {
      EarnedAdds(cap, arrivals[0].at - start, 0.0);
    } else if arrivals[k].at >= arrivals[k - 1].at + 0.5 {
      EarnedAdds(cap, arrivals[k].at - arrivals[k - 1].at - 0.5, 0.5);
    }
  }

  /** The bytes of packets `j` up to but not including `k` of those that got through. */
  function BytesThrough(arrivals: seq<Arrival>, passed: seq<bool>, j: nat, k: nat): nat
    requires j <= k <= |arrivals| && k <= |passed|
  {
    if j == k then 0 else BytesThrough(arrivals, passed, j, k - 1) + if passed[k - 1] then arrivals[k - 1].len else 0
  }

  /** The allowance since packet `j`, with what got through since taken off it. */
  function LeftSince(cap: nat, start: real, arrivals: seq<Arrival>, j: nat, k: nat): real
    requires j <= k < |arrivals|
  {
    Burst(cap) + Earned(cap, arrivals[k].at - arrivals[j].at) - PassedBytes(cap, start, arrivals, j, k) as real
  }

  function AvailableAt(cap: nat, start: real, arrivals: seq<Arrival>, k: nat): real
    requires k < |arrivals|
  {
    Available(cap, BucketAfter(cap, start, arrivals, k), arrivals[k].at)
  }

  /** What is available is the least of these allowances. */
  lemma {:induction false} AvailableIsLeast(cap: nat, start: real, arrivals: seq<Arrival>, k: nat) returns (least: nat)
    requires Ordered(start, arrivals) && k < |arrivals|
    ensures least <= k && AvailableAt(cap, start, arrivals, k) == LeftSince(cap, start, arrivals, least, k)
    ensures forall j :: 0 <= j <= k ==> AvailableAt(cap, start, arrivals, k) <= LeftSince(cap, start, arrivals, j, k)
  {
    if k == 0 {
      EarnedAdds(cap, arrivals[0].at - start, 0.0);
      EarnedAdds(cap, 0.0, 0.0);
      return 0;
    }
    least := AvailableIsLeast(cap, start, arrivals, k - 1);
    forall j | 0 <= j < k
      ensures LeftSince(cap, start, arrivals, j, k) == LeftSince(cap, start, arrivals, j, k - 1)
                + Earned(cap, arrivals[k].at - arrivals[k - 1].at) - Taken(cap, start, arrivals, k - 1)
    {
      EarnedBetween(cap, arrivals[j].at, arrivals[k - 1].at, arrivals[k].at);
    }
    BucketBounds(cap, start, arrivals, k);
    EarnedAdds(cap, 0.0, 0.0);
    if AvailableAt(cap, start, arrivals, k) == Burst(cap) {
      least := k;
    }
  }

  /** The cap: whatever arrives, from packet `j` to packet `k` at most half a second's worth plus the cap times
      the time between them gets through, although the bucket starts with a whole second's worth. */
  lemma CapHolds(cap: nat, start: real, arrivals: seq<Arrival>, j: nat, k: nat)
    requires Ordered(start, arrivals) && j <= k < |arrivals|
    ensures PassedBytes(cap, start, arrivals, j, k + 1) as real
            <= Burst(cap) + Earned(cap, arrivals[k].at - arrivals[j].at)
  {
    var least := AvailableIsLeast(cap, start, arrivals, k);
    NeverNegative(cap, start, arrivals, k);
    TakesWhatIsThere(cap, start, arrivals, j, k);
    assert AvailableAt(cap, start, arrivals, k) <= LeftSince(cap, start, arrivals, j, k);
  }

  lemma NeverNegative(cap: nat, start: real, arrivals: seq<Arrival>, k: nat)
    requires Ordered(start, arrivals) && k < |arrivals|
    ensures AvailableAt(cap, start, arrivals, k) >= 0.0
  {
    BucketBounds(cap, start, arrivals, k);
    EarnedAdds(cap, arrivals[k].at - BucketAfter(cap, start, arrivals, k).last, 0.0);
  }

  lemma TakesWhatIsThere(cap: nat, start: real, arrivals: seq<Arrival>, j: nat, k: nat)
    requires j <= k < |arrivals| && AvailableAt(cap, start, arrivals, k) >= 0.0
    ensures PassedBytes(cap, start, arrivals, j, k + 1) as real
            <= PassedBytes(cap, start, arrivals, j, k) as real + AvailableAt(cap, start, arrivals, k)
  {
  }

  function Taken(cap: nat, start: real, arrivals: seq<Arrival>, k: nat): real
    requires k < |arrivals|
  {
    if Passes(cap, start, arrivals, k) then arrivals[k].len as real else 0.0
  }

  lemma {:induction false} PassedAreThrough(cap: nat, start: real, arrivals: seq<Arrival>, passed: seq<bool>, j: nat, k: nat)
    requires |passed| == |arrivals| && forall i :: 0 <= i < |arrivals| ==> passed[i] == Passes(cap, start, arrivals, i)
    requires j <= k <= |arrivals|
    ensures PassedBytes(cap, start, arrivals, j, k) == BytesThrough(arrivals, passed, j, k)
  {
    if j < k {
      PassedAreThrough(cap, start, arrivals, passed, j, k - 1);
    }
  }

  /** The cap is also no tighter than that: a packet is dropped only if with it more than half a second's worth plus
      the cap times the time since some earlier packet, or itself, would have got through. */
  lemma PassesIff(cap: nat, start: real, arrivals: seq<Arrival>, passed: seq<bool>, k: nat)
    requires Ordered(start, arrivals) && k < |arrivals|
    requires |passed| == |arrivals| && forall i :: 0 <= i < |arrivals| ==> passed[i] == Passes(cap, start, arrivals, i)
    ensures passed[k] <==>
              forall j :: 0 <= j <= k ==>
                (BytesThrough(arrivals, passed, j, k) + arrivals[k].len) as real
                <= 0.5 * cap as real + (arrivals[k].at - arrivals[j].at) * cap as real
  {
    var least := AvailableIsLeast(cap, start, arrivals, k);
    forall j | 0 <= j <= k
      ensures LeftSince(cap, start, arrivals, j, k)
              == 0.5 * cap as real + (arrivals[k].at - arrivals[j].at) * cap as real
                 - BytesThrough(arrivals, passed, j, k) as real
    {
      PassedAreThrough(cap, start, arrivals, passed, j, k);
    }
  }
}
