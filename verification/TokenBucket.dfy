/** What the two token buckets share: tokens with the time of the last refill, and what a rate earns. */
module TokenBucket {
  datatype Bucket = Bucket(tokens: real, last: real)

  /** What the rate, in bytes a second, earns in this time. */
  function Earned(rate: nat, seconds: real): real { seconds * rate as real }

  lemma EarnedAdds(rate: nat, a: real, b: real)
    ensures Earned(rate, a + b) == Earned(rate, a) + Earned(rate, b)
    ensures a >= 0.0 ==> Earned(rate, a) >= 0.0
  {
  }

  lemma EarnedBetween(rate: nat, a: real, b: real, c: real)
    ensures Earned(rate, b - a) + Earned(rate, c - b) == Earned(rate, c - a)
  {
    EarnedAdds(rate, b - a, c - b);
    assert (b - a) + (c - b) == c - a;
  }
}
