/** The trial division that the prime programs share. */
module Primes {
  predicate Prime(n: int) {
    n >= 2 && forall d :: 2 <= d < n ==> n % d != 0
  }

  /** What the loop claims of `n`: no divisor from 2 up to, but not including, n / 2. */
  predicate Claimed(n: int) {
    forall d :: 2 <= d < n / 2 ==> n % d != 0
  }

  /** The loop. */
  method TrialDivision(n: int) returns (isPrime: bool)
    ensures isPrime == Claimed(n)
  {
    var i := 2;
    while i < n / 2
      invariant 2 <= i && (n / 2 >= 2 ==> i <= n / 2)
      invariant forall d :: 2 <= d < i ==> n % d != 0
    {
      if n % i == 0 {
        return false;
      }
      i := i + 1;
    }
    return true;
  }

  lemma Multiples(d: int, q: int)
    requires d >= 0
    ensures (q <= 1 ==> d * q <= d) && (q >= 3 ==> d * q >= d * 3)
  {
  }

  /** A divisor that is at least half of `n`, and is not `n`, is half of it. */
  lemma BigDivisorIsHalf(n: int, d: int)
    requires n >= 5 && n / 2 <= d < n && n % d == 0
    ensures n % 2 == 0
  {
    var q := n / d;
    assert n == d * q;
    Multiples(d, q);
    assert q == 2;
  }

  lemma ClaimedFromFiveOn(n: int)
    requires n >= 5
    ensures Claimed(n) <==> Prime(n)
  {
    if !Prime(n) {
      var d :| 2 <= d < n && n % d == 0;
      if d >= n / 2 {
        BigDivisorIsHalf(n, d);
        assert n / 2 > 2;
      }
    }
  }

  /** The claim is right for exactly 2, 3 and everything from 5 on: below 2, and for 4, the loop body never runs. */
  lemma ClaimIsRightExactly(n: int)
    ensures (Claimed(n) <==> Prime(n)) <==> (n >= 2 && n != 4)
  {
    if n >= 5 { ClaimedFromFiveOn(n); }
    else if n == 4 { assert n % 2 == 0; }
  }
}
