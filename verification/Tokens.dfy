/** What a bucket's critical sections do to its token count. Every module that
    meters bytes through a bucket uses these three functions. */
module Tokens {
  datatype Option<+T> = None | Some(value: T)

  function Min(a: int, b: int): (m: int)
    ensures m <= a && m <= b && (m == a || m == b)
  {
    if a < b then a else b
  }

  /** A tick adds `cps` and caps the result at `burst`. */
  function Credit(token: int, cps: int, burst: int): int {
    Min(token + cps, burst)
  }

  /** `n` ticks in a row. */
  function Credits(token: int, cps: int, burst: int, n: nat): int {
    if n == 0 then token else Credit(Credits(token, cps, burst, n - 1), cps, burst)
  }

  /** What a fetch of `size` gets from a bucket that holds `token`. */
  function Share(token: int, size: int): int {
    Min(token, size)
  }

  /** A return adds `size` and caps the result at `burst`. */
  function Refund(token: int, size: int, burst: int): int {
    Min(token + size, burst)
  }

  lemma OneMore(rate: int, ticks: nat)
    ensures rate * (ticks + 1) == rate * ticks + rate
  {
  }

  /** `n` ticks bring a bucket that is in range up by `n` rates, and to its cap at most. */
  lemma {:induction false} CreditsAddUp(token: int, cps: nat, burst: int, n: nat)
    requires token <= burst
    ensures Credits(token, cps, burst, n) == Min(token + cps * n, burst)
  {
    if n > 0 {
      CreditsAddUp(token, cps, burst, n - 1);
      OneMore(cps, n - 1);
    }
  }
}
