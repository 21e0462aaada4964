/** What a loop writes that calls `write` until everything is written. */
module Writing {
  import opened Tokens

  /** A result of `read` or `write` that is no count: interrupted. */
  const EINTR := -2

  /** How many of `len` bytes these results of `write` write, none of them an error or 0. */
  function Written(len: nat, results: seq<int>): (n: nat)
    ensures n <= len
  {
    if results == [] then 0
    else
      var last := results[|results| - 1];
      var before := Written(len, results[..|results| - 1]);
      if last <= 0 then before else before + Min(last, len - before)
  }

  lemma WrittenNext(len: nat, results: seq<int>, k: nat)
    requires k < |results|
    ensures var before := Written(len, results[..k]);
      Written(len, results[..k + 1]) == if results[k] <= 0 then before else before + Min(results[k], len - before)
  {
    assert results[..k + 1][..k] == results[..k];
  }
}
