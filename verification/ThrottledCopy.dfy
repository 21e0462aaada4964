/** The copy program that pays for every byte it reads with a token: fetch, read,
    return what was not read, write until all is written. `read` and `write` may be
    short or interrupted, and the ticker may credit the bucket before any of them. */
module ThrottledCopy {
  import opened Proto
  import opened Tokens
  import opened Writing

  /** What happens at one look at the bucket, one `read` or one `write`: the ticks that strike before it, and its
      result, EINTR or at most so many bytes. */
  datatype Call = Call(ticks: nat, result: int)

  predicate CallsOk(calls: seq<Call>) {
    forall k :: 0 <= k < |calls| ==> calls[k].result == EINTR || calls[k].result > 0
  }

  function Results(calls: seq<Call>): (r: seq<int>)
    ensures |r| == |calls| && forall k :: 0 <= k < |r| ==> r[k] == calls[k].result
  {
    seq(|calls|, k requires 0 <= k < |calls| => calls[k].result)
  }

  /** What the first `k` calls' ticks make of the tokens. */
  function TokenAfter(token: int, cps: nat, burst: nat, calls: seq<Call>, k: nat): int
    requires k <= |calls|
  {
    if k == 0 then token else Credits(TokenAfter(token, cps, burst, calls, k - 1), cps, burst, calls[k - 1].ticks)
  }

  class Copier {
    const input: seq<byte>
    const cps: nat
    const burst: nat
    const bufsize: nat

    /** What is still to happen in the run that is watched: it is cut when nothing is. */
    var calls: seq<Call>

    var token: int
    var ticks: nat
    var offset: nat
    var out: seq<byte>
    /** Read and not yet written. */
    var buffered: seq<byte>
    /** Fetched, and neither read nor returned. */
    var inHand: int

    ghost predicate Valid()
      reads this
    {
      && bufsize > 0 && offset <= |input| && out + buffered == input[..offset] && CallsOk(calls)
      && 0 <= token <= burst && 0 <= inHand
      && |out| + |buffered| + inHand + token <= cps * ticks
    }

    constructor (input: seq<byte>, cps: nat, burst: nat, bufsize: nat, calls: seq<Call>)
      requires bufsize > 0 && CallsOk(calls)
      ensures Valid() && this.input == input && this.cps == cps && this.burst == burst && this.bufsize == bufsize
      ensures inHand == token == ticks == offset == 0 && out == [] && buffered == [] && this.calls == calls
    {
      this.input, this.cps, this.burst, this.bufsize, this.calls := input, cps, burst, bufsize, calls;
      token, ticks, offset, inHand := 0, 0, 0, 0;
      out, buffered := [], [];
    }

    /** The ticker's thread, `n` times: token += cps, capped. */
    method Ticks(n: nat)
      requires Valid()
      modifies this`token, this`ticks
      ensures Valid() && ticks == old(ticks) + n && token == Credits(old(token), cps, burst, n)
    {
      for k := 0 to n
        invariant Valid() && ticks == old(ticks) + k && token == Credits(old(token), cps, burst, k)
      {
        OneMore(cps, ticks);
        token := token + cps;
        if token >= burst {
          token := burst;
        }
        ticks := ticks + 1;
      }
    }

    /** The next call comes, after its ticks. */
    method Next() returns (result: int)
      requires Valid() && calls != []
      modifies this`calls, this`token, this`ticks
      ensures Valid() && calls == old(calls)[1..] && result == old(calls)[0].result
      ensures token == Credits(old(token), cps, burst, old(calls)[0].ticks)
    {
      Ticks(calls[0].ticks);
      result := calls[0].result;
      calls := calls[1..];
    }

    /** Looks at the bucket again and again, and at the first of the `used` looks that finds tokens takes up to `n`.
        Returns -1 for a negative `n`, and is `cut` if no look finds any. */
    method FetchToken(n: int) returns (size: int, cut: bool, ghost used: nat)
      requires Valid() && inHand == 0
      modifies this`token, this`ticks, this`calls, this`inHand
      ensures Valid() && used <= |old(calls)| && calls == old(calls)[used..]
      ensures n < 0 ==> size == -1 && !cut && used == 0 && inHand == 0
      ensures n >= 0 ==> inHand == size && (used == 0 ==> cut)
      ensures forall k :: 0 < k < used ==> TokenAfter(old(token), cps, burst, old(calls), k) <= 0
      ensures cut ==> size == 0 && calls == [] && token == TokenAfter(old(token), cps, burst, old(calls), used)
      ensures cut && used > 0 ==> token <= 0
      ensures n >= 0 && !cut ==>
        var found := TokenAfter(old(token), cps, burst, old(calls), used);
        found > 0 && size == Min(found, n) && token == found - size
    {
      used := 0;
      if n < 0 {
        return -1, false, 0;
      }
      ghost var start := token;
      var found := false;
      while !found
        invariant Valid() && inHand == 0 && used <= |old(calls)| && calls == old(calls)[used..]
        invariant token == TokenAfter(start, cps, burst, old(calls), used)
        invariant forall k :: 0 < k < used ==> TokenAfter(start, cps, burst, old(calls), k) <= 0
        invariant if found then used > 0 && token > 0 else used > 0 ==> token <= 0
        decreases |calls| + if found then 0 else 1
      {
        if calls == [] {
          return 0, true, used;
        }
        var result := Next();
        used := used + 1;
        found := token > 0;
      }
      size := Min(token, n);
      token, inHand := token - size, size;
      return size, false, used;
    }

    /** Gives back tokens in hand. */
    method ReturnToken(n: int)
      requires Valid() && 0 <= n <= inHand
      modifies this`token, this`inHand
      ensures Valid() && inHand == old(inHand) - n && token == Refund(old(token), n, burst)
    {
      token := token + n;
      if token > burst {
        token := burst;
      }
      inHand := inHand - n;
    }

    /** The loop that reads up to `size` bytes, and again after each interruption; `cut` if it is still at that. */
    method ReadRetrying(size: nat) returns (len: int, cut: bool, ghost used: nat)
      requires Valid() && 0 < size == inHand && buffered == []
      modifies this`offset, this`buffered, this`inHand, this`calls, this`token, this`ticks
      ensures Valid() && used <= |old(calls)| && calls == old(calls)[used..]
      ensures forall k :: 0 <= k < used - (if cut then 0 else 1) ==> old(calls)[k].result == EINTR
      ensures cut ==> calls == [] && buffered == [] && offset == old(offset)
      ensures !cut ==> used > 0 && old(calls)[used - 1].result > 0
                       && len == Min(old(calls)[used - 1].result, Min(size, |input| - old(offset)))
      ensures !cut ==> |buffered| == len && offset == old(offset) + len && inHand == size - len
    {
      used := 0;
      while true
        invariant Valid() && buffered == [] && inHand == size && offset == old(offset)
        invariant used <= |old(calls)| && calls == old(calls)[used..]
        invariant forall k :: 0 <= k < used ==> old(calls)[k].result == EINTR
        decreases |calls|
      {
        if calls == [] {
          return 0, true, used;
        }
        var result := Next();
        used := used + 1;
        if result == EINTR {
          continue;
        }
        len := Min(result, Min(size, |input| - offset));
        assert input[..offset + len] == input[..offset] + input[offset..offset + len];
        buffered := input[offset..offset + len];
        offset, inHand := offset + len, inHand - len;
        return len, false, used;
      }
    }

    /** One `write` that takes `n` bytes. */
    method Write(n: nat)
      requires Valid() && n <= |buffered|
      modifies this`out, this`buffered
      ensures Valid() && buffered == old(buffered)[n..] && out == old(out) + old(buffered)[..n]
    {
      assert buffered == buffered[..n] + buffered[n..];
      assert out + buffered == (out + buffered[..n]) + buffered[n..];
      out, buffered := out + buffered[..n], buffered[n..];
    }

    /** The inner loop: writes until nothing is left, or the run is cut. */
    method WriteAll() returns (ghost used: nat)
      requires Valid()
      modifies this`out, this`buffered, this`calls, this`token, this`ticks
      ensures Valid() && used <= |old(calls)| && calls == old(calls)[used..]
      ensures |buffered| == |old(buffered)| - Written(|old(buffered)|, Results(old(calls))[..used])
      ensures buffered == [] || calls == []
      ensures used > 0 ==> Written(|old(buffered)|, Results(old(calls))[..used - 1]) < |old(buffered)|
    {
      ghost var len, results := |buffered|, Results(calls);
      used := 0;
      while buffered != []
        invariant Valid() && used <= |old(calls)| && calls == old(calls)[used..]
        invariant |buffered| == len - Written(len, results[..used])
        invariant used > 0 ==> Written(len, results[..used - 1]) < len
        decreases |calls|
      {
        if calls == [] {
          return;
        }
        WrittenNext(len, results, used);
        var res := Next();
        used := used + 1;
        if res == EINTR {
          continue;
        }
        Write(Min(res, |buffered|));
      }
    }

    /** The program: wherever the run is cut, what is written is a beginning of the input, and what is written,
        buffered and left in the bucket has been paid for by the ticks. If it ends by itself, the output
        is the input; if it does not, all that was to happen has happened. */
    method Copy() returns (done: bool)
      requires Valid() && inHand == 0 && out == [] && buffered == []
      modifies this
      ensures out <= input && |out| + |buffered| + token <= cps * ticks
      ensures done ==> out == input
      ensures !done ==> calls == []
    {
      while true
        invariant Valid() && inHand == 0 && buffered == []
        decreases |calls|
      {
        var size, cut, used := FetchToken(bufsize);
        if cut {
          return false;
        }
        var len;
        len, cut, used := ReadRetrying(size);
        if cut {
          return false;
        }
        if len == 0 {
          return true;
        }
        if size - len > 0 {
          ReturnToken(size - len);
        }
        used := WriteAll();
        if buffered != [] {
          return false;
        }
      }
    }
  }
}
