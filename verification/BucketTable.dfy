/** The job table as the C code keeps it: an array of pointers, updated in place by
    loops that run with the table lock held. */
module BucketTable {
  import opened Tokens

  const EINVAL := 22

  /** What a fetch finds at its k-th look. */
  function Seen(token: int, wakes: seq<int>, k: nat): int
    requires k <= |wakes|
  {
    if k == 0 then token else wakes[k - 1]
  }

  class Bucket {
    const csp: int
    const burst: int
    var token: int
    var pos: int

    constructor (csp: int, burst: int)
      ensures this.csp == csp && this.burst == burst && token == 0
    {
      this.csp, this.burst, token := csp, burst, 0;
    }

    /** A fetch. `wakes[k]` is what other threads have made of the tokens when it wakes for the k-th time. A
        size that is not positive is refused; otherwise it goes on at the first look that finds tokens,
        `found`, and takes its share of them. It is still `waiting` if no look found any. */
    method FetchToken(size: int, wakes: seq<int>) returns (ret: int, waiting: bool, ghost looks: nat)
      modifies this`token
      ensures size <= 0 ==> ret == -EINVAL && !waiting && token == old(token)
      ensures size > 0 ==> looks <= |wakes| && forall k :: 0 <= k < looks ==> Seen(old(token), wakes, k) <= 0
      ensures waiting ==> size > 0 && looks == |wakes| && token == Seen(old(token), wakes, looks) <= 0
      ensures size > 0 && !waiting ==>
        Seen(old(token), wakes, looks) > 0 && token + ret == Seen(old(token), wakes, looks)
      ensures size > 0 && !waiting ==> 1 <= ret <= size && (ret == size || token == 0)
    {
      looks := 0;
      if size <= 0 {
        return -EINVAL, false, looks;
      }
      var k := 0;
      while token <= 0
        invariant k == looks <= |wakes| && token == Seen(old(token), wakes, k)
        invariant forall j :: 0 <= j < k ==> Seen(old(token), wakes, j) <= 0
        decreases |wakes| - k
      {
        if k == |wakes| {
          return 0, true, looks;
        }
        token := wakes[k];
        k := k + 1;
        looks := k;
      }
      ret := if token < size then token else size;
      token := token - ret;
      return ret, false, looks;
    }

    /** A return. A size that is not positive is refused; the cap loses what does not fit. */
    method ReturnToken(size: int) returns (ret: int)
      modifies this`token
      ensures size <= 0 ==> ret == -EINVAL && token == old(token)
      ensures size > 0 ==> ret == size && token <= burst
      ensures size > 0 ==> token == old(token) + size || (token == burst < old(token) + size)
    {
      if size <= 0 {
        return -EINVAL;
      }
      token := token + size;
      if token > burst {
        token := burst;
      }
      return size;
    }
  }

  /** Every entry carries its own index. */
  ghost predicate OwnIndex(job: array<Bucket?>)
    reads job, job[..]
  {
    forall i :: 0 <= i < job.Length && job[i] != null ==> job[i].pos == i
  }

  /** The buckets in the table, in slot order. */
  ghost function Live(s: seq<Bucket?>): (r: seq<Bucket>)
    ensures (forall b :: b in r ==> b in s) && (forall b :: b in s && b != null ==> b in r)
  {
    if s == [] then [] else Live(s[..|s| - 1]) + (var b := s[|s| - 1]; if b == null then [] else [b])
  }

  ghost predicate NoDuplicates<T>(s: seq<T>) {
    forall i, j :: 0 <= i < j < |s| ==> s[i] != s[j]
  }

  /** Entries that carry their own index are distinct, so listing them lists nothing twice. */
  lemma {:induction false} LiveDistinct(s: seq<Bucket?>)
    requires forall i, j :: 0 <= i < j < |s| && s[i] != null ==> s[i] != s[j]
    ensures NoDuplicates(Live(s))
  {
    if s != [] {
      LiveDistinct(s[..|s| - 1]);
      assert s[|s| - 1] != null ==> s[|s| - 1] !in s[..|s| - 1];
    }
  }

  /** The lowest empty slot, or -1. */
  method GetFreePos(job: array<Bucket?>) returns (pos: int)
    ensures pos == -1 <==> forall i :: 0 <= i < job.Length ==> job[i] != null
    ensures pos != -1 ==> 0 <= pos < job.Length && job[pos] == null && forall i :: 0 <= i < pos ==> job[i] != null
  {
    for i := 0 to job.Length
      invariant forall k :: 0 <= k < i ==> job[k] != null
    {
      if job[i] == null {
        return i;
      }
    }
    return -1;
  }

  /** One tick: every entry is credited once, nothing else changes. */
  method Sweep(job: array<Bucket?>)
    requires OwnIndex(job)
    modifies job[..]
    ensures OwnIndex(job)
    ensures forall i :: 0 <= i < job.Length && job[i] != null ==>
      job[i].token == Credit(old(job[i].token), job[i].csp, job[i].burst)
  {
    for i := 0 to job.Length
      invariant OwnIndex(job)
      invariant forall k :: 0 <= k < i && job[k] != null ==>
        job[k].token == Credit(old(job[k].token), job[k].csp, job[k].burst)
      invariant forall k :: i <= k < job.Length && job[k] != null ==> job[k].token == old(job[k].token)
    {
      if job[i] != null {
        job[i].token := job[i].token + job[i].csp;
        if job[i].token > job[i].burst {
          job[i].token := job[i].burst;
        }
      }
    }
  }

  /** Registration, under the table lock. */
  method Place(job: array<Bucket?>, b: Bucket) returns (ok: bool)
    requires OwnIndex(job) && b !in job[..]
    modifies job, b`pos
    ensures OwnIndex(job)
    ensures ok <==> null in old(job[..])
    ensures !ok ==> job[..] == old(job[..])
    ensures ok ==> 0 <= b.pos < job.Length && old(job[..])[b.pos] == null && job[..] == old(job[..])[b.pos := b]
    ensures ok ==> forall i :: 0 <= i < b.pos ==> old(job[..])[i] != null
  {
    var pos := GetFreePos(job);
    if pos == -1 {
      return false;
    }
    b.pos := pos;
    job[pos] := b;
    assert old(job[..])[pos] == null;
    return true;
  }

  /** The allocator's `free`, with a log of what it was given; a null pointer is nothing to free. */
  method Free(b: Bucket?, freed: seq<Bucket>) returns (freed': seq<Bucket>)
    ensures freed' == if b == null then freed else freed + [b]
  {
    freed' := freed;
    if b != null {
      freed' := freed' + [b];
    }
  }

  /** Destroy: empties the bucket's slot and frees the bucket. */
  method Destroy(job: array<Bucket?>, b: Bucket, freed: seq<Bucket>) returns (freed': seq<Bucket>)
    requires OwnIndex(job) && b in job[..]
    modifies job
    ensures OwnIndex(job) && freed' == freed + [b]
    ensures 0 <= b.pos < job.Length && old(job[..])[b.pos] == b && job[..] == old(job[..])[b.pos := null]
  {
    job[b.pos] := null;
    freed' := Free(b, freed);
  }

  /** Unload walks the table, destroys what it finds, and then frees the slot it
      stands on, which destroy has just emptied: so nothing is freed twice. */
  method Unload(job: array<Bucket?>) returns (freed: seq<Bucket>)
    requires OwnIndex(job)
    modifies job
    ensures forall i :: 0 <= i < job.Length ==> job[i] == null
    ensures freed == Live(old(job[..])) && NoDuplicates(freed)
  {
    freed := [];
    ghost var was := job[..];
    for i := 0 to job.Length
      invariant OwnIndex(job)
      invariant forall k :: 0 <= k < i ==> job[k] == null
      invariant forall k :: i <= k < job.Length ==> job[k] == was[k]
      invariant freed == Live(was[..i])
    {
      assert job[i] == was[i] && was[..i + 1][..i] == was[..i];
      if job[i] != null {
        freed := Destroy(job, job[i], freed);
      }
      freed := Free(job[i], freed);
    }
    assert was[..job.Length] == was;
    LiveDistinct(was);
  }
}
