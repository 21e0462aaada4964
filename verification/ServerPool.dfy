/** The pre-forked server pool. The parent keeps two counters beside a table of
    slots in shared memory; the children write their own state into their slots at
    any moment, also a killed child whose slot has a new owner. */
module ServerPool {
  const IDLE := 0
  const BUSY := 1
  const NOBODY := -1

  // ---------- counting slots ----------

  function Live(pids: seq<int>): (n: nat)
    ensures n <= |pids|
  {
    if pids == [] then 0 else Live(pids[..|pids| - 1]) + (if pids[|pids| - 1] == NOBODY then 0 else 1)
  }

  /** Live slots whose state is `state`. */
  function InState(pids: seq<int>, states: seq<int>, state: int): (n: nat)
    requires |pids| == |states|
    ensures n <= Live(pids)
  {
    if pids == [] then 0
    else
      var k := |pids| - 1;
      InState(pids[..k], states[..k], state) + (if pids[k] != NOBODY && states[k] == state then 1 else 0)
  }

  lemma {:induction false} LiveUpdate(pids: seq<int>, i: nat, v: int)
    requires i < |pids|
    ensures Live(pids[i := v]) == Live(pids) - (if pids[i] == NOBODY then 0 else 1) + (if v == NOBODY then 0 else 1)
  {
    var k := |pids| - 1;
    if i < k {
      LiveUpdate(pids[..k], i, v);
      assert pids[i := v][..k] == pids[..k][i := v];
    } else {
      assert pids[i := v][..k] == pids[..k];
    }
  }

  lemma {:induction false} InStateUpdate(pids: seq<int>, states: seq<int>, i: nat, v: int, s: int, state: int)
    requires i < |pids| == |states|
    ensures InState(pids[i := v], states[i := s], state) == InState(pids, states, state)
      - (if pids[i] != NOBODY && states[i] == state then 1 else 0) + (if v != NOBODY && s == state then 1 else 0)
  {
    var k := |pids| - 1;
    if i < k {
      InStateUpdate(pids[..k], states[..k], i, v, s, state);
      assert pids[i := v][..k] == pids[..k][i := v] && states[i := s][..k] == states[..k][i := s];
    } else {
      assert pids[i := v][..k] == pids[..k] && states[i := s][..k] == states[..k];
    }
  }

  lemma {:induction false} FullMeansNobodyMissing(pids: seq<int>)
    requires forall i :: 0 <= i < |pids| ==> pids[i] != NOBODY
    ensures Live(pids) == |pids|
  {
    if pids != [] { FullMeansNobodyMissing(pids[..|pids| - 1]); }
  }

  lemma {:induction false} NoneInState(pids: seq<int>, states: seq<int>, state: int)
    requires |pids| == |states| && forall i :: 0 <= i < |pids| ==> pids[i] == NOBODY || states[i] != state
    ensures InState(pids, states, state) == 0
  {
    if pids != [] { NoneInState(pids[..|pids| - 1], states[..|pids| - 1], state); }
  }

  function Half(n: nat): nat { n / 2 }

  /** What is left of an excess or a deficit after `k` halvings. */
  function Halved(n: nat, k: nat): nat {
    if k == 0 then n else Half(Halved(n, k - 1))
  }

  function Pow2(k: nat): nat {
    if k == 0 then 1 else 2 * Pow2(k - 1)
  }

  lemma {:induction false} HalveFirst(n: nat, k: nat)
    requires k > 0
    ensures Halved(n, k) == Halved(Half(n), k - 1)
  {
    if k > 1 { HalveFirst(n, k - 1); }
  }

  /** Logarithmically many halvings, and no fewer, bring any number to 0. */
  lemma {:induction false} HalvingsReachZero(n: nat, k: nat)
    ensures Halved(n, k) == 0 <==> n < Pow2(k)
  {
    if k > 0 {
      HalveFirst(n, k);
      HalvingsReachZero(Half(n), k - 1);
    }
  }

  // ---------- what a scan sees ----------

  predicate AreStates(seen: seq<int>) {
    forall i :: 0 <= i < |seen| ==> seen[i] == IDLE || seen[i] == BUSY
  }

  /** The table without the servers that are gone. */
  function Cleared(pids: seq<int>, alive: seq<bool>): (r: seq<int>)
    requires |pids| == |alive|
    ensures |r| == |pids|
  {
    seq(|pids|, i requires 0 <= i < |pids| => if alive[i] then pids[i] else NOBODY)
  }

  lemma ClearedSlots(pids: seq<int>, alive: seq<bool>)
    requires |pids| == |alive|
    ensures forall i :: 0 <= i < |pids| ==> Cleared(pids, alive)[i] == if alive[i] then pids[i] else NOBODY
  {
  }

  /** The lowest server that is seen idle, or -1. */
  function FirstIdle(pids: seq<int>, seen: seq<int>, from: nat): (slot: int)
    requires from <= |pids| == |seen|
    ensures slot == -1 <==> forall i :: from <= i < |pids| ==> pids[i] == NOBODY || seen[i] != IDLE
    ensures slot != -1 ==> from <= slot < |pids| && pids[slot] != NOBODY && seen[slot] == IDLE
    ensures slot != -1 ==> forall i :: from <= i < slot ==> pids[i] == NOBODY || seen[i] != IDLE
    decreases |pids| - from
  {
    if from == |pids| then -1
    else if pids[from] != NOBODY && seen[from] == IDLE then from
    else FirstIdle(pids, seen, from + 1)
  }

  /** What a scan meets: which servers exist, and the state of each slot at its first and at its second test. */
  datatype Round = Round(alive: seq<bool>, first: seq<int>, second: seq<int>)

  predicate RoundOk(r: Round, size: nat) {
    |r.alive| == |r.first| == |r.second| == size && AreStates(r.first) && AreStates(r.second)
  }

  /** Some server is neither idle at the first test nor busy at the second. */
  predicate Unknown(pids: seq<int>, r: Round)
    requires RoundOk(r, |pids|)
  {
    exists i :: 0 <= i < |pids| && pids[i] != NOBODY && r.alive[i] && r.first[i] != IDLE && r.second[i] != BUSY
  }

  /** The same state at both tests, as when the compiler loads it once. */
  predicate Snapshot(r: Round) {
    r.first == r.second
  }

  /** A snapshot never looks unknown. */
  lemma SnapshotIsKnown(pids: seq<int>, r: Round)
    requires RoundOk(r, |pids|) && Snapshot(r)
    ensures !Unknown(pids, r)
  {
  }

  /** What does is a server that turns from busy to idle between the two tests, and nothing else. */
  lemma UnknownIsBusyThenIdle(pids: seq<int>, r: Round)
    requires RoundOk(r, |pids|)
    ensures Unknown(pids, r) <==>
      exists i :: 0 <= i < |pids| && pids[i] != NOBODY && r.alive[i] && r.first[i] == BUSY && r.second[i] == IDLE
  {
  }

  /** A scan can come out either way exactly when some server is alive. */
  lemma CanLookUnknownIfSomeoneLives(pids: seq<int>, alive: seq<bool>)
    requires |pids| == |alive|
    ensures (exists r :: RoundOk(r, |pids|) && r.alive == alive && Unknown(pids, r))
            <==> exists i :: 0 <= i < |pids| && pids[i] != NOBODY && alive[i]
  {
    if i :| 0 <= i < |pids| && pids[i] != NOBODY && alive[i] {
      var r := Round(alive, seq(|pids|, _ => BUSY), seq(|pids|, _ => IDLE));
      assert RoundOk(r, |pids|) && r.first[i] == BUSY && r.second[i] == IDLE;
    }
  }

  /** The smallest such scan: one slot, whose child finishes with its client between the two tests. */
  lemma OneSlotLooksUnknown(pid: int)
    requires pid != NOBODY
    ensures Unknown([pid], Round([true], [BUSY], [IDLE]))
  {
    assert [pid][0] != NOBODY && [true][0] && [BUSY][0] != IDLE && [IDLE][0] != BUSY;
  }

  /** The pool as a round leaves it; `counted` is the number of idle servers its scan found. */
  datatype Pass = Pass(counted: int, idle: int, busy: int, pids: seq<int>)

  predicate CountersAgree(p: Pass) {
    p.idle + p.busy == Live(p.pids) && p.idle >= 0 && p.busy >= 0
  }

  /** What a round does to a slot that holds `pid`: a server that is gone leaves it, one that exists keeps it
      unless the pool shrinks, and an empty slot stays empty unless the pool grows. */
  predicate KeepsServers(pid: int, alive: bool, pid': int, shrinks: bool, grows: bool) {
    && (pid != NOBODY && alive ==> pid' == pid || (shrinks && pid' == NOBODY))
    && (pid == NOBODY || !alive ==> pid' == NOBODY || grows)
  }

  /** A round that starts from table `before`: it counts the servers that exist by the states it sees, ends with
      counters and slots in agreement, and overshoots neither limit. */
  predicate PassOk(before: seq<int>, r: Round, p: Pass, min: nat, max: nat)
    requires RoundOk(r, |before|)
  {
    && CountersAgree(p) && |p.pids| == |before|
    && (forall i :: 0 <= i < |before| ==>
          KeepsServers(before[i], r.alive[i], p.pids[i], p.counted > max, p.counted < min))
    && p.counted == InState(Cleared(before, r.alive), r.first, IDLE)
    && p.busy == Live(Cleared(before, r.alive)) - p.counted
    && (p.counted > max ==> max <= p.idle <= p.counted)
    && (min <= p.counted <= max ==> p.idle == p.counted && p.pids == Cleared(before, r.alive))
    && (p.counted < min ==>
          p.counted <= p.idle <= min && (min - p.idle == Half(min - p.counted) || p.idle + p.busy == |p.pids|))
  }

  predicate Started(p: Pass, size: nat, min: nat) {
    p.busy == 0 && p.idle == (if min <= size then min else size) && |p.pids| == size && CountersAgree(p)
  }

  predicate RoundsOk(rounds: seq<Round>, size: nat) {
    forall k :: 0 <= k < |rounds| ==> RoundOk(rounds[k], size)
  }

  /** `log` has the pool after its start and after each round so far, none of which saw an unknown state. */
  predicate LifeOk(log: seq<Pass>, rounds: seq<Round>, size: nat, min: nat, max: nat)
    requires RoundsOk(rounds, size)
  {
    && 1 <= |log| <= |rounds| + 1 && Started(log[0], size, min)
    && (forall k :: 0 <= k < |log| ==> |log[k].pids| == size && CountersAgree(log[k]))
    && (forall k :: 0 <= k < |log| - 1 ==>
          !Unknown(log[k].pids, rounds[k]) && PassOk(log[k].pids, rounds[k], log[k + 1], min, max))
  }

  lemma LifeGoesOn(log: seq<Pass>, rounds: seq<Round>, size: nat, min: nat, max: nat, p: Pass)
    requires RoundsOk(rounds, size) && LifeOk(log, rounds, size, min, max) && |log| <= |rounds| && |p.pids| == size
    requires var r := rounds[|log| - 1];
      !Unknown(log[|log| - 1].pids, r) && PassOk(log[|log| - 1].pids, r, p, min, max)
    ensures LifeOk(log + [p], rounds, size, min, max)
  {
  }

  /** What a scan has counted after the first `i` slots. */
  predicate Counted(pids: seq<int>, seen: seq<int>, i: nat, nIdle: int, nBusy: int)
    requires i <= |pids| == |seen|
  {
    nIdle == InState(pids[..i], seen[..i], IDLE) && 0 <= nBusy && nIdle + nBusy == Live(pids[..i])
  }

  lemma CountNext(pids: seq<int>, seen: seq<int>, i: nat, nIdle: int, nBusy: int)
    requires i < |pids| == |seen| && Counted(pids, seen, i, nIdle, nBusy)
    ensures if pids[i] == NOBODY then Counted(pids, seen, i + 1, nIdle, nBusy)
            else if seen[i] == IDLE then Counted(pids, seen, i + 1, nIdle + 1, nBusy)
            else Counted(pids, seen, i + 1, nIdle, nBusy + 1)
  {
    assert pids[..i + 1][..i] == pids[..i] && seen[..i + 1][..i] == seen[..i];
  }

  lemma CountedAll(pids: seq<int>, seen: seq<int>, nIdle: int, nBusy: int)
    requires |pids| == |seen| && Counted(pids, seen, |pids|, nIdle, nBusy)
    ensures nIdle == InState(pids, seen, IDLE) && 0 <= nBusy && nIdle + nBusy == Live(pids)
  {
    assert pids[..|pids|] == pids && seen[..|pids|] == seen;
  }

  /** No unknown state in the first `i` slots. */
  predicate KnownUpTo(pids: seq<int>, r: Round, i: nat)
    requires RoundOk(r, |pids|) && i <= |pids|
  {
    forall k :: 0 <= k < i && pids[k] != NOBODY && r.alive[k] ==> r.first[k] == IDLE || r.second[k] == BUSY
  }

  // ---------- the parent ----------

  class Pool {
    const min: nat
    const max: nat
    const pids: array<int>
    const states: array<int>
    var idle: int
    var busy: int

    ghost predicate Valid()
      reads this, pids, states
    {
      && pids != states && pids.Length == states.Length && min <= max
      && AreStates(states[..])
    }

    /** The counters and the slots say the same number of servers. */
    ghost predicate Agrees()
      reads this, pids
    {
      idle + busy == Live(pids[..]) && idle >= 0 && busy >= 0
    }

    /** The counters say how many servers are in which state: so it is after a quiet scan. */
    ghost predicate Exact()
      reads this, pids, states
      requires pids.Length == states.Length
    {
      idle == InState(pids[..], states[..], IDLE) && Agrees()
    }

    constructor (size: nat, min: nat, max: nat)
      requires min <= max
      ensures Valid() && Exact() && idle == busy == 0 && pids.Length == size && this.min == min && this.max == max
      ensures fresh(pids) && fresh(states)
    {
      this.min, this.max := min, max;
      pids := new int[size](_ => NOBODY);
      states := new int[size](_ => IDLE);
      idle, busy := 0, 0;
      new;
      NobodyIsLive(pids[..], states[..]);
    }

    static lemma {:induction false} NobodyIsLive(pids: seq<int>, states: seq<int>)
      requires |pids| == |states| && forall i :: 0 <= i < |pids| ==> pids[i] == NOBODY
      ensures Live(pids) == 0 && InState(pids, states, IDLE) == 0
    {
      if pids != [] { NobodyIsLive(pids[..|pids| - 1], states[..|pids| - 1]); }
    }

    /** What the children may do between two steps of the parent: set states, each to idle or busy. */
    method Children(quiet: bool)
      requires Valid()
      modifies states
      ensures Valid() && (quiet ==> states[..] == old(states[..]))
    {
      for i := 0 to states.Length
        invariant Valid() && (quiet ==> states[..] == old(states[..]))
      {
        if !quiet {
          if {
            case true => states[i] := IDLE;
            case true => states[i] := BUSY;
            case true => // left as it is
          }
        }
      }
    }

    /** The children up to the moment the parent looks at `slot`, which then holds `state`. */
    method ChildrenUntil(slot: nat, state: int, quiet: bool)
      requires Valid() && slot < states.Length && (state == IDLE || state == BUSY)
      requires quiet ==> state == states[slot]
      modifies states
      ensures Valid() && states[slot] == state && (quiet ==> states[..] == old(states[..]))
    {
      Children(quiet);
      states[slot] := state;
    }

    /** Forks one server into the lowest free slot, unless the pool is full. */
    method AddOneServer(child: int, quiet: bool) returns (ret: int)
      requires Valid() && Agrees() && child != NOBODY
      modifies this`idle, pids, states
      ensures Valid() && Agrees() && (quiet && old(Exact()) ==> Exact())
      ensures ret == -1 <==> old(idle + busy) == pids.Length
      ensures ret == -1 ==> idle == old(idle) && pids[..] == old(pids[..])
      ensures ret != -1 ==> ret == 0 && idle == old(idle) + 1
      ensures ret != -1 ==>
        exists slot :: (0 <= slot < pids.Length && old(pids[slot]) == NOBODY
                        && (forall i :: 0 <= i < slot ==> old(pids[i]) != NOBODY)
                        && pids[..] == old(pids[..])[slot := child])
    {
      if idle + busy >= pids.Length {
        return -1;
      }
      var slot := 0;
      while slot < pids.Length && pids[slot] != NOBODY
        invariant 0 <= slot <= pids.Length
        invariant forall i :: 0 <= i < slot ==> pids[i] != NOBODY
      {
        slot := slot + 1;
      }
      if slot == pids.Length {
        FullMeansNobodyMissing(pids[..]);
        assert false;
      }
      LiveUpdate(pids[..], slot, child);
      InStateUpdate(pids[..], states[..], slot, child, IDLE, IDLE);
      states[slot] := IDLE;
      Children(quiet);
      pids[slot] := child;
      idle := idle + 1;
      assert pids[..] == old(pids[..])[slot := child];
      assert quiet ==> states[..] == old(states[..])[slot := IDLE];
      return 0;
    }

    /** Kills the first server seen idle; `seen` is what it sees in each slot at the moment it looks. If it
        sees none, because they have all turned busy since they were counted, it kills nobody. */
    method DelOneServer(seen: seq<int>, quiet: bool) returns (ret: int)
      requires Valid() && Agrees() && |seen| == pids.Length && AreStates(seen) && (quiet ==> seen == states[..])
      modifies this`idle, pids, states
      ensures Valid() && Agrees() && (quiet && old(Exact()) ==> Exact())
      ensures ret == -1 <==> old(idle) == 0
      ensures var slot := if old(idle) == 0 then -1 else FirstIdle(old(pids[..]), seen, 0);
        if slot == -1 then idle == old(idle) && pids[..] == old(pids[..])
        else idle == old(idle) - 1 && pids[..] == old(pids[..])[slot := NOBODY]
      ensures quiet && old(Exact()) && old(idle) > 0 ==> idle == old(idle) - 1
    {
      if idle == 0 {
        return -1;
      }
      for slot := 0 to pids.Length
        invariant Valid() && pids[..] == old(pids[..]) && idle == old(idle) && (quiet ==> states[..] == old(states[..]))
        invariant FirstIdle(pids[..], seen, 0) == FirstIdle(pids[..], seen, slot)
      {
        ChildrenUntil(slot, seen[slot], quiet);
        if pids[slot] != NOBODY && states[slot] == IDLE {
          LiveUpdate(pids[..], slot, NOBODY);
          InStateUpdate(pids[..], states[..], slot, NOBODY, IDLE, IDLE);
          pids[slot] := NOBODY;
          idle := idle - 1;
          assert pids[..] == old(pids[..])[slot := NOBODY];
          assert states[..] == states[..][slot := IDLE];
          return 0;
        }
      }
      if quiet {
        NoneInState(pids[..], states[..], IDLE);
      }
      return 0;
    }

    /** One slot of the scan: a server that no longer exists leaves it, any other is seen in some state. */
    method ScanSlot(i: nat, r: Round, quiet: bool) returns (idleHere: bool, busyHere: bool)
      requires Valid() && i < pids.Length && RoundOk(r, pids.Length) && (quiet ==> r.first == r.second == states[..])
      modifies pids, states
      ensures Valid() && (quiet ==> states[..] == old(states[..]))
      ensures pids[..] == old(pids[..])[i := if r.alive[i] then old(pids[i]) else NOBODY]
      ensures idleHere <==> pids[i] != NOBODY && r.first[i] == IDLE
      ensures busyHere <==> pids[i] != NOBODY && r.first[i] != IDLE && r.second[i] == BUSY
    {
      if pids[i] != NOBODY && !r.alive[i] {
        pids[i] := NOBODY;
      }
      if pids[i] == NOBODY {
        return false, false;
      }
      ChildrenUntil(i, r.first[i], quiet);
      if states[i] == IDLE {
        return true, false;
      }
      ChildrenUntil(i, r.second[i], quiet);
      return false, states[i] == BUSY;
    }

    /** Recounts the pool: servers that no longer exist leave their slots, the others are counted by the states
        they are seen in. A state is tested twice, and the parent aborts exactly when a server is seen
        in no known state; otherwise counters and slots agree. */
    method ScanPool(r: Round, quiet: bool) returns (aborted: bool)
      requires Valid() && RoundOk(r, pids.Length) && (quiet ==> r.first == r.second == states[..])
      modifies this`idle, this`busy, pids, states
      ensures Valid() && (quiet ==> states[..] == old(states[..]))
      ensures aborted <==> Unknown(old(pids[..]), r)
      ensures aborted ==> idle == old(idle) && busy == old(busy)
      ensures !aborted ==> Agrees() && pids[..] == Cleared(old(pids[..]), r.alive)
      ensures !aborted ==> forall i :: 0 <= i < pids.Length ==>
        if r.alive[i] then pids[i] == old(pids[i]) else pids[i] == NOBODY
      ensures !aborted ==> idle == InState(pids[..], r.first, IDLE)
    {
      ghost var was, cleared := pids[..], Cleared(pids[..], r.alive);
      ClearedSlots(was, r.alive);
      var nIdle, nBusy := 0, 0;
      for i := 0 to pids.Length
        invariant Valid() && (quiet ==> states[..] == old(states[..]))
        invariant idle == old(idle) && busy == old(busy)
        invariant forall k :: 0 <= k < pids.Length ==> pids[k] == if k < i then cleared[k] else was[k]
        invariant KnownUpTo(was, r, i) && Counted(cleared, r.first, i, nIdle, nBusy)
      {
        CountNext(cleared, r.first, i, nIdle, nBusy);
        var idleHere, busyHere := ScanSlot(i, r, quiet);
        if idleHere {
          nIdle := nIdle + 1;
        } else if busyHere {
          nBusy := nBusy + 1;
        } else if pids[i] != NOBODY {
          return true;
        }
      }
      assert pids[..] == cleared;
      CountedAll(cleared, r.first, nIdle, nBusy);
      idle, busy := nIdle, nBusy;
      return false;
    }

    /** The scan of a snapshot, each state looked at once: it never aborts, whatever the children do between the
        slots, and always leaves counters and slots in agreement. */
    method ScanSnapshot(alive: seq<bool>, seen: seq<int>)
      requires Valid() && |alive| == |seen| == pids.Length && AreStates(seen)
      modifies this`idle, this`busy, pids, states
      ensures Valid() && Agrees() && pids[..] == Cleared(old(pids[..]), alive)
      ensures forall i :: 0 <= i < pids.Length ==> if alive[i] then pids[i] == old(pids[i]) else pids[i] == NOBODY
      ensures idle == InState(pids[..], seen, IDLE)
    {
      var r := Round(alive, seen, seen);
      SnapshotIsKnown(pids[..], r);
      var aborted := ScanPool(r, false);
    }

    ghost predicate Full()
      reads this, pids
    {
      idle + busy == pids.Length
    }

    /** What the parent will see as it looks at one slot after another. */
    method Glances(quiet: bool) returns (seen: seq<int>)
      requires Valid()
      ensures |seen| == pids.Length && AreStates(seen) && (quiet ==> seen == states[..])
    {
      seen := states[..];
      for i := 0 to |seen|
        invariant |seen| == pids.Length && AreStates(seen) && (quiet ==> seen == states[..])
      {
        if !quiet {
          if {
            case true => seen := seen[i := IDLE];
            case true => seen := seen[i := BUSY];
            case true => // left as it is
          }
        }
      }
    }

    /** Shrinks the pool. The loop's bound is the excess that remains, which the loop itself makes smaller. */
    method Shrink(quiet: bool)
      requires Valid() && Agrees() && idle > max
      modifies this`idle, pids, states
      ensures Valid() && Agrees() && max <= idle <= old(idle)
      ensures forall i :: 0 <= i < pids.Length ==> pids[i] == old(pids[i]) || pids[i] == NOBODY
      ensures quiet && old(Exact()) ==> Exact() && idle - max == Half(old(idle) - max)
    {
      var i := 0;
      while i < idle - max
        invariant Valid() && Agrees() && 0 <= i && max <= idle <= old(idle)
        invariant forall k :: 0 <= k < pids.Length ==> pids[k] == old(pids[k]) || pids[k] == NOBODY
        invariant quiet && old(Exact()) ==> Exact() && idle == old(idle) - i && 2 * i <= old(idle) - max + 1
        decreases idle - max - i
      {
        var seen := Glances(quiet);
        var ret := DelOneServer(seen, quiet);
        i := i + 1;
      }
    }

    /** Grows the pool, by the same kind of loop. */
    method Grow(firstChild: nat, quiet: bool)
      requires Valid() && Agrees() && idle < min
      modifies this`idle, pids, states
      ensures Valid() && Agrees() && old(idle) <= idle <= min
      ensures forall i :: 0 <= i < pids.Length && old(pids[i]) != NOBODY ==> pids[i] == old(pids[i])
      ensures (quiet && old(Exact()) ==> Exact()) && (min - idle == Half(min - old(idle)) || Full())
    {
      var i := 0;
      while i < min - idle
        invariant Valid() && Agrees() && 0 <= i && old(idle) <= idle <= min
        invariant forall k :: 0 <= k < pids.Length && old(pids[k]) != NOBODY ==> pids[k] == old(pids[k])
        invariant quiet && old(Exact()) ==> Exact()
        invariant (idle == old(idle) + i && 2 * i <= min - old(idle) + 1) || Full()
        decreases min - idle - i
      {
        var ret := AddOneServer(firstChild + i, quiet);
        i := i + 1;
      }
    }

    /** One round of the management loop; `counted` is the number of idle servers the scan found. It aborts
        exactly when its scan does, so never on a snapshot. */
    method ManagePass(r: Round, firstChild: nat, quiet: bool) returns (aborted: bool, counted: int)
      requires Valid() && RoundOk(r, pids.Length) && (quiet ==> r.first == r.second == states[..])
      modifies this`idle, this`busy, pids, states
      ensures Valid() && (aborted <==> Unknown(old(pids[..]), r)) && (Snapshot(r) ==> !aborted)
      ensures !aborted ==> Agrees() && PassOk(old(pids[..]), r, Pass(counted, idle, busy, pids[..]), min, max)
      ensures quiet ==> Exact() && (counted > max ==> idle - max == Half(counted - max))
      ensures quiet && old(Exact()) && (forall i :: 0 <= i < |r.alive| ==> r.alive[i]) ==>
        counted == old(idle) && busy == old(busy)
    {
      aborted := ScanPool(r, quiet);
      counted := idle;
      if aborted {
        return;
      }
      if quiet && forall i :: 0 <= i < |r.alive| ==> r.alive[i] {
        assert pids[..] == old(pids[..]);
      }
      if idle > max {
        Shrink(quiet);
      } else if idle < min {
        Grow(firstChild, quiet);
      }
    }

    /** The first servers: as many as the lower limit, if there is room. */
    method Start()
      requires Valid() && Agrees() && idle == busy == 0
      modifies this`idle, pids, states
      ensures Valid() && Agrees() && idle == if min <= pids.Length then min else pids.Length
    {
      for i := 0 to min
        invariant Valid() && Agrees() && idle == if i <= pids.Length then i else pids.Length
      {
        var ret := AddOneServer(i, false);
      }
    }

    /** The server's whole life, with the children free to change state at any point: `log` has the pool after
        the start and after every round. Each of these leaves counters and slots in agreement and keeps to
        the limits; and the life ends early exactly at the first round whose scan sees a server in
        no known state, so never if the rounds see snapshots. */
    method Serve(rounds: seq<Round>) returns (aborted: bool, log: seq<Pass>)
      requires Valid() && Agrees() && idle == busy == 0
      requires RoundsOk(rounds, pids.Length)
      modifies this`idle, this`busy, pids, states
      ensures Valid() && LifeOk(log, rounds, pids.Length, min, max) && (aborted <==> |log| <= |rounds|)
      ensures aborted ==> Unknown(log[|log| - 1].pids, rounds[|log| - 1])
      ensures (forall k :: 0 <= k < |rounds| ==> Snapshot(rounds[k])) ==> !aborted
      ensures !aborted ==> Agrees() && log[|rounds|].(counted := 0) == Pass(0, idle, busy, pids[..])
    {
      Start();
      log := [Pass(0, idle, busy, pids[..])];
      for k := 0 to |rounds|
        invariant Valid() && Agrees() && |log| == k + 1 && LifeOk(log, rounds, pids.Length, min, max)
        invariant log[k].(counted := 0) == Pass(0, idle, busy, pids[..])
      {
        var counted;
        aborted, counted := ManagePass(rounds[k], 0, false);
        if aborted {
          return;
        }
        LifeGoesOn(log, rounds, pids.Length, min, max, Pass(counted, idle, busy, pids[..]));
        log := log + [Pass(counted, idle, busy, pids[..])];
      }
      return false, log;
    }

    /** One quiet round in which every server exists. */
    method QuietRound(firstChild: nat)
      requires Valid() && Exact()
      modifies this`idle, this`busy, pids, states
      ensures Valid() && Exact()
      ensures old(idle) > max ==> idle - max == Half(old(idle) - max)
      ensures old(idle) < min ==> idle <= min && (min - idle == Half(min - old(idle)) || Full())
      ensures min <= old(idle) <= max ==> idle == old(idle)
      ensures busy == old(busy) && (old(idle) <= max ==> old(idle) <= idle)
    {
      var r := Round(seq(pids.Length, _ => true), states[..], states[..]);
      var aborted, counted := ManagePass(r, firstChild, true);
    }

    /** `k` quiet rounds halve an excess `k` times, and a deficit `k` times unless the pool fills up. */
    method Settle(k: nat, firstChild: nat)
      requires Valid() && Exact()
      modifies this`idle, this`busy, pids, states
      ensures Valid() && Exact()
      ensures old(idle) > max ==> idle - max == Halved(old(idle) - max, k)
      ensures old(idle) < min ==> idle <= min && (min - idle == Halved(min - old(idle), k) || Full())
      ensures min <= old(idle) <= max ==> idle == old(idle)
    {
      for j := 0 to k
        invariant Valid() && Exact()
        invariant old(idle) > max ==> idle - max == Halved(old(idle) - max, j)
        invariant old(idle) < min ==> idle <= min && (min - idle == Halved(min - old(idle), j) || Full())
        invariant min <= old(idle) <= max ==> idle == old(idle)
      {
        QuietRound(firstChild);
      }
    }

    /** Logarithmically many quiet rounds bring the number of idle servers between the limits, or fill the pool. */
    method SettlesInLogRounds(k: nat, firstChild: nat)
      requires Valid() && Exact() && idle < max + Pow2(k) && min < idle + Pow2(k)
      modifies this`idle, this`busy, pids, states
      ensures Valid() && Exact() && (min <= idle <= max || (idle <= max && Full()))
    {
      if idle > max { HalvingsReachZero(idle - max, k); }
      if idle < min { HalvingsReachZero(min - idle, k); }
      Settle(k, firstChild);
    }
  }
}
