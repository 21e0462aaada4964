/** The countdown timers: a table of slots, each with the seconds it has left, that
    a one-second tick counts down in place; and the proof that the table behaves
    like a multiset of absolute deadlines. */
module TimerTable {
  import opened Tokens

  /** Handlers are named by number. Callbacks set no timers. */
  datatype Timer = Timer(handler: int, sec: int)

  type Slot = Option<Timer>

  // ---------- one tick, slot by slot ----------

  function CountDown(t: Timer): Timer {
    t.(sec := if t.sec > 0 then t.sec - 1 else t.sec)
  }

  predicate Due(s: Slot) {
    s.Some? && CountDown(s.value).sec == 0
  }

  function SlotAfter(s: Slot): Slot {
    if s.None? || Due(s) then None else Some(CountDown(s.value))
  }

  function TableAfter(p: seq<Slot>): (r: seq<Slot>)
    ensures |r| == |p| && forall i :: 0 <= i < |p| ==> r[i] == SlotAfter(p[i])
  {
    seq(|p|, i requires 0 <= i < |p| => SlotAfter(p[i]))
  }

  /** The handlers one tick calls, in order. */
  function Fires(p: seq<Slot>): seq<int> {
    if p == [] then []
    else Fires(p[..|p| - 1]) + (if Due(p[|p| - 1]) then [p[|p| - 1].value.handler] else [])
  }

  /** The slots that are due, lowest first. */
  function DueSlots(p: seq<Slot>): (d: seq<nat>)
    ensures forall k :: 0 <= k < |d| ==> d[k] < |p| && Due(p[d[k]])
    ensures forall i :: 0 <= i < |p| && Due(p[i]) ==> i in d
    ensures forall j, k :: 0 <= j < k < |d| ==> d[j] < d[k]
  {
    if p == [] then []
    else DueSlots(p[..|p| - 1]) + (if Due(p[|p| - 1]) then [|p| - 1] else [])
  }

  /** Ties are broken by slot: the k-th call of a tick is the handler of the k-th due slot. */
  lemma {:induction false} FiresInSlotOrder(p: seq<Slot>, k: nat)
    ensures |Fires(p)| == |DueSlots(p)|
    ensures k < |DueSlots(p)| ==> Fires(p)[k] == p[DueSlots(p)[k]].value.handler
  {
    if p != [] { FiresInSlotOrder(p[..|p| - 1], k); }
  }

  function TableAfterTicks(p: seq<Slot>, n: nat): (r: seq<Slot>)
    ensures |r| == |p|
  {
    if n == 0 then p else TableAfter(TableAfterTicks(p, n - 1))
  }

  function FiresInTicks(p: seq<Slot>, n: nat): seq<int> {
    if n == 0 then [] else FiresInTicks(p, n - 1) + Fires(TableAfterTicks(p, n - 1))
  }

  /** However often the tick strikes, it never fills a free slot. */
  lemma {:induction false} FreeStaysFree(p: seq<Slot>, i: nat, n: nat, more: nat)
    requires i < |p| && TableAfterTicks(p, n)[i].None?
    ensures TableAfterTicks(p, n + more)[i].None?
    decreases more
  {
    if more > 0 { FreeStaysFree(p, i, n, more - 1); }
  }

  /** How many ticks strike up to the look at slot `i`, not included. */
  function Total(strikes: seq<nat>, i: nat): nat
    requires i <= |strikes|
  {
    if i == 0 then 0 else Total(strikes, i - 1) + strikes[i - 1]
  }

  /** At the moment it is looked at, slot `i` has a timer. */
  predicate FoundTaken(was: seq<Slot>, strikes: seq<nat>, i: nat)
    requires i < |was| == |strikes|
  {
    TableAfterTicks(was, Total(strikes, i + 1))[i].Some?
  }

  predicate AllTaken(was: seq<Slot>, strikes: seq<nat>, i: nat)
    requires i <= |was| == |strikes|
  {
    forall k :: 0 <= k < i ==> FoundTaken(was, strikes, k)
  }

  /** What is found taken was taken from the start: ticks only free slots. */
  lemma TakenFromTheStart(was: seq<Slot>, strikes: seq<nat>, i: nat)
    requires i <= |was| == |strikes| && AllTaken(was, strikes, i)
    ensures forall k :: 0 <= k < i ==> was[k].Some?
  {
    forall k | 0 <= k < i ensures was[k].Some? {
      assert FoundTaken(was, strikes, k);
      if was[k].None? { FreeStaysFree(was, k, 0, Total(strikes, k + 1)); }
    }
  }

  // ---------- the table in place ----------

  class Table {
    const pool: array<Slot>
    var fired: seq<int>

    constructor (size: nat)
      ensures fresh(pool) && pool.Length == size && fired == [] && forall i :: 0 <= i < size ==> pool[i].None?
    {
      pool := new Slot[size](_ => None);
      fired := [];
    }

    method DelTimer(i: nat)
      requires i < pool.Length
      modifies pool
      ensures pool[..] == old(pool[..])[i := None]
    {
      pool[i] := None;
    }

    /** The tick. */
    method CheckTimer()
      modifies this`fired, pool
      ensures pool[..] == TableAfter(old(pool[..])) && fired == old(fired) + Fires(old(pool[..]))
    {
      ghost var was := pool[..];
      for i := 0 to pool.Length
        invariant forall k :: 0 <= k < i ==> pool[k] == SlotAfter(was[k])
        invariant forall k :: i <= k < pool.Length ==> pool[k] == was[k]
        invariant fired == old(fired) + Fires(was[..i])
      {
        assert was[..i + 1][..i] == was[..i];
        if pool[i].Some? {
          if pool[i].value.sec > 0 {
            pool[i] := Some(pool[i].value.(sec := pool[i].value.sec - 1));
          }
          if pool[i].value.sec == 0 {
            fired := fired + [pool[i].value.handler];
            DelTimer(i);
          }
        }
      }
      assert was[..pool.Length] == was;
    }

    /** `n` ticks, and nothing else, have happened since the table was `was` and the log `log`. */
    ghost predicate OnlyTicks(was: seq<Slot>, log: seq<int>, n: nat)
      reads this, pool
    {
      pool[..] == TableAfterTicks(was, n) && fired == log + FiresInTicks(was, n)
    }

    /** The signal may strike any number of times between two steps of the program. */
    method Strikes(times: nat, ghost was: seq<Slot>, ghost log: seq<int>, ghost n: nat)
      requires OnlyTicks(was, log, n)
      modifies this`fired, pool
      ensures OnlyTicks(was, log, n + times)
    {
      for k := 0 to times
        invariant OnlyTicks(was, log, n + k)
      {
        CheckTimer();
      }
    }

    /** Looks for a free slot, with `strikes[i]` ticks striking just before it looks at slot `i`, and takes the
        first that it finds free; -1 when it finds none. */
    method FindPos(strikes: seq<nat>) returns (pos: int, ghost n: nat)
      requires |strikes| == pool.Length
      modifies this`fired, pool
      ensures OnlyTicks(old(pool[..]), old(fired), n)
      ensures pos == -1 ==> n == Total(strikes, pool.Length) && AllTaken(old(pool[..]), strikes, pool.Length)
      ensures pos != -1 ==> 0 <= pos < pool.Length && n == Total(strikes, pos + 1) && pool[pos].None?
      ensures pos != -1 ==> AllTaken(old(pool[..]), strikes, pos) && !FoundTaken(old(pool[..]), strikes, pos)
    {
      ghost var was := pool[..];
      n := 0;
      for i := 0 to pool.Length
        invariant n == Total(strikes, i) && OnlyTicks(was, old(fired), n) && AllTaken(was, strikes, i)
      {
        Strikes(strikes[i], was, old(fired), n);
        n := n + strikes[i];
        if pool[i].None? {
          return i, n;
        }
      }
      return -1, n;
    }

    /** Registers a timer, with `late` more ticks between the look that finds a free slot and the filling of it.
        The slot is still free then, so no live timer is overwritten: the table is what the ticks alone
        would have made of it, and the new timer. It fails only when it finds no slot free, and then none
        was free when it began. */
    method SetTimer(sec: int, handler: int, strikes: seq<nat>, late: nat)
      returns (ret: int, ghost pos: nat, ghost n: nat)
      requires |strikes| == pool.Length
      modifies this`fired, pool
      ensures ret == 0 || ret == -1
      ensures fired == old(fired) + FiresInTicks(old(pool[..]), n)
      ensures pos <= pool.Length && AllTaken(old(pool[..]), strikes, pos)
      ensures forall k :: 0 <= k < pos ==> old(pool[k]).Some?
      ensures ret == -1 ==> pos == pool.Length && n == Total(strikes, pos)
      ensures ret == -1 ==> pool[..] == TableAfterTicks(old(pool[..]), n)
      ensures ret == 0 ==> pos < pool.Length && !FoundTaken(old(pool[..]), strikes, pos)
      ensures ret == 0 ==> n == Total(strikes, pos + 1) + late
      ensures ret == 0 ==> TableAfterTicks(old(pool[..]), n)[pos].None?
                           && pool[..] == TableAfterTicks(old(pool[..]), n)[pos := Some(Timer(handler, sec))]
    {
      ghost var was := pool[..];
      var found;
      found, n := FindPos(strikes);
      pos := if found == -1 then pool.Length else found;
      TakenFromTheStart(was, strikes, pos);
      if found == -1 {
        return -1, pos, n;
      }
      FreeStaysFree(was, found, n, late);
      Strikes(late, was, old(fired), n);
      n := n + late;
      pool[found] := Some(Timer(handler, sec));
      return 0, pos, n;
    }
  }

  function Max(a: int, b: int): int { if a > b then a else b }

  /** The life of a slot: a timer set with s >= 0 is there, counting down, until tick max(1, s) frees its slot. */
  lemma {:induction false} SlotLife(p: seq<Slot>, i: nat, n: nat)
    requires i < |p| && p[i].Some? && p[i].value.sec >= 0
    ensures TableAfterTicks(p, n)[i] ==
      if n < Max(1, p[i].value.sec) then Some(p[i].value.(sec := p[i].value.sec - n)) else None
  {
    if n > 0 { SlotLife(p, i, n - 1); }
  }

  /** A timer set with s < 0 keeps its slot forever, and never fires. */
  lemma {:induction false} NegativeStays(p: seq<Slot>, i: nat, n: nat)
    requires i < |p| && p[i].Some? && p[i].value.sec < 0
    ensures TableAfterTicks(p, n)[i] == p[i] && i !in DueSlots(TableAfterTicks(p, n))
  {
    if n > 0 { NegativeStays(p, i, n - 1); }
  }

  // ---------- refinement of a multiset of deadlines ----------

  /** A deadline: a time and the handler to call then. */
  type Deadline = (int, int)

  /** The deadline of a timer set for `sec` seconds at time `now`. */
  function DeadlineOf(sec: int, handler: int, now: int): Deadline {
    (now + Max(1, sec), handler)
  }

  /** The slot stands for deadline `d`. A negative count stands for none. */
  predicate StandsFor(s: Slot, now: int, d: Deadline) {
    s.Some? && s.value.sec >= 0 && DeadlineOf(s.value.sec, s.value.handler, now) == d
  }

  /** How many times the table stands for deadline `d` at time `now`: the multiset of deadlines it represents. */
  function Pending(p: seq<Slot>, now: int, d: Deadline): nat {
    if p == [] then 0
    else Pending(p[..|p| - 1], now, d) + (if StandsFor(p[|p| - 1], now, d) then 1 else 0)
  }

  lemma {:induction false} PendingIsLater(p: seq<Slot>, now: int, d: Deadline)
    ensures d.0 <= now ==> Pending(p, now, d) == 0
  {
    if p != [] { PendingIsLater(p[..|p| - 1], now, d); }
  }

  /** A tick keeps what is pending, except the deadlines of its time. */
  lemma {:induction false} TickKeepsLater(p: seq<Slot>, now: int, d: Deadline)
    ensures Pending(TableAfter(p), now + 1, d) == if d.0 == now + 1 then 0 else Pending(p, now, d)
  {
    if p != [] {
      var init, p' := p[..|p| - 1], TableAfter(p);
      TickKeepsLater(init, now, d);
      assert p'[..|p'| - 1] == TableAfter(init);
    }
  }

  /** And those it calls, each as often as it is pending. */
  lemma {:induction false} TickCallsDue(p: seq<Slot>, now: int, d: Deadline)
    ensures multiset(Stamped(Fires(p), now + 1))[d] == if d.0 == now + 1 then Pending(p, now, d) else 0
  {
    if p != [] {
      var init, last := p[..|p| - 1], p[|p| - 1];
      TickCallsDue(init, now, d);
      if Due(last) {
        assert Stamped(Fires(p), now + 1) == Stamped(Fires(init), now + 1) + [(now + 1, last.value.handler)];
      } else {
        assert Fires(p) == Fires(init);
      }
    }
  }

  function Stamped(handlers: seq<int>, time: int): (r: seq<Deadline>)
    ensures |r| == |handlers| && forall k :: 0 <= k < |r| ==> r[k] == (time, handlers[k])
  {
    seq(|handlers|, k requires 0 <= k < |handlers| => (time, handlers[k]))
  }

  lemma {:induction false} SetAdds(p: seq<Slot>, i: nat, t: Timer, now: int, d: Deadline)
    requires i < |p| && p[i].None?
    ensures Pending(p[i := Some(t)], now, d) == Pending(p, now, d) + (if StandsFor(Some(t), now, d) then 1 else 0)
  {
    var n := |p| - 1;
    if i < n {
      SetAdds(p[..n], i, t, now, d);
      assert p[i := Some(t)][..n] == p[..n][i := Some(t)];
    } else {
      assert p[i := Some(t)][..n] == p[..n];
    }
  }

  /** A program's life: it sets timers, in any free slot, and ticks strike. */
  datatype Event = Tick | Set(slot: nat, sec: int, handler: int)

  /** `log` is what has been called and when, `asked` the deadlines of all timers set with s >= 0. */
  datatype Life = Life(pool: seq<Slot>, now: int, log: seq<Deadline>, asked: multiset<Deadline>)

  predicate Possible(s: Life, e: Event) {
    e.Tick? || (e.slot < |s.pool| && s.pool[e.slot].None?)
  }

  function Live(s: Life, e: Event): Life
    requires Possible(s, e)
  {
    match e
    case Tick => s.(pool := TableAfter(s.pool), now := s.now + 1, log := s.log + Stamped(Fires(s.pool), s.now + 1))
    case Set(slot, sec, h) =>
      s.(pool := s.pool[slot := Some(Timer(h, sec))],
         asked := if sec >= 0 then s.asked + multiset{DeadlineOf(sec, h, s.now)} else s.asked)
  }

  predicate Born(s: Life) {
    s.log == [] && s.asked == multiset{} && forall i :: 0 <= i < |s.pool| ==> s.pool[i].None?
  }

  predicate Feasible(s: Life, es: seq<Event>)
    decreases |es|
  {
    es == [] || (Possible(s, es[0]) && Feasible(Live(s, es[0]), es[1..]))
  }

  function After(s: Life, es: seq<Event>): Life
    requires Feasible(s, es)
    decreases |es|
  {
    if es == [] then s else After(Live(s, es[0]), es[1..])
  }

  predicate Accounted(s: Life, d: Deadline) {
    s.asked[d] == multiset(s.log)[d] + Pending(s.pool, s.now, d)
  }

  /** What was asked for has been called or is pending, and what has been called was due by now. */
  ghost predicate Faithful(s: Life) {
    && (forall d :: Accounted(s, d))
    && (forall k :: 0 <= k < |s.log| ==> s.log[k].0 <= s.now)
  }

  lemma TickAccounts(s: Life, d: Deadline)
    requires Accounted(s, d)
    ensures Accounted(Live(s, Tick), d)
  {
    TickKeepsLater(s.pool, s.now, d);
    TickCallsDue(s.pool, s.now, d);
  }

  lemma SetAccounts(s: Life, e: Event, d: Deadline)
    requires Accounted(s, d) && e.Set? && Possible(s, e)
    ensures Accounted(Live(s, e), d)
  {
    SetAdds(s.pool, e.slot, Timer(e.handler, e.sec), s.now, d);
  }

  lemma EventKeepsFaithful(s: Life, e: Event)
    requires Faithful(s) && Possible(s, e)
    ensures Faithful(Live(s, e))
  {
    forall d ensures Accounted(Live(s, e), d) {
      assert Accounted(s, d);
      if e.Tick? { TickAccounts(s, d); } else { SetAccounts(s, e, d); }
    }
  }

  lemma {:induction false} LifeKeepsFaithful(s: Life, es: seq<Event>)
    requires Faithful(s) && Feasible(s, es)
    ensures Faithful(After(s, es))
    decreases |es|
  {
    if es != [] {
      EventKeepsFaithful(s, es[0]);
      LifeKeepsFaithful(Live(s, es[0]), es[1..]);
    }
  }

  lemma {:induction false} NothingPending(p: seq<Slot>, now: int, d: Deadline)
    requires forall i :: 0 <= i < |p| ==> p[i].None?
    ensures Pending(p, now, d) == 0
  {
    if p != [] { NothingPending(p[..|p| - 1], now, d); }
  }

  lemma BornFaithful(s: Life)
    requires Born(s)
    ensures Faithful(s)
  {
    forall d ensures Accounted(s, d) { NothingPending(s.pool, s.now, d); }
  }

  /** At every moment of every life, what has been called is exactly what was asked for by now: every timer
      set at time t with s >= 0 seconds is called once, at time t + max(1, s), and nothing else is called. */
  lemma CalledExactlyWhenDue(s: Life, es: seq<Event>, d: Deadline)
    requires Born(s) && Feasible(s, es)
    ensures var e := After(s, es); multiset(e.log)[d] == if d.0 <= e.now then e.asked[d] else 0
  {
    BornFaithful(s);
    LifeKeepsFaithful(s, es);
    FaithfulCallsDue(After(s, es), d);
  }

  lemma FaithfulCallsDue(e: Life, d: Deadline)
    requires Faithful(e)
    ensures multiset(e.log)[d] == if d.0 <= e.now then e.asked[d] else 0
  {
    assert Accounted(e, d);
    PendingIsLater(e.pool, e.now, d);
    if d.0 > e.now {
      assert forall k :: 0 <= k < |e.log| ==> e.log[k] != d;
    }
  }

  // ---------- the table in place lives such a life ----------

  function Handlers(log: seq<Deadline>): seq<int> {
    seq(|log|, k requires 0 <= k < |log| => log[k].1)
  }

  function Ticks(n: nat): seq<Event> {
    seq(n, _ => Tick)
  }

  lemma {:induction false} OneMoreEvent(s: Life, es: seq<Event>, e: Event)
    requires Feasible(s, es) && Possible(After(s, es), e)
    ensures Feasible(s, es + [e]) && After(s, es + [e]) == Live(After(s, es), e)
    decreases |es|
  {
    if es == [] {
      assert [e][1..] == [];
    } else {
      assert (es + [e])[1..] == es[1..] + [e];
      OneMoreEvent(Live(s, es[0]), es[1..], e);
    }
  }

  lemma TickCalls(s: Life)
    ensures Handlers(Live(s, Tick).log) == Handlers(s.log) + Fires(s.pool)
  {
  }

  lemma {:induction false} TicksLive(s: Life, n: nat)
    ensures Feasible(s, Ticks(n)) && After(s, Ticks(n)).pool == TableAfterTicks(s.pool, n)
    ensures Handlers(After(s, Ticks(n)).log) == Handlers(s.log) + FiresInTicks(s.pool, n)
  {
    if n > 0 {
      TicksLive(s, n - 1);
      assert Ticks(n) == Ticks(n - 1) + [Tick];
      OneMoreEvent(s, Ticks(n - 1), Tick);
      TickCalls(After(s, Ticks(n - 1)));
    }
  }

  /** The table and what it has called are those of `s`. */
  ghost predicate Lives(table: Table, s: Life)
    reads table, table.pool
  {
    table.pool[..] == s.pool && table.fired == Handlers(s.log)
  }

  /** A tick of the table is a tick of its life. */
  method TickLives(table: Table, ghost s: Life)
    requires Lives(table, s)
    modifies table`fired, table.pool
    ensures Lives(table, Live(s, Tick))
  {
    TickCalls(s);
    table.CheckTimer();
  }

  /** And setting a timer is some ticks, and then the setting, if it succeeds. */
  method SetTimerLives(table: Table, ghost s: Life, sec: int, handler: int, strikes: seq<nat>, late: nat)
    returns (ret: int, ghost pos: nat, ghost n: nat)
    requires Lives(table, s) && |strikes| == table.pool.Length
    modifies table`fired, table.pool
    ensures ret == 0 || ret == -1
    ensures ret == -1 ==> forall k :: 0 <= k < |s.pool| ==> s.pool[k].Some?
    ensures var es := Ticks(n) + if ret == 0 then [Set(pos, sec, handler)] else [];
      Feasible(s, es) && Lives(table, After(s, es))
  {
    ret, pos, n := table.SetTimer(sec, handler, strikes, late);
    TicksLive(s, n);
    if ret == 0 {
      OneMoreEvent(s, Ticks(n), Set(pos, sec, handler));
    } else {
      assert Ticks(n) + [] == Ticks(n);
    }
  }
}
