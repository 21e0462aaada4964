/** Threads at a lock and its condition variable, which the token buckets and the
    semaphore share. `Op` is what a thread came to do, `T` names the threads. */
module Monitors {
  import opened Tokens

  /** Where a thread is: after the lock, holding it before or after its update,
      or asleep on the condition. `Changed` still owes the broadcast. */
  datatype Stage<Op> = Want(op: Op) | Entered(op: Op) | Changed | Leaving | Asleep(op: Op)

  predicate Holding<Op>(g: Stage<Op>) {
    g.Entered? || g.Changed? || g.Leaving?
  }

  /** A thread inside can take its next step: it is not asleep, nor after a lock that is taken. */
  predicate CanMove<T, Op>(lock: Option<T>, stage: map<T, Stage<Op>>, t: T) {
    t in stage && !stage[t].Asleep? && (stage[t].Want? ==> lock.None?)
  }

  /** A broadcast sends every sleeper after the lock again. */
  function Roused<Op>(g: Stage<Op>): Stage<Op> {
    if g.Asleep? then Want(g.op) else g
  }

  function Broadcast<T, Op>(stage: map<T, Stage<Op>>): map<T, Stage<Op>> {
    map t | t in stage :: Roused(stage[t])
  }

  /** The lock's owner is the one thread inside the critical section. */
  predicate OneHolder<T(==), Op>(lock: Option<T>, stage: map<T, Stage<Op>>) {
    && (forall t :: t in stage && Holding(stage[t]) ==> lock == Some(t))
    && (lock.Some? ==> lock.value in stage && Holding(stage[lock.value]))
  }

  /** How many steps a thread is away from leaving, if it does not go to sleep. */
  function StageWork<Op>(g: Stage<Op>): nat {
    match g
    case Asleep(_) => 5
    case Want(_) => 4
    case Entered(_) => 3
    case Changed => 2
    case Leaving => 1
  }

  // ---------- what the threads inside still have to do, added up ----------

  function AmountAt<T, Op>(stage: map<T, Stage<Op>>, amount: Stage<Op> -> int, t: T): int {
    if t in stage then amount(stage[t]) else 0
  }

  ghost function Pick<T>(ts: set<T>): (t: T)
    requires ts != {}
    ensures t in ts
  {
    var t :| t in ts; t
  }

  /** The amounts of the threads of `ts`, which are those inside and maybe others. */
  ghost function Total<T, Op>(stage: map<T, Stage<Op>>, amount: Stage<Op> -> int, ts: set<T>): int {
    if ts == {} then 0
    else AmountAt(stage, amount, Pick(ts)) + Total(stage, amount, ts - {Pick(ts)})
  }

  lemma {:induction false} TotalTake<T, Op>(stage: map<T, Stage<Op>>, amount: Stage<Op> -> int, ts: set<T>, t: T)
    requires t in ts
    ensures Total(stage, amount, ts) == AmountAt(stage, amount, t) + Total(stage, amount, ts - {t})
    decreases ts
  {
    var u := Pick(ts);
    if u != t {
      TotalTake(stage, amount, ts - {u}, t);
      TotalTake(stage, amount, ts - {t}, u);
      assert ts - {u} - {t} == ts - {t} - {u};
    }
  }

  lemma {:induction false} TotalSame<T, Op>(
    a: map<T, Stage<Op>>, b: map<T, Stage<Op>>, amount: Stage<Op> -> int, ts: set<T>)
    requires forall t :: t in ts ==> AmountAt(a, amount, t) == AmountAt(b, amount, t)
    ensures Total(a, amount, ts) == Total(b, amount, ts)
    decreases ts
  {
    if ts != {} { TotalSame(a, b, amount, ts - {Pick(ts)}); }
  }

  /** If only `t` changes, the total changes by what `t` does. */
  lemma TotalChange<T, Op>(a: map<T, Stage<Op>>, b: map<T, Stage<Op>>, amount: Stage<Op> -> int, ts: set<T>, t: T)
    requires t in ts && forall u :: u in ts && u != t ==> AmountAt(a, amount, u) == AmountAt(b, amount, u)
    ensures Total(b, amount, ts) - Total(a, amount, ts) == AmountAt(b, amount, t) - AmountAt(a, amount, t)
  {
    TotalTake(a, amount, ts, t);
    TotalTake(b, amount, ts, t);
    TotalSame(a, b, amount, ts - {t});
  }

  lemma {:induction false} TotalOfNobody<T, Op>(amount: Stage<Op> -> int, ts: set<T>)
    ensures Total(map[], amount, ts) == 0
    decreases ts
  {
    if ts != {} { TotalOfNobody(amount, ts - {Pick(ts)}); }
  }
}
