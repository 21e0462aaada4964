/** The weighted semaphore: a count under a lock and a condition variable, for any
    number of threads of any kind `T`. */
module Semaphore {
  import opened Monitors
  import opened Tokens

  datatype Op = Sub(n: int) | Ret(n: int)

  datatype Sem<T(==)> = Sem(srcval: int, lock: Option<T>, stage: map<T, Stage<Op>>)

  predicate Ready<T>(s: Sem<T>, t: T) {
    CanMove(s.lock, s.stage, t)
  }

  function Begin<T>(s: Sem<T>, t: T, op: Op): Sem<T> {
    s.(stage := s.stage[t := Want(op)])
  }

  function Run<T>(s: Sem<T>, t: T): Sem<T>
    requires Ready(s, t)
  {
    match s.stage[t]
    case Want(op) => s.(lock := Some(t), stage := s.stage[t := Entered(op)])
    case Entered(Ret(n)) => s.(srcval := s.srcval + n, stage := s.stage[t := Changed])
    case Entered(Sub(n)) =>
      if s.srcval < n then s.(lock := None, stage := s.stage[t := Asleep(Sub(n))])
      else s.(srcval := s.srcval - n, stage := s.stage[t := Leaving])
    case Changed => s.(stage := Broadcast(s.stage)[t := Leaving])
    case Leaving => s.(lock := None, stage := s.stage - {t})
  }

  function Spurious<T>(s: Sem<T>, t: T): Sem<T>
    requires t in s.stage && s.stage[t].Asleep?
  {
    s.(stage := s.stage[t := Roused(s.stage[t])])
  }

  /** What the step of `t` acquires, and what it gives back. */
  function Acquired<T>(s: Sem<T>, t: T): int {
    if t in s.stage && s.stage[t].Entered? && s.stage[t].op.Sub? && s.srcval >= s.stage[t].op.n
    then s.stage[t].op.n
    else 0
  }

  function Released<T>(s: Sem<T>, t: T): int {
    if t in s.stage && s.stage[t].Entered? && s.stage[t].op.Ret? then s.stage[t].op.n else 0
  }

  // ---------- invariants ----------

  predicate AmountsOk<T>(s: Sem<T>) {
    forall t :: t in s.stage ==>
      match s.stage[t]
      case Want(op) => op.n >= 0
      case Entered(op) => op.n >= 0
      case _ => true
  }

  /** Whoever sleeps asked for more than there is, or is about to be woken. */
  predicate SleepersLack<T>(s: Sem<T>) {
    forall t :: t in s.stage && s.stage[t].Asleep? ==>
      s.stage[t].op.Sub? && s.stage[t].op.n >= 0
      && (s.stage[t].op.n > s.srcval || (s.lock.Some? && s.lock.value in s.stage && s.stage[s.lock.value].Changed?))
  }

  predicate Valid<T>(s: Sem<T>) {
    s.srcval >= 0 && OneHolder(s.lock, s.stage) && AmountsOk(s) && SleepersLack(s)
  }

  lemma RunKeepsValid<T>(s: Sem<T>, t: T)
    requires Valid(s) && Ready(s, t)
    ensures Valid(Run(s, t))
    ensures Run(s, t).srcval + Acquired(s, t) == s.srcval + Released(s, t)
  {
  }

  lemma BeginKeepsValid<T>(s: Sem<T>, t: T, op: Op)
    requires Valid(s) && t !in s.stage && op.n >= 0
    ensures Valid(Begin(s, t, op))
  {
  }

  lemma SpuriousKeepsValid<T>(s: Sem<T>, t: T)
    requires Valid(s) && t in s.stage && s.stage[t].Asleep?
    ensures Valid(Spurious(s, t))
  {
  }

  /** A spurious wakeup ends a sleep, and its thread asks again for what it asked for. */
  lemma WakeupWakes<T>(s: Sem<T>, t: T)
    requires t in s.stage && s.stage[t].Asleep?
    ensures Spurious(s, t).stage == s.stage[t := Want(s.stage[t].op)] && Spurious(s, t).srcval == s.srcval
  {
  }

  // ---------- runs ----------

  datatype Move<T> = Begins(t: T, op: Op) | Goes(t: T) | Wakes(t: T)

  /** Callers ask for and return amounts that are not negative; anybody may return any amount. */
  predicate Enabled<T>(s: Sem<T>, m: Move<T>) {
    match m
    case Begins(t, op) => t !in s.stage && op.n >= 0
    case Goes(t) => Ready(s, t)
    case Wakes(t) => t in s.stage && s.stage[t].Asleep?
  }

  function Apply<T>(s: Sem<T>, m: Move<T>): Sem<T>
    requires Enabled(s, m)
  {
    match m
    case Begins(t, op) => Begin(s, t, op)
    case Goes(t) => Run(s, t)
    case Wakes(t) => Spurious(s, t)
  }

  predicate Feasible<T>(s: Sem<T>, moves: seq<Move<T>>)
    decreases |moves|
  {
    moves == [] || (Enabled(s, moves[0]) && Feasible(Apply(s, moves[0]), moves[1..]))
  }

  function After<T>(s: Sem<T>, moves: seq<Move<T>>): Sem<T>
    requires Feasible(s, moves)
    decreases |moves|
  {
    if moves == [] then s else After(Apply(s, moves[0]), moves[1..])
  }

  /** Acquired and not yet given back, over a run. */
  function Outstanding<T>(s: Sem<T>, moves: seq<Move<T>>): int
    requires Feasible(s, moves)
    decreases |moves|
  {
    if moves == [] then 0
    else (if moves[0].Goes? then Acquired(s, moves[0].t) - Released(s, moves[0].t) else 0)
         + Outstanding(Apply(s, moves[0]), moves[1..])
  }

  lemma {:induction false} RunConserves<T>(s: Sem<T>, moves: seq<Move<T>>)
    requires Valid(s) && Feasible(s, moves)
    ensures Valid(After(s, moves)) && After(s, moves).srcval + Outstanding(s, moves) == s.srcval
    decreases |moves|
  {
    if moves != [] {
      match moves[0] {
        case Begins(t, op) => BeginKeepsValid(s, t, op);
        case Goes(t) => RunKeepsValid(s, t);
        case Wakes(t) => SpuriousKeepsValid(s, t);
      }
      RunConserves(Apply(s, moves[0]), moves[1..]);
    }
  }

  // ---------- in terms of the calls ----------

  /** What a thread inside still changes the count by. */
  function Owes(g: Stage<Op>): int {
    match g
    case Want(Ret(n)) => n
    case Entered(Ret(n)) => n
    case Want(Sub(n)) => -n
    case Entered(Sub(n)) => -n
    case Asleep(Sub(n)) => -n
    case _ => 0
  }

  /** What a call is to change the count by. */
  function Called<T>(m: Move<T>): int {
    if m.Begins? then (if m.op.Ret? then m.op.n else -m.op.n) else 0
  }

  function AllCalled<T>(moves: seq<Move<T>>): int {
    if moves == [] then 0 else Called(moves[0]) + AllCalled(moves[1..])
  }

  lemma MovePays<T>(s: Sem<T>, m: Move<T>, u: T)
    requires Valid(s) && Enabled(s, m)
    ensures Apply(s, m).srcval + AmountAt(Apply(s, m).stage, Owes, m.t)
         == s.srcval + AmountAt(s.stage, Owes, m.t) + Called(m)
    ensures u != m.t ==> AmountAt(Apply(s, m).stage, Owes, u) == AmountAt(s.stage, Owes, u)
  {
  }

  lemma MoveKeepsValid<T>(s: Sem<T>, m: Move<T>)
    requires Valid(s) && Enabled(s, m)
    ensures Valid(Apply(s, m))
  {
    match m
    case Begins(t, op) => BeginKeepsValid(s, t, op);
    case Goes(t) => RunKeepsValid(s, t);
    case Wakes(t) => SpuriousKeepsValid(s, t);
  }

  /** Every call changes the count by what it was called with, once: by the end of a run the count has changed by
      the calls made, less what the threads inside still owe. */
  lemma {:induction false} CallsCount<T>(s: Sem<T>, moves: seq<Move<T>>, threads: set<T>)
    requires Valid(s) && Feasible(s, moves) && forall m :: m in moves ==> m.t in threads
    ensures After(s, moves).srcval + Total(After(s, moves).stage, Owes, threads)
         == s.srcval + Total(s.stage, Owes, threads) + AllCalled(moves)
    decreases |moves|
  {
    if moves != [] {
      var m, s' := moves[0], Apply(s, moves[0]);
      assert m in moves;
      forall u | u in threads && u != m.t ensures AmountAt(s.stage, Owes, u) == AmountAt(s'.stage, Owes, u) {
        MovePays(s, m, u);
      }
      TotalChange(s.stage, s'.stage, Owes, threads, m.t);
      MovePays(s, m, m.t);
      MoveKeepsValid(s, m);
      CallsCount(s', moves[1..], threads);
    }
  }

  /** When everybody has left again, the count is the first one, plus what was returned, less what was taken. */
  lemma CountWhenQuiet<T>(n: int, moves: seq<Move<T>>, threads: set<T>)
    requires n >= 0 && Feasible(Sem(n, None, map[]), moves) && forall m :: m in moves ==> m.t in threads
    requires After(Sem(n, None, map[]), moves).stage == map[]
    ensures After(Sem(n, None, map[]), moves).srcval == n + AllCalled(moves)
  {
    CallsCount(Sem(n, None, map[]), moves, threads);
    TotalOfNobody<T, Op>(Owes, threads);
  }

  /** From Sem_Init(n) on: what is left and what is outstanding make n, what is left is never negative, so
      outstanding never exceeds n; and while the lock is free a sleeper asked for more than is left. */
  lemma Monitor<T>(n: int, moves: seq<Move<T>>)
    requires n >= 0 && Feasible(Sem(n, None, map[]), moves)
    ensures var e := After(Sem(n, None, map[]), moves);
      && e.srcval + Outstanding(Sem(n, None, map[]), moves) == n
      && Outstanding(Sem(n, None, map[]), moves) <= n && e.srcval >= 0
      && (e.lock.None? ==> forall t :: t in e.stage && e.stage[t].Asleep? ==> e.stage[t].op.n > e.srcval)
  {
    RunConserves(Sem(n, None, map[]), moves);
  }
}
