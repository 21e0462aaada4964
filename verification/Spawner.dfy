/** The program that uses the semaphore: the main thread acquires one unit for each
    number and starts a worker for it; the worker tests the number and gives the
    unit back. */
module Spawner {
  import opened Monitors
  import opened Tokens
  import opened Primes
  import opened Semaphore

  datatype Who = Main | Worker(n: int)

  /** `Acquiring(i)`: inside Sem_Sub for number `i`. */
  datatype MainPC = Looping(i: int) | Acquiring(i: int) | Joining | Done

  datatype WorkerPC = Testing | Returning | Exited

  /** `inFlight` are the numbers acquired for and not yet given back for. */
  datatype State = State(
    left: int, right: int, limit: int, sem: Sem<Who>, main: MainPC, workers: map<int, WorkerPC>,
    inFlight: set<int>, printed: seq<int>)

  datatype Move = Go(who: Who) | SpuriousWake

  predicate MainCan(s: State) {
    match s.main
    case Looping(i) => Main !in s.sem.stage
    case Acquiring(i) => Ready(s.sem, Main)
    case Joining => forall n :: n in s.workers ==> s.workers[n].Exited?
    case Done => false
  }

  predicate WorkerCan(s: State, n: int) {
    n in s.workers &&
    match s.workers[n]
    case Testing => Worker(n) !in s.sem.stage
    case Returning => Ready(s.sem, Worker(n))
    case Exited => false
  }

  predicate Enabled(s: State, m: Move) {
    match m
    case Go(Main) => MainCan(s)
    case Go(Worker(n)) => WorkerCan(s, n)
    case SpuriousWake => Main in s.sem.stage && s.sem.stage[Main].Asleep?
  }

  function MainStep(s: State): State
    requires MainCan(s)
  {
    match s.main
    case Looping(i) =>
      if i < s.right then s.(sem := Begin(s.sem, Main, Sub(1)), main := Acquiring(i)) else s.(main := Joining)
    case Acquiring(i) =>
      var sem := Run(s.sem, Main);
      var inFlight := if Acquired(s.sem, Main) == 1 then s.inFlight + {i} else s.inFlight;
      if Main in sem.stage then s.(sem := sem, inFlight := inFlight)
      else s.(sem := sem, main := Looping(i + 1), workers := s.workers[i := Testing])
    case Joining => s.(main := Done)
  }

  function WorkerStep(s: State, n: int): State
    requires WorkerCan(s, n)
  {
    match s.workers[n]
    case Testing =>
      s.(sem := Begin(s.sem, Worker(n), Ret(1)), workers := s.workers[n := Returning],
         printed := if Claimed(n) then s.printed + [n] else s.printed)
    case Returning =>
      var sem := Run(s.sem, Worker(n));
      s.(sem := sem,
         inFlight := if Released(s.sem, Worker(n)) == 1 then s.inFlight - {n} else s.inFlight,
         workers := if Worker(n) in sem.stage then s.workers else s.workers[n := Exited])
  }

  function Apply(s: State, m: Move): State
    requires Enabled(s, m)
  {
    match m
    case Go(Main) => MainStep(s)
    case Go(Worker(n)) => WorkerStep(s, n)
    case SpuriousWake => s.(sem := Spurious(s.sem, Main))
  }

  predicate Init(s: State) {
    && s.limit >= 0 && s.sem == Sem(s.limit, None, map[]) && s.main == Looping(s.left)
    && s.workers == map[] && s.inFlight == {} && s.printed == []
  }

  predicate Feasible(s: State, moves: seq<Move>)
    decreases |moves|
  {
    moves == [] || (Enabled(s, moves[0]) && Feasible(Apply(s, moves[0]), moves[1..]))
  }

  function After(s: State, moves: seq<Move>): State
    requires Feasible(s, moves)
    decreases |moves|
  {
    if moves == [] then s else After(Apply(s, moves[0]), moves[1..])
  }

  // ---------- the invariant ----------

  /** The numbers below this one have workers. */
  function Started(s: State): int {
    match s.main
    case Looping(i) => i
    case Acquiring(i) => i
    case _ => if s.left <= s.right then s.right else s.left
  }

  predicate MainOk(s: State) {
    && s.left <= Started(s)
    && (s.main.Looping? ==> s.main.i <= s.right || s.main.i == s.left)
    && (s.main.Acquiring? <==> Main in s.sem.stage) && (s.main.Acquiring? ==> s.main.i < s.right)
    && (Main in s.sem.stage ==>
          match s.sem.stage[Main]
          case Want(op) => op == Sub(1)
          case Entered(op) => op == Sub(1)
          case Asleep(op) => op == Sub(1)
          case Leaving => true
          case Changed => false)
  }

  predicate WorkerStageOk(g: Stage<Op>) {
    match g
    case Want(op) => op == Ret(1)
    case Entered(op) => op == Ret(1)
    case Asleep(_) => false
    case _ => true
  }

  predicate WorkersOk(s: State) {
    && (forall w :: w in s.sem.stage && w.Worker? ==>
          w.n in s.workers && s.workers[w.n].Returning? && WorkerStageOk(s.sem.stage[w]))
    && (forall n :: n in s.workers ==>
          s.left <= n < Started(s) && (s.workers[n].Returning? ==> Worker(n) in s.sem.stage))
  }

  /** A worker has a unit from before it starts until its return has added it to the count. */
  predicate HasUnit(s: State, n: int) {
    if n in s.workers then
      s.workers[n].Testing? || (s.workers[n].Returning? && Worker(n) in s.sem.stage
                                && (s.sem.stage[Worker(n)].Want? || s.sem.stage[Worker(n)].Entered?))
    else s.main == Acquiring(n) && Main in s.sem.stage && s.sem.stage[Main].Leaving?
  }

  ghost predicate UnitsOk(s: State) {
    && (forall n :: n in s.inFlight <==> HasUnit(s, n))
    && |s.inFlight| + s.sem.srcval == s.limit
  }

  ghost predicate PrintedOk(s: State) {
    && (forall n :: s.left <= n < Started(s) ==> n in s.workers)
    && (forall n :: n in s.printed <==> n in s.workers && !s.workers[n].Testing? && Claimed(n))
    && (forall i, j :: 0 <= i < j < |s.printed| ==> s.printed[i] != s.printed[j])
    && (s.main.Done? ==> forall n :: n in s.workers ==> s.workers[n].Exited?)
  }

  ghost predicate Inv(s: State) {
    Valid(s.sem) && MainOk(s) && WorkersOk(s) && UnitsOk(s) && PrintedOk(s)
  }

  lemma MainLoopKeeps(s: State)
    requires Inv(s) && MainCan(s) && !s.main.Acquiring?
    ensures Inv(MainStep(s))
  {
    if s.main.Looping? && s.main.i < s.right {
      BeginKeepsValid(s.sem, Main, Sub(1));
    }
  }

  /** The main thread's acquire takes a unit, for the number it is at; its other steps leave the units alone. */
  lemma MainAcquiringKeepsUnits(s: State)
    requires MainOk(s) && WorkersOk(s) && UnitsOk(s) && MainCan(s) && s.main.Acquiring?
    ensures UnitsOk(MainStep(s))
  {
    var s', i := MainStep(s), s.main.i;
    assert i !in s.workers;
    forall n ensures n in s'.inFlight <==> HasUnit(s', n) {
      assert n in s.inFlight <==> HasUnit(s, n);
      if n != i && n in s.workers { assert Worker(n) in s.sem.stage <==> Worker(n) in s'.sem.stage; }
    }
  }

  lemma MainAcquiringKeepsControl(s: State)
    requires Valid(s.sem) && MainOk(s) && WorkersOk(s) && MainCan(s) && s.main.Acquiring?
    ensures var s' := MainStep(s); Valid(s'.sem) && MainOk(s') && WorkersOk(s')
  {
    RunKeepsValid(s.sem, Main);
  }

  lemma MainAcquiringKeepsPrinted(s: State)
    requires MainOk(s) && WorkersOk(s) && PrintedOk(s) && MainCan(s) && s.main.Acquiring?
    ensures PrintedOk(MainStep(s))
  {
  }

  lemma WorkerTestKeepsControl(s: State, n: int)
    requires Valid(s.sem) && MainOk(s) && WorkersOk(s) && WorkerCan(s, n) && s.workers[n].Testing?
    ensures var s' := WorkerStep(s, n); Valid(s'.sem) && MainOk(s') && WorkersOk(s')
  {
    BeginKeepsValid(s.sem, Worker(n), Ret(1));
  }

  lemma WorkerTestKeepsUnits(s: State, n: int)
    requires UnitsOk(s) && WorkerCan(s, n) && s.workers[n].Testing?
    ensures UnitsOk(WorkerStep(s, n))
  {
    var s' := WorkerStep(s, n);
    forall k ensures k in s'.inFlight <==> HasUnit(s', k) {
      assert k in s.inFlight <==> HasUnit(s, k);
    }
  }

  lemma WorkerTestKeepsPrinted(s: State, n: int)
    requires MainOk(s) && PrintedOk(s) && WorkerCan(s, n) && s.workers[n].Testing?
    ensures PrintedOk(WorkerStep(s, n))
  {
  }

  lemma WorkerTestKeeps(s: State, n: int)
    requires Inv(s) && WorkerCan(s, n) && s.workers[n].Testing?
    ensures Inv(WorkerStep(s, n))
  {
    WorkerTestKeepsControl(s, n);
    WorkerTestKeepsUnits(s, n);
    WorkerTestKeepsPrinted(s, n);
  }

  /** A worker has its unit until the step that adds it to the count, and not from there on; the others keep theirs. */
  lemma WorkerReturnMovesUnit(s: State, n: int, k: int)
    requires MainOk(s) && WorkersOk(s) && WorkerCan(s, n) && s.workers[n].Returning?
    ensures HasUnit(WorkerStep(s, n), k) <==> HasUnit(s, k) && !(k == n && Released(s.sem, Worker(n)) == 1)
  {
    assert k in s.workers && k != n ==> (Worker(k) in s.sem.stage <==> Worker(k) in Run(s.sem, Worker(n)).stage);
  }

  lemma WorkerReturnKeepsUnits(s: State, n: int)
    requires MainOk(s) && WorkersOk(s) && UnitsOk(s) && WorkerCan(s, n) && s.workers[n].Returning?
    ensures UnitsOk(WorkerStep(s, n))
  {
    forall k ensures k in WorkerStep(s, n).inFlight <==> HasUnit(WorkerStep(s, n), k) {
      WorkerReturnMovesUnit(s, n, k);
    }
    WorkerReturnKeepsSum(s, n);
  }

  lemma WorkerReturnKeepsSum(s: State, n: int)
    requires WorkersOk(s) && UnitsOk(s) && WorkerCan(s, n) && s.workers[n].Returning?
    ensures |WorkerStep(s, n).inFlight| + WorkerStep(s, n).sem.srcval == s.limit
  {
    assert n in s.inFlight <==> HasUnit(s, n);
  }

  lemma WorkerReturnKeepsMain(s: State, n: int)
    requires Valid(s.sem) && MainOk(s) && PrintedOk(s) && WorkerCan(s, n) && s.workers[n].Returning?
    ensures Valid(WorkerStep(s, n).sem) && MainOk(WorkerStep(s, n)) && PrintedOk(WorkerStep(s, n))
  {
    RunKeepsValid(s.sem, Worker(n));
  }

  lemma WorkerReturnKeepsWorkers(s: State, n: int)
    requires WorkersOk(s) && MainOk(s) && WorkerCan(s, n) && s.workers[n].Returning?
    ensures WorkersOk(WorkerStep(s, n))
  {
  }

  lemma SpuriousKeeps(s: State)
    requires Inv(s) && Enabled(s, SpuriousWake)
    ensures Inv(Apply(s, SpuriousWake))
  {
    SpuriousKeepsValid(s.sem, Main);
  }

  lemma StepKeepsInv(s: State, m: Move)
    requires Inv(s) && Enabled(s, m)
    ensures Inv(Apply(s, m))
  {
    match m
    case Go(Main) =>
      if s.main.Acquiring? {
        MainAcquiringKeepsUnits(s);
        MainAcquiringKeepsControl(s);
        MainAcquiringKeepsPrinted(s);
      } else {
        MainLoopKeeps(s);
      }
    case Go(Worker(n)) =>
      if s.workers[n].Testing? { WorkerTestKeeps(s, n); }
      else { WorkerReturnKeepsUnits(s, n); WorkerReturnKeepsMain(s, n); WorkerReturnKeepsWorkers(s, n); }
    case SpuriousWake => SpuriousKeeps(s);
  }

  lemma {:induction false} RunKeepsInv(s: State, moves: seq<Move>)
    requires Inv(s) && Feasible(s, moves)
    ensures var e := After(s, moves); Inv(e) && e.left == s.left && e.right == s.right && e.limit == s.limit
    decreases |moves|
  {
    if moves != [] {
      StepKeepsInv(s, moves[0]);
      RunKeepsInv(Apply(s, moves[0]), moves[1..]);
    }
  }

  /** At no moment of any run are more than `limit` numbers between their acquire and their release, among
      them every number whose worker is at its test. */
  lemma AtMostLimitInFlight(s: State, moves: seq<Move>)
    requires Init(s) && Feasible(s, moves)
    ensures var e := After(s, moves);
      |e.inFlight| <= s.limit && forall n :: n in e.workers && e.workers[n].Testing? ==> n in e.inFlight
  {
    RunKeepsInv(s, moves);
  }

  /** A run that gets past its joins has printed each number of [left, right) that the test claims, once. */
  lemma PrintsClaimedOnce(s: State, moves: seq<Move>)
    requires Init(s) && Feasible(s, moves) && After(s, moves).main.Done?
    ensures var printed := After(s, moves).printed;
      && (forall i, j :: 0 <= i < j < |printed| ==> printed[i] != printed[j])
      && (forall n :: n in printed <==> s.left <= n < s.right && Claimed(n))
      && (s.left >= 5 ==> forall n :: n in printed <==> s.left <= n < s.right && Prime(n))
  {
    RunKeepsInv(s, moves);
    forall n | n >= 5 ensures Claimed(n) <==> Prime(n) {
      ClaimedFromFiveOn(n);
    }
  }

  /** Only the main thread ever sleeps; a spurious wakeup makes it ask for its unit again. */
  lemma WakeupWakes(s: State)
    requires Inv(s) && Enabled(s, SpuriousWake)
    ensures Apply(s, SpuriousWake).sem.stage == s.sem.stage[Main := Want(Sub(1))]
  {
  }

  // ---------- progress ----------

  /** Somebody can move of its own accord. */
  ghost predicate Moves(s: State) {
    exists m :: Enabled(s, m) && m.Go?
  }

  lemma HolderMoves(s: State)
    requires Inv(s) && s.sem.lock.Some?
    ensures Moves(s)
  {
    assert Ready(s.sem, s.sem.lock.value);
    assert Enabled(s, Go(s.sem.lock.value));
  }

  /** With the semaphore's lock free, a worker that has not ended can move. */
  lemma WorkerMoves(s: State, n: int)
    requires Inv(s) && s.sem.lock.None? && n in s.workers && !s.workers[n].Exited?
    ensures Moves(s)
  {
    assert Enabled(s, Go(Worker(n)));
  }

  /** The main thread sleeps only while all units are with workers. */
  lemma SleepingMainHasWorkers(s: State) returns (n: int)
    requires Inv(s) && s.limit >= 1 && s.sem.lock.None? && Main in s.sem.stage && s.sem.stage[Main].Asleep?
    ensures n in s.workers && !s.workers[n].Exited?
  {
    assert s.inFlight != {};
    n := Pick(s.inFlight);
    assert HasUnit(s, n);
  }

  lemma MainMoves(s: State)
    requires Inv(s) && s.sem.lock.None? && MainCan(s)
    ensures Moves(s)
  {
    assert Enabled(s, Go(Main));
  }

  lemma MovesInside(s: State)
    requires Inv(s) && s.limit >= 1 && !s.main.Done?
    ensures Moves(s)
  {
    if s.sem.lock.Some? {
      HolderMoves(s);
    } else if n :| n in s.workers && !s.workers[n].Exited? {
      WorkerMoves(s, n);
    } else if Main in s.sem.stage && s.sem.stage[Main].Asleep? {
      var n := SleepingMainHasWorkers(s);
    } else {
      MainMoves(s);
    }
  }

  /** The program never gets stuck: with a unit or more, in every state that a run reaches before the end somebody
      can move of its own accord. */
  lemma NeverStuck(s: State, moves: seq<Move>)
    requires Init(s) && s.limit >= 1 && Feasible(s, moves) && !After(s, moves).main.Done?
    ensures Moves(After(s, moves))
  {
    RunKeepsInv(s, moves);
    MovesInside(After(s, moves));
  }

  // ---------- the end can be reached ----------

  ghost predicate Leads(s: State, e: State) {
    exists moves :: Feasible(s, moves) && After(s, moves) == e
  }

  lemma OneMore(s: State, moves: seq<Move>)
    requires moves != [] && Enabled(s, moves[0]) && Feasible(Apply(s, moves[0]), moves[1..])
    ensures Feasible(s, moves) && After(s, moves) == After(Apply(s, moves[0]), moves[1..])
  {
  }

  lemma LeadsStep(s: State, m: Move)
    requires Enabled(s, m)
    ensures Leads(s, Apply(s, m))
  {
    assert [m][1..] == [];
    OneMore(s, [m]);
  }

  lemma {:induction false} RunAppend(s: State, a: seq<Move>, b: seq<Move>)
    requires Feasible(s, a) && Feasible(After(s, a), b)
    ensures Feasible(s, a + b) && After(s, a + b) == After(After(s, a), b)
    decreases |a|
  {
    if a == [] {
      assert a + b == b;
    } else {
      var ab := a + b;
      assert ab[0] == a[0] && ab[1..] == a[1..] + b;
      RunAppend(Apply(s, a[0]), a[1..], b);
      OneMore(s, ab);
    }
  }

  lemma LeadsOn(s: State, mid: State, e: State)
    requires Leads(s, mid) && Leads(mid, e)
    ensures Leads(s, e)
  {
    var a :| Feasible(s, a) && After(s, a) == mid;
    var b :| Feasible(mid, b) && After(mid, b) == e;
    RunAppend(s, a, b);
  }

  lemma Leads2(s: State, m: Move)
    requires Enabled(s, m) && Enabled(Apply(s, m), m)
    ensures Leads(s, Apply(Apply(s, m), m))
  {
    LeadsStep(s, m);
    LeadsStep(Apply(s, m), m);
    LeadsOn(s, Apply(s, m), Apply(Apply(s, m), m));
  }

  /** Nobody is inside the semaphore. */
  predicate Calm(s: State) {
    s.sem.lock.None? && s.sem.stage == map[]
  }

  function SetSem(s: State, srcval: int, lock: Option<Who>, stage: map<Who, Stage<Op>>): State {
    s.(sem := Sem(srcval, lock, stage))
  }

  /** The main thread enters the semaphore and gets its lock. */
  lemma MainEnters(s: State, i: int)
    requires Calm(s) && s.main == Looping(i) && i < s.right
    ensures Leads(s, SetSem(s, s.sem.srcval, Some(Main), map[Main := Entered(Sub(1))]).(main := Acquiring(i)))
  {
    Leads2(s, Go(Main));
    assert Apply(Apply(s, Go(Main)), Go(Main))
        == SetSem(s, s.sem.srcval, Some(Main), map[Main := Entered(Sub(1))]).(main := Acquiring(i));
  }

  /** It takes a unit, leaves, and starts a worker. */
  lemma MainTakes(s: State, i: int)
    requires s.main == Acquiring(i) && s.sem.srcval >= 1
    requires s.sem == Sem(s.sem.srcval, Some(Main), map[Main := Entered(Sub(1))])
    ensures Leads(s, SetSem(s, s.sem.srcval - 1, None, map[])
                       .(main := Looping(i + 1), workers := s.workers[i := Testing], inFlight := s.inFlight + {i}))
  {
    var b := Apply(s, Go(Main));
    assert b == SetSem(s, s.sem.srcval - 1, Some(Main), map[Main := Leaving]).(inFlight := s.inFlight + {i});
    Leads2(s, Go(Main));
    assert Apply(b, Go(Main)).sem.stage == map[];
  }

  /** A worker tests its number, and enters the semaphore. */
  lemma WorkerTests(s: State, n: int) returns (e: State)
    requires Calm(s) && n in s.workers && s.workers[n].Testing?
    ensures Leads(s, e)
    ensures e == SetSem(s, s.sem.srcval, Some(Worker(n)), map[Worker(n) := Entered(Ret(1))])
                   .(workers := s.workers[n := Returning], printed := e.printed)
  {
    var go := Go(Worker(n));
    Leads2(s, go);
    e := Apply(Apply(s, go), go);
  }

  /** It gives its unit back, and wakes whoever sleeps. */
  lemma WorkerGives(s: State, n: int)
    requires n in s.workers && s.workers[n].Returning?
    requires s.sem == Sem(s.sem.srcval, Some(Worker(n)), map[Worker(n) := Entered(Ret(1))])
    ensures Leads(s, SetSem(s, s.sem.srcval + 1, Some(Worker(n)), map[Worker(n) := Leaving])
                       .(inFlight := s.inFlight - {n}))
  {
    var go := Go(Worker(n));
    var b := Apply(s, go);
    assert b == SetSem(s, s.sem.srcval + 1, Some(Worker(n)), map[Worker(n) := Changed]).(inFlight := s.inFlight - {n});
    Leads2(s, go);
    assert Apply(b, go).sem.stage == map[Worker(n) := Leaving];
  }

  lemma WorkerLeaves(s: State, n: int)
    requires n in s.workers && s.workers[n].Returning?
    requires s.sem == Sem(s.sem.srcval, Some(Worker(n)), map[Worker(n) := Leaving])
    ensures Leads(s, SetSem(s, s.sem.srcval, None, map[]).(workers := s.workers[n := Exited]))
  {
    LeadsStep(s, Go(Worker(n)));
    assert Apply(s, Go(Worker(n))).sem.stage == map[];
  }

  /** Between two numbers: the units are all back, and the workers all gone. */
  predicate Between(s: State, i: int) {
    Calm(s) && s.main == Looping(i) && s.sem.srcval >= 1 && forall n :: n in s.workers ==> s.workers[n].Exited?
  }

  lemma WorkerRuns(s: State, n: int) returns (e: State)
    requires Calm(s) && n in s.workers && s.workers[n].Testing?
    ensures Leads(s, e) && Calm(e) && e.sem.srcval == s.sem.srcval + 1 && e.workers == s.workers[n := Exited]
    ensures e.main == s.main && e.right == s.right
  {
    var a := WorkerTests(s, n);
    WorkerGives(a, n);
    var b := SetSem(a, a.sem.srcval + 1, Some(Worker(n)), map[Worker(n) := Leaving]).(inFlight := a.inFlight - {n});
    WorkerLeaves(b, n);
    e := SetSem(b, b.sem.srcval, None, map[]).(workers := b.workers[n := Exited]);
    LeadsOn(s, a, b);
    LeadsOn(s, b, e);
  }

  lemma OneNumber(s: State, i: int) returns (e: State)
    requires Between(s, i) && i < s.right
    ensures Leads(s, e) && Between(e, i + 1) && e.right == s.right
  {
    MainEnters(s, i);
    var a := SetSem(s, s.sem.srcval, Some(Main), map[Main := Entered(Sub(1))]).(main := Acquiring(i));
    MainTakes(a, i);
    var b := SetSem(a, a.sem.srcval - 1, None, map[])
               .(main := Looping(i + 1), workers := a.workers[i := Testing], inFlight := a.inFlight + {i});
    e := WorkerRuns(b, i);
    LeadsOn(s, a, b);
    LeadsOn(s, b, e);
  }

  /** Past the last number, the joins are over at once when all workers are gone. */
  lemma CanJoin(s: State, i: int) returns (e: State)
    requires s.main == Looping(i) && i >= s.right && Calm(s) && forall n :: n in s.workers ==> s.workers[n].Exited?
    ensures Leads(s, e) && e.main.Done?
  {
    Leads2(s, Go(Main));
    e := Apply(Apply(s, Go(Main)), Go(Main));
  }

  lemma {:induction false} CanFinishFrom(s: State, i: int) returns (e: State)
    requires Between(s, i)
    ensures Leads(s, e) && e.main.Done?
    decreases s.right - i
  {
    if i >= s.right {
      e := CanJoin(s, i);
    } else {
      var a := OneNumber(s, i);
      e := CanFinishFrom(a, i + 1);
      LeadsOn(s, a, e);
    }
  }

  /** Without a unit, the main thread never gets past its first acquire. */
  lemma NoUnitStep(s: State, m: Move)
    requires Inv(s) && s.limit == 0 && s.workers == map[] && Enabled(s, m)
    ensures Apply(s, m).workers == map[] && Apply(s, m).limit == 0
  {
    assert s.inFlight == {};
    assert s.main.Acquiring? ==> !HasUnit(s, s.main.i);
  }

  lemma {:induction false} NoUnitNoWorker(s: State, moves: seq<Move>)
    requires Inv(s) && s.limit == 0 && s.workers == map[] && Feasible(s, moves)
    ensures After(s, moves).workers == map[]
    decreases |moves|
  {
    if moves != [] {
      StepKeepsInv(s, moves[0]);
      NoUnitStep(s, moves[0]);
      NoUnitNoWorker(Apply(s, moves[0]), moves[1..]);
    }
  }

  lemma NoUnitNoEnd(s: State, e: State)
    requires Init(s) && s.left < s.right && s.limit == 0 && Leads(s, e)
    ensures !e.main.Done?
  {
    var moves :| Feasible(s, moves) && After(s, moves) == e;
    RunKeepsInv(s, moves);
    NoUnitNoWorker(s, moves);
    assert e.main.Done? ==> s.left in e.workers;
  }

  /** Some run gets past its joins if and only if the semaphore starts with a unit, or there is nothing to do. */
  lemma FinishesIffUnits(s: State)
    requires Init(s)
    ensures (exists e :: Leads(s, e) && e.main.Done?) <==> s.left >= s.right || s.limit >= 1
  {
    if s.left >= s.right {
      var e := CanJoin(s, s.left);
    } else if s.limit >= 1 {
      var e := CanFinishFrom(s, s.left);
    } else {
      forall e | Leads(s, e) ensures !e.main.Done? {
        NoUnitNoEnd(s, e);
      }
    }
  }
}
