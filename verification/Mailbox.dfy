/** The one-slot mailbox between a producer of numbers and workers that test them
    for primality: one mutex and one condition variable for all. A step is taking
    the lock, the work of one critical section with its signal, giving the lock
    up, or the test of a number, which needs no lock. */
module Mailbox {
  import opened Tokens
  import opened Primes

  datatype Who = Producer | Worker(k: nat)

  /** `i` is the number the producer has to put next; `Put` and `Closed` still hold the lock. */
  datatype ProducerPC = PLock(i: int) | PTest(i: int) | PAsleep(i: int) | Put(i: int) | Closed | Joining | Done

  /** `Took` still holds the lock; `Leaving` has seen the end and holds the lock. */
  datatype WorkerPC = WLock | WTest | WAsleep | Took(n: int) | Testing(n: int) | Leaving | Exited

  /** `taken` lists the numbers taken, in order; `owner` says by whom, `finished` which are tested. */
  datatype State = State(
    left: int, right: int, flag: int, num: int, lock: Option<Who>, producer: ProducerPC, workers: seq<WorkerPC>,
    printed: seq<int>, taken: seq<int>, owner: map<int, nat>, finished: set<int>)

  /** `wakes` is whom a signal wakes, if the step signals; an arbitrary sleeper, unless there is none. */
  datatype Move = Go(who: Who, wakes: Option<Who>) | Spurious(who: Who)

  predicate Asleep(s: State, w: Who) {
    match w
    case Producer => s.producer.PAsleep?
    case Worker(k) => k < |s.workers| && s.workers[k].WAsleep?
  }

  function Wake(s: State, w: Option<Who>): State {
    match w
    case None => s
    case Some(Producer) => if s.producer.PAsleep? then s.(producer := PLock(s.producer.i)) else s
    case Some(Worker(k)) =>
      if k < |s.workers| && s.workers[k].WAsleep? then s.(workers := s.workers[k := WLock]) else s
  }

  function WakeAll(ws: seq<WorkerPC>): (r: seq<WorkerPC>)
    ensures |r| == |ws| && forall k :: 0 <= k < |ws| ==> r[k] == if ws[k].WAsleep? then WLock else ws[k]
  {
    seq(|ws|, k requires 0 <= k < |ws| => if ws[k].WAsleep? then WLock else ws[k])
  }

  predicate SignalOk(s: State, wakes: Option<Who>) {
    if wakes.Some? then Asleep(s, wakes.value)
    else !s.producer.PAsleep? && forall k :: 0 <= k < |s.workers| ==> !s.workers[k].WAsleep?
  }

  predicate ProducerCan(s: State, wakes: Option<Who>) {
    match s.producer
    case PLock(_) => s.lock.None?
    case PTest(i) => s.flag == 0 && i < s.right ==> SignalOk(s, wakes)
    case PAsleep(_) => false
    case Joining => forall k :: 0 <= k < |s.workers| ==> s.workers[k].Exited?
    case Done => false
    case _ => true
  }

  predicate WorkerCan(s: State, k: nat, wakes: Option<Who>) {
    k < |s.workers| &&
    match s.workers[k]
    case WLock => s.lock.None?
    case WTest => s.flag == 1 ==> SignalOk(s, wakes)
    case WAsleep => false
    case Exited => false
    case _ => true
  }

  predicate Enabled(s: State, m: Move) {
    match m
    case Go(Producer, wakes) => ProducerCan(s, wakes)
    case Go(Worker(k), wakes) => WorkerCan(s, k, wakes)
    case Spurious(w) => Asleep(s, w)
  }

  function ProducerStep(s: State, wakes: Option<Who>): State
    requires ProducerCan(s, wakes)
  {
    match s.producer
    case PLock(i) => s.(lock := Some(Producer), producer := PTest(i))
    case PTest(i) =>
      if s.flag != 0 then s.(lock := None, producer := PAsleep(i))
      else if i < s.right then Wake(s.(num := i, flag := 1, producer := Put(i)), wakes)
      else s.(flag := -1, producer := Closed, workers := WakeAll(s.workers))
    case Put(i) => s.(lock := None, producer := PLock(i + 1))
    case Closed => s.(lock := None, producer := Joining)
    case Joining => s.(producer := Done)
  }

  function SetWorker(s: State, k: nat, pc: WorkerPC): State
    requires k < |s.workers|
  {
    s.(workers := s.workers[k := pc])
  }

  function WorkerStep(s: State, k: nat, wakes: Option<Who>): State
    requires WorkerCan(s, k, wakes)
  {
    match s.workers[k]
    case WLock => SetWorker(s.(lock := Some(Worker(k))), k, WTest)
    case WTest =>
      if s.flag == 1 then
        Wake(SetWorker(s.(flag := 0, taken := s.taken + [s.num], owner := s.owner[s.num := k]), k, Took(s.num)), wakes)
      else if s.flag == -1 then SetWorker(s, k, Leaving)
      else SetWorker(s.(lock := None), k, WAsleep)
    case Took(n) => SetWorker(s.(lock := None), k, Testing(n))
    case Testing(n) =>
      var printed := if Claimed(n) then s.printed + [n] else s.printed;
      SetWorker(s.(printed := printed, finished := s.finished + {n}), k, WLock)
    case Leaving => SetWorker(s.(lock := None), k, Exited)
  }

  function Apply(s: State, m: Move): State
    requires Enabled(s, m)
  {
    match m
    case Go(Producer, wakes) => ProducerStep(s, wakes)
    case Go(Worker(k), wakes) => WorkerStep(s, k, wakes)
    case Spurious(w) => Wake(s, Some(w))
  }

  predicate Init(s: State) {
    && s.flag == 0 && s.lock.None? && s.producer == PLock(s.left)
    && (forall k :: 0 <= k < |s.workers| ==> s.workers[k] == WLock)
    && s.printed == [] && s.taken == [] && s.owner == map[] && s.finished == {}
  }

  predicate Feasible(s: State, moves: seq<Move>)
    decreases |moves|
  {
    moves == [] || (Enabled(s, moves[0]) && Feasible(Apply(s, moves[0]), moves[1..]))
  }

  function After(s: State, moves: seq<Move>): State
    requires Feasible(s, moves)
    decreases |moves|
  {
    if moves == [] then s else After(Apply(s, moves[0]), moves[1..])
  }

  // ---------- the invariant ----------

  function Next(s: State): int {
    s.left + |s.taken|
  }

  /** Where the range ends: an empty range ends where it starts. */
  function End(s: State): int {
    if s.left <= s.right then s.right else s.left
  }

  /** How far the producer has put numbers. */
  function PutUpTo(s: State): int {
    match s.producer
    case PLock(i) => i
    case PTest(i) => i
    case PAsleep(i) => i
    case Put(i) => i + 1
    case _ => End(s)
  }

  predicate Finishing(p: ProducerPC) {
    p.Closed? || p.Joining? || p.Done?
  }

  /** The slot is full when the producer is one number ahead of the takes. */
  predicate SlotOk(s: State) {
    && s.left <= PutUpTo(s) <= End(s)
    && (s.flag == -1 <==> Finishing(s.producer))
    && (if s.flag == 1 then s.num == Next(s) && PutUpTo(s) == Next(s) + 1
        else (s.flag == 0 || s.flag == -1) && PutUpTo(s) == Next(s))
    && (s.flag == -1 ==> Next(s) == End(s))
    && forall j :: 0 <= j < |s.taken| ==> s.taken[j] == s.left + j
  }

  predicate Holds(pc: WorkerPC, n: int) {
    pc == Took(n) || pc == Testing(n)
  }

  predicate WorkerOk(s: State, k: nat)
    requires k < |s.workers|
  {
    var pc := s.workers[k];
    && ((pc.Took? || pc.Testing?) ==> pc.n in s.owner && s.owner[pc.n] == k && pc.n !in s.finished)
    && (pc.Leaving? || pc.Exited? ==> s.flag == -1)
  }

  predicate WorkersOk(s: State) {
    forall k :: 0 <= k < |s.workers| ==> WorkerOk(s, k)
  }

  /** Every number taken is in the hands of its owner, or tested. */
  ghost predicate NumbersOk(s: State) {
    && (forall n :: n in s.owner <==> s.left <= n < Next(s))
    && (forall n :: n in s.owner ==> s.owner[n] < |s.workers| && (n in s.finished || Holds(s.workers[s.owner[n]], n)))
    && (forall n :: n in s.finished ==> n in s.owner)
  }

  ghost predicate PrintedOk(s: State) {
    && (forall n :: n in s.printed <==> n in s.finished && Claimed(n))
    && (forall i, j :: 0 <= i < j < |s.printed| ==> s.printed[i] != s.printed[j])
  }

  /** The numbers, wherever they are. */
  ghost predicate AccountOk(s: State) {
    WorkersOk(s) && NumbersOk(s) && PrintedOk(s)
  }

  predicate ControlOk(s: State) {
    SlotOk(s) && LockOk(s) && (s.producer.Done? ==> forall k :: 0 <= k < |s.workers| ==> s.workers[k].Exited?)
  }

  ghost predicate Inv(s: State) {
    ControlOk(s) && AccountOk(s)
  }

  predicate LockOk(s: State) {
    && ((s.producer.PTest? || s.producer.Put? || s.producer.Closed?) <==> s.lock == Some(Producer))
    && (forall k :: 0 <= k < |s.workers| ==>
          ((s.workers[k].WTest? || s.workers[k].Took? || s.workers[k].Leaving?) <==> s.lock == Some(Worker(k))))
  }

  /** Waking somebody changes nothing but where they are. */
  lemma WakeKeepsAccount(s: State, w: Option<Who>)
    requires AccountOk(s)
    ensures AccountOk(Wake(s, w))
  {
    var s' := Wake(s, w);
    forall k | 0 <= k < |s'.workers| ensures WorkerOk(s', k) {
      assert WorkerOk(s, k);
    }
  }

  lemma WakeKeeps(s: State, w: Option<Who>)
    requires Inv(s)
    ensures Inv(Wake(s, w))
  {
    WakeKeepsAccount(s, w);
  }

  lemma ProducerMovesKeep(s: State, wakes: Option<Who>)
    requires Inv(s) && ProducerCan(s, wakes) && !s.producer.PTest?
    ensures Inv(ProducerStep(s, wakes))
  {
    var s' := ProducerStep(s, wakes);
    forall k | 0 <= k < |s'.workers| ensures WorkerOk(s', k) {
      assert WorkerOk(s, k);
    }
  }

  lemma PutKeeps(s: State, wakes: Option<Who>)
    requires Inv(s) && ProducerCan(s, wakes) && s.producer.PTest? && s.flag == 0 && s.producer.i < s.right
    ensures Inv(ProducerStep(s, wakes))
  {
    var i := s.producer.i;
    var s1 := s.(num := i, flag := 1, producer := Put(i));
    forall k | 0 <= k < |s.workers| ensures WorkerOk(s1, k) {
      assert WorkerOk(s, k);
    }
    WakeKeeps(s1, wakes);
  }

  lemma WaitOrCloseKeeps(s: State, wakes: Option<Who>)
    requires Inv(s) && ProducerCan(s, wakes) && s.producer.PTest? && (s.flag != 0 || s.producer.i >= s.right)
    ensures Inv(ProducerStep(s, wakes))
  {
    var s' := ProducerStep(s, wakes);
    forall k | 0 <= k < |s'.workers| ensures WorkerOk(s', k) {
      assert WorkerOk(s, k);
    }
  }

  /** The takes: the number in the slot is the next one, and now it has an owner. */
  lemma TakeKeeps(s: State, k: nat, wakes: Option<Who>)
    requires Inv(s) && WorkerCan(s, k, wakes) && s.workers[k].WTest? && s.flag == 1
    ensures Inv(WorkerStep(s, k, wakes))
  {
    var s1 := SetWorker(s.(flag := 0, taken := s.taken + [s.num], owner := s.owner[s.num := k]), k, Took(s.num));
    forall j | 0 <= j < |s.workers| ensures WorkerOk(s1, j) {
      assert WorkerOk(s, j);
    }
    WakeKeeps(s1, wakes);
  }

  lemma TestKeeps(s: State, k: nat, wakes: Option<Who>)
    requires Inv(s) && WorkerCan(s, k, wakes) && s.workers[k].Testing?
    ensures Inv(WorkerStep(s, k, wakes))
  {
    var s' := WorkerStep(s, k, wakes);
    assert WorkerOk(s, k);
    forall j | 0 <= j < |s'.workers| ensures WorkerOk(s', j) {
      assert WorkerOk(s, j);
    }
  }

  lemma WorkerMovesKeep(s: State, k: nat, wakes: Option<Who>)
    requires Inv(s) && WorkerCan(s, k, wakes) && !s.workers[k].Testing? && !(s.workers[k].WTest? && s.flag == 1)
    ensures Inv(WorkerStep(s, k, wakes))
  {
    var s' := WorkerStep(s, k, wakes);
    forall j | 0 <= j < |s'.workers| ensures WorkerOk(s', j) {
      assert WorkerOk(s, j);
    }
  }

  lemma StepKeepsInv(s: State, m: Move)
    requires Inv(s) && Enabled(s, m)
    ensures Inv(Apply(s, m))
  {
    match m
    case Go(Producer, wakes) =>
      if !s.producer.PTest? { ProducerMovesKeep(s, wakes); }
      else if s.flag == 0 && s.producer.i < s.right { PutKeeps(s, wakes); }
      else { WaitOrCloseKeeps(s, wakes); }
    case Go(Worker(k), wakes) =>
      if s.workers[k].Testing? { TestKeeps(s, k, wakes); }
      else if s.workers[k].WTest? && s.flag == 1 { TakeKeeps(s, k, wakes); }
      else { WorkerMovesKeep(s, k, wakes); }
    case Spurious(w) => WakeKeeps(s, Some(w));
  }

  predicate SameSetup(s: State, s': State) {
    s'.left == s.left && s'.right == s.right && |s'.workers| == |s.workers|
  }

  lemma StepKeepsSetup(s: State, m: Move)
    requires Enabled(s, m)
    ensures SameSetup(s, Apply(s, m))
  {
  }

  lemma {:induction false} RunKeepsInv(s: State, moves: seq<Move>)
    requires Inv(s) && Feasible(s, moves)
    ensures Inv(After(s, moves)) && SameSetup(s, After(s, moves))
    decreases |moves|
  {
    if moves != [] {
      StepKeepsInv(s, moves[0]);
      StepKeepsSetup(s, moves[0]);
      RunKeepsInv(Apply(s, moves[0]), moves[1..]);
    }
  }

  // ---------- what is printed ----------

  /** At every moment of every run, the numbers taken are left, left + 1, ... in this order, and what is
      printed is printed once and was claimed by the test of a number that was taken. */
  lemma TakesInOrder(s: State, moves: seq<Move>)
    requires Init(s) && Feasible(s, moves)
    ensures var e := After(s, moves);
      && (forall j :: 0 <= j < |e.taken| ==> e.taken[j] == s.left + j)
      && (forall i, j :: 0 <= i < j < |e.printed| ==> e.printed[i] != e.printed[j])
      && (forall n :: n in e.printed ==> s.left <= n < s.left + |e.taken| <= End(s) && Claimed(n))
  {
    RunKeepsInv(s, moves);
  }

  /** A run whose joins are over has printed each number of [left, right) that the test claims, once; from 5
      on, these are the primes. */
  lemma ExactlyThePrimes(s: State, moves: seq<Move>)
    requires Init(s) && Feasible(s, moves) && After(s, moves).producer.Done?
    ensures var printed := After(s, moves).printed;
      && (forall i, j :: 0 <= i < j < |printed| ==> printed[i] != printed[j])
      && (forall n :: n in printed <==> s.left <= n < s.right && Claimed(n))
      && (s.left >= 5 ==> forall n :: n in printed <==> s.left <= n < s.right && Prime(n))
  {
    RunKeepsInv(s, moves);
    var e := After(s, moves);
    assert forall n :: n in e.owner ==> n in e.finished;
    forall n | n >= 5 ensures Claimed(n) <==> Prime(n) {
      ClaimedFromFiveOn(n);
    }
  }

  // ---------- one condition for two kinds of sleepers ----------

  /** Everybody waits for a signal, and nobody is left to give one. */
  predicate Stuck(s: State) {
    s.lock.None? && s.producer.PAsleep? && forall k :: 0 <= k < |s.workers| ==> s.workers[k].WAsleep?
  }

  lemma StuckOnlySpuriousWakes(s: State, m: Move)
    requires Stuck(s) && Enabled(s, m)
    ensures m.Spurious?
  {
  }

  /** With one worker each sleeper is the only one, so a signal always reaches it. */
  predicate SoleOk(s: State) {
    && |s.workers| == 1
    && (s.workers[0].WAsleep? ==> s.flag == 0) && (s.producer.PAsleep? ==> s.flag == 1)
  }

  lemma SoleStep(s: State, m: Move)
    requires Inv(s) && SoleOk(s) && Enabled(s, m)
    ensures SoleOk(Apply(s, m))
  {
  }

  lemma {:induction false} SoleWorkerNeverStuck(s: State, moves: seq<Move>)
    requires Inv(s) && SoleOk(s) && Feasible(s, moves)
    ensures !Stuck(After(s, moves))
    decreases |moves|
  {
    if moves != [] {
      StepKeepsInv(s, moves[0]);
      SoleStep(s, moves[0]);
      SoleWorkerNeverStuck(Apply(s, moves[0]), moves[1..]);
    }
  }

  ghost predicate Leads(s: State, e: State) {
    exists moves :: Feasible(s, moves) && After(s, moves) == e
  }

  lemma OneMore(s: State, moves: seq<Move>)
    requires moves != [] && Enabled(s, moves[0]) && Feasible(Apply(s, moves[0]), moves[1..])
    ensures Feasible(s, moves) && After(s, moves) == After(Apply(s, moves[0]), moves[1..])
  {
  }

  lemma LeadsStep(s: State, m: Move)
    requires Enabled(s, m)
    ensures Leads(s, Apply(s, m))
  {
    assert [m][1..] == [];
    OneMore(s, [m]);
  }

  lemma {:induction false} RunAppend(s: State, a: seq<Move>, b: seq<Move>)
    requires Feasible(s, a) && Feasible(After(s, a), b)
    ensures Feasible(s, a + b) && After(s, a + b) == After(After(s, a), b)
    decreases |a|
  {
    if a == [] {
      assert a + b == b;
    } else {
      var ab := a + b;
      assert ab[0] == a[0] && ab[1..] == a[1..] + b;
      RunAppend(Apply(s, a[0]), a[1..], b);
      OneMore(s, ab);
    }
  }

  lemma LeadsOn(s: State, mid: State, e: State)
    requires Leads(s, mid) && Leads(mid, e)
    ensures Leads(s, e)
  {
    var a :| Feasible(s, a) && After(s, a) == mid;
    var b :| Feasible(mid, b) && After(mid, b) == e;
    RunAppend(s, a, b);
  }

  lemma Leads2(s: State, m0: Move, m1: Move)
    requires Enabled(s, m0) && Enabled(Apply(s, m0), m1)
    ensures Leads(s, Apply(Apply(s, m0), m1))
  {
    LeadsStep(s, m0);
    LeadsStep(Apply(s, m0), m1);
    LeadsOn(s, Apply(s, m0), Apply(Apply(s, m0), m1));
  }

  /** A worker that finds nothing goes to sleep. */
  lemma WorkerSleeps(s: State, k: nat)
    requires k < |s.workers| && s.workers[k].WLock? && s.lock.None? && s.flag == 0
    ensures Leads(s, SetWorker(s, k, WAsleep))
  {
    var m := Go(Worker(k), None);
    Leads2(s, m, m);
    assert Apply(Apply(s, m), m) == SetWorker(s, k, WAsleep);
  }

  /** The producer that finds the slot full goes to sleep. */
  lemma ProducerSleeps(s: State)
    requires s.producer.PLock? && s.lock.None? && s.flag == 1
    ensures Leads(s, s.(producer := PAsleep(s.producer.i)))
  {
    var m := Go(Producer, None);
    Leads2(s, m, m);
    assert Apply(Apply(s, m), m) == s.(producer := PAsleep(s.producer.i));
  }

  function FirstPut(s: State): State
    requires s.producer.PLock?
  {
    s.(num := s.producer.i, flag := 1, producer := PLock(s.producer.i + 1))
  }

  lemma ProducerPuts(s: State, wakes: Option<Who>)
    requires s.producer.PLock? && s.lock.None? && s.flag == 0 && s.producer.i < s.right && SignalOk(s, wakes)
    requires wakes.Some? ==> wakes.value.Worker?
    ensures Leads(s, Wake(FirstPut(s), wakes))
  {
    var m, signal := Go(Producer, None), Go(Producer, wakes);
    var s1 := Apply(s, m);
    var s2 := Apply(s1, signal);
    Leads2(s, m, signal);
    LeadsStep(s2, m);
    assert Apply(s2, m) == Wake(FirstPut(s), wakes);
    LeadsOn(s, s2, Apply(s2, m));
  }

  function FirstTake(s: State, k: nat): State
    requires k < |s.workers|
  {
    SetWorker(s.(flag := 0, taken := s.taken + [s.num], owner := s.owner[s.num := k]), k, Testing(s.num))
  }

  lemma WorkerTakes(s: State, k: nat, j: nat)
    requires k < |s.workers| && j < |s.workers| && j != k && s.workers[k].WLock? && s.workers[j].WAsleep?
    requires s.lock.None? && s.flag == 1
    ensures Leads(s, SetWorker(FirstTake(s, k), j, WLock))
  {
    var m, signal := Go(Worker(k), None), Go(Worker(k), Some(Worker(j)));
    var s1 := Apply(s, m);
    var s2 := Apply(s1, signal);
    Leads2(s, m, signal);
    LeadsStep(s2, m);
    assert Apply(s2, m) == SetWorker(FirstTake(s, k), j, WLock);
    LeadsOn(s, s2, Apply(s2, m));
  }

  function Sleepers(n: nat): (r: seq<WorkerPC>)
    ensures |r| == n && forall k :: 0 <= k < n ==> r[k] == WAsleep
  {
    seq(n, _ => WAsleep)
  }

  lemma {:induction false} AllWorkersSleep(s: State, n: nat)
    requires n <= |s.workers| && s.lock.None? && s.flag == 0
    requires forall k :: 0 <= k < |s.workers| ==> s.workers[k] == WLock
    ensures Leads(s, s.(workers := Sleepers(n) + s.workers[n..]))
  {
    if n == 0 {
      assert Sleepers(0) + s.workers[0..] == s.workers;
      assert Feasible(s, []) && After(s, []) == s;
    } else {
      var mid := s.(workers := Sleepers(n - 1) + s.workers[n - 1..]);
      AllWorkersSleep(s, n - 1);
      WorkerSleeps(mid, n - 1);
      assert SetWorker(mid, n - 1, WAsleep).workers == Sleepers(n) + s.workers[n..];
      LeadsOn(s, mid, SetWorker(mid, n - 1, WAsleep));
    }
  }

  /** With two workers or more: the producer puts a number, wakes one, and sleeps on the full slot; that
      worker's signal wakes another worker instead of the producer; both find nothing more and sleep. */
  lemma ManyWorkersCanStick(s: State) returns (e: State)
    requires Init(s) && s.left < s.right && |s.workers| >= 2
    ensures Leads(s, e) && Stuck(e)
  {
    var n := |s.workers|;
    var a := s.(workers := Sleepers(n));
    AllWorkersSleep(s, n);
    assert Sleepers(n) + s.workers[n..] == Sleepers(n);
    ProducerPuts(a, Some(Worker(0)));
    var b := Wake(FirstPut(a), Some(Worker(0)));
    ProducerSleeps(b);
    var c := b.(producer := PAsleep(b.producer.i));
    e := SignalGoesAstray(c);
    LeadsOn(s, a, b);
    LeadsOn(s, b, c);
    LeadsOn(s, c, e);
  }

  lemma SignalGoesAstray(c: State) returns (e: State)
    requires |c.workers| >= 2 && c.workers[0] == WLock && (forall k :: 1 <= k < |c.workers| ==> c.workers[k] == WAsleep)
    requires c.lock.None? && c.flag == 1 && c.producer.PAsleep?
    ensures Leads(c, e) && Stuck(e)
  {
    WorkerTakes(c, 0, 1);
    var d := SetWorker(FirstTake(c, 0), 1, WLock);
    WorkerSleeps(d, 1);
    var f := SetWorker(d, 1, WAsleep);
    LeadsStep(f, Go(Worker(0), None));
    var g := Apply(f, Go(Worker(0), None));
    WorkerSleeps(g, 0);
    e := SetWorker(g, 0, WAsleep);
    LeadsOn(c, d, f);
    LeadsOn(c, f, g);
    LeadsOn(c, g, e);
  }

  /** With no worker at all the producer sleeps on its first number. */
  lemma NoWorkersStick(s: State) returns (e: State)
    requires Init(s) && s.left < s.right && |s.workers| == 0
    ensures Leads(s, e) && Stuck(e)
  {
    ProducerPuts(s, None);
    var b := FirstPut(s);
    ProducerSleeps(b);
    e := b.(producer := PAsleep(b.producer.i));
    LeadsOn(s, b, e);
  }

  lemma OneWorkerNeverSticks(s: State, e: State)
    requires Init(s) && |s.workers| == 1 && Leads(s, e)
    ensures !Stuck(e)
  {
    var moves :| Feasible(s, moves) && After(s, moves) == e;
    SoleWorkerNeverStuck(s, moves);
  }

  /** Nobody sleeps once the end is announced, and the producer never sleeps on its first number. */
  predicate SleepOk(s: State) {
    && (s.flag == -1 ==> forall k :: 0 <= k < |s.workers| ==> !s.workers[k].WAsleep?)
    && (s.producer.PAsleep? ==> s.producer.i > s.left)
  }

  lemma ProducerKeepsSleepOk(s: State, wakes: Option<Who>)
    requires Inv(s) && SleepOk(s) && ProducerCan(s, wakes)
    ensures SleepOk(ProducerStep(s, wakes))
  {
  }

  lemma WorkerKeepsSleepOk(s: State, k: nat, wakes: Option<Who>)
    requires Inv(s) && SleepOk(s) && WorkerCan(s, k, wakes)
    ensures SleepOk(WorkerStep(s, k, wakes))
  {
  }

  lemma {:induction false} RunKeepsSleepOk(s: State, moves: seq<Move>)
    requires Inv(s) && SleepOk(s) && Feasible(s, moves)
    ensures SleepOk(After(s, moves))
    decreases |moves|
  {
    if moves != [] {
      match moves[0] {
        case Go(Producer, wakes) => ProducerKeepsSleepOk(s, wakes);
        case Go(Worker(k), wakes) => WorkerKeepsSleepOk(s, k, wakes);
        case Spurious(w) =>
      }
      StepKeepsInv(s, moves[0]);
      RunKeepsSleepOk(Apply(s, moves[0]), moves[1..]);
    }
  }

  lemma ReachedOk(s: State, e: State)
    requires Init(s) && Leads(s, e)
    ensures Inv(e) && SleepOk(e) && SameSetup(s, e)
  {
    var moves :| Feasible(s, moves) && After(s, moves) == e;
    RunKeepsInv(s, moves);
    RunKeepsSleepOk(s, moves);
  }

  /** The program can get stuck exactly when there is a number to put and not exactly one worker. */
  lemma StuckUnlessOneWorker(s: State)
    requires Init(s)
    ensures (exists e :: Leads(s, e) && Stuck(e)) <==> s.left < s.right && |s.workers| != 1
  {
    if s.left >= s.right {
      forall e | Leads(s, e) ensures !Stuck(e) {
        ReachedOk(s, e);
      }
    } else if |s.workers| == 1 {
      forall e | Leads(s, e) ensures !Stuck(e) {
        OneWorkerNeverSticks(s, e);
      }
    } else if |s.workers| == 0 {
      var e := NoWorkersStick(s);
    } else {
      var e := ManyWorkersCanStick(s);
    }
  }

  /** A spurious wakeup ends a sleep, and sends its thread after the lock again. */
  lemma WakeupWakes(s: State, w: Who)
    requires Enabled(s, Spurious(w))
    ensures var s' := Apply(s, Spurious(w)); !Asleep(s', w) && s'.lock == s.lock && s'.flag == s.flag && s'.num == s.num
    ensures w.Producer? ==> Apply(s, Spurious(w)).producer == PLock(s.producer.i)
    ensures w.Worker? ==> Apply(s, Spurious(w)).workers == s.workers[w.k := WLock]
  {
  }

  // ---------- progress ----------

  /** Somebody can move of its own accord. */
  ghost predicate Moves(s: State) {
    exists m :: Enabled(s, m) && m.Go?
  }

  /** Whom a signal wakes, in every state: a sleeper, if there is one. */
  lemma SignalPossible(s: State) returns (wakes: Option<Who>)
    ensures SignalOk(s, wakes)
  {
    if s.producer.PAsleep? {
      return Some(Producer);
    }
    if k :| 0 <= k < |s.workers| && s.workers[k].WAsleep? {
      return Some(Worker(k));
    }
    return None;
  }

  /** Whoever holds the lock can go on. */
  lemma HolderMoves(s: State)
    requires Inv(s) && s.lock.Some?
    requires s.lock.value.Worker? ==> s.lock.value.k < |s.workers| && WorkerHolds(s.workers[s.lock.value.k])
    ensures Moves(s)
  {
    var wakes := SignalPossible(s);
    assert Enabled(s, Go(s.lock.value, wakes));
  }

  predicate WorkerHolds(pc: WorkerPC) {
    pc.WTest? || pc.Took? || pc.Leaving?
  }

  /** A lock that is held is held by somebody. */
  predicate OwnerExists(s: State) {
    s.lock.Some? && s.lock.value.Worker? ==>
      s.lock.value.k < |s.workers| && WorkerHolds(s.workers[s.lock.value.k])
  }

  lemma StepKeepsOwner(s: State, m: Move)
    requires Inv(s) && OwnerExists(s) && Enabled(s, m)
    ensures OwnerExists(Apply(s, m))
  {
  }

  lemma {:induction false} RunKeepsOwner(s: State, moves: seq<Move>)
    requires Inv(s) && OwnerExists(s) && Feasible(s, moves)
    ensures OwnerExists(After(s, moves))
    decreases |moves|
  {
    if moves != [] {
      StepKeepsOwner(s, moves[0]);
      StepKeepsInv(s, moves[0]);
      RunKeepsOwner(Apply(s, moves[0]), moves[1..]);
    }
  }

  lemma WorkerMoves(s: State, k: nat)
    requires s.lock.None? && k < |s.workers| && (s.workers[k].WLock? || s.workers[k].Testing?)
    ensures Moves(s)
  {
    assert Enabled(s, Go(Worker(k), None));
  }

  /** With the lock free, whoever is neither asleep nor done can move. */
  lemma MovesWithLockFree(s: State)
    requires Inv(s) && SleepOk(s) && s.lock.None? && !s.producer.Done? && !Stuck(s)
    ensures Moves(s)
  {
    if s.producer.PAsleep? {
      var k :| 0 <= k < |s.workers| && !s.workers[k].WAsleep?;
      assert WorkerOk(s, k);
      WorkerMoves(s, k);
    } else if s.producer.Joining? && exists k :: 0 <= k < |s.workers| && !s.workers[k].Exited? {
      var k :| 0 <= k < |s.workers| && !s.workers[k].Exited?;
      WorkerMoves(s, k);
    } else {
      assert Enabled(s, Go(Producer, None));
    }
  }

  /** In every reachable state before the end, somebody can move of its own accord, unless everybody sleeps. */
  lemma MovesUnlessStuck(s: State, e: State)
    requires Init(s) && Leads(s, e) && !e.producer.Done?
    ensures Moves(e) <==> !Stuck(e)
  {
    ReachedOk(s, e);
    var moves :| Feasible(s, moves) && After(s, moves) == e;
    RunKeepsOwner(s, moves);
    if Stuck(e) {
      forall m | Enabled(e, m) ensures !m.Go? {
        StuckOnlySpuriousWakes(e, m);
      }
    } else if e.lock.Some? {
      HolderMoves(e);
    } else {
      MovesWithLockFree(e);
    }
  }

  // ---------- the end can be reached ----------

  /** Between two numbers: nobody sleeps, all workers wait for work, the producer is at `i`. */
  predicate Between(s: State, i: int) {
    s.lock.None? && s.flag == 0 && s.producer == PLock(i) && forall k :: 0 <= k < |s.workers| ==> s.workers[k].WLock?
  }

  lemma Leads3(s: State, m0: Move, m1: Move, m2: Move)
    requires Enabled(s, m0) && Enabled(Apply(s, m0), m1) && Enabled(Apply(Apply(s, m0), m1), m2)
    ensures Leads(s, Apply(Apply(Apply(s, m0), m1), m2))
  {
    Leads2(s, m0, m1);
    LeadsStep(Apply(Apply(s, m0), m1), m2);
    LeadsOn(s, Apply(Apply(s, m0), m1), Apply(Apply(Apply(s, m0), m1), m2));
  }

  /** A worker takes the number, and lets the lock go. */
  lemma WorkerGets(s: State, k: nat)
    requires k < |s.workers| && s.workers[k].WLock? && s.lock.None? && s.flag == 1 && SignalOk(s, None)
    ensures Leads(s, FirstTake(s, k))
  {
    var m := Go(Worker(k), None);
    Leads3(s, m, m, m);
    assert Apply(Apply(Apply(s, m), m), m) == FirstTake(s, k);
  }

  lemma WorkerTests(s: State, k: nat) returns (e: State)
    requires k < |s.workers| && s.workers[k].Testing?
    ensures Leads(s, e) && SameSetup(s, e) && e.lock == s.lock && e.flag == s.flag && e.producer == s.producer
    ensures e.workers == s.workers[k := WLock]
  {
    LeadsStep(s, Go(Worker(k), None));
    e := Apply(s, Go(Worker(k), None));
  }

  /** One number goes all the way. */
  lemma OneNumber(s: State, i: int) returns (e: State)
    requires Between(s, i) && i < s.right && |s.workers| >= 1
    ensures Leads(s, e) && Between(e, i + 1) && SameSetup(s, e)
  {
    ProducerPuts(s, None);
    var a := FirstPut(s);
    WorkerGets(a, 0);
    var b := FirstTake(a, 0);
    e := WorkerTests(b, 0);
    LeadsOn(s, a, b);
    LeadsOn(s, b, e);
  }

  lemma {:induction false} AllNumbers(s: State, i: int) returns (e: State, j: int)
    requires Between(s, i) && (i < s.right ==> |s.workers| >= 1)
    ensures Leads(s, e) && Between(e, j) && j >= s.right && SameSetup(s, e)
    decreases s.right - i
  {
    if i >= s.right {
      assert Feasible(s, []) && After(s, []) == s;
      return s, i;
    }
    var a := OneNumber(s, i);
    e, j := AllNumbers(a, i + 1);
    LeadsOn(s, a, e);
  }

  /** The producer announces the end and lets the lock go. */
  lemma ProducerCloses(s: State, i: int)
    requires Between(s, i) && i >= s.right
    ensures Leads(s, s.(flag := -1, producer := Joining))
  {
    var m := Go(Producer, None);
    assert WakeAll(s.workers) == s.workers;
    Leads2(s, m, m);
    var b := Apply(Apply(s, m), m);
    LeadsStep(b, m);
    assert Apply(b, m) == s.(flag := -1, producer := Joining);
    LeadsOn(s, b, Apply(b, m));
  }

  lemma WorkerExits(s: State, k: nat)
    requires k < |s.workers| && s.workers[k].WLock? && s.lock.None? && s.flag == -1
    ensures Leads(s, SetWorker(s, k, Exited))
  {
    var m := Go(Worker(k), None);
    Leads3(s, m, m, m);
    assert Apply(Apply(Apply(s, m), m), m) == SetWorker(s, k, Exited);
  }

  lemma {:induction false} AllWorkersExit(s: State, n: nat) returns (e: State)
    requires n <= |s.workers| && s.lock.None? && s.flag == -1 && s.producer.Joining?
    requires forall k :: 0 <= k < |s.workers| ==> s.workers[k] == if k < n then Exited else WLock
    ensures Leads(s, e) && e.producer.Joining? && forall k :: 0 <= k < |e.workers| ==> e.workers[k].Exited?
    decreases |s.workers| - n
  {
    if n == |s.workers| {
      assert Feasible(s, []) && After(s, []) == s;
      return s;
    }
    WorkerExits(s, n);
    e := AllWorkersExit(SetWorker(s, n, Exited), n + 1);
    LeadsOn(s, SetWorker(s, n, Exited), e);
  }

  /** With a worker, or nothing to do, a run gets past its joins. */
  lemma CanFinish(s: State) returns (e: State)
    requires Init(s) && (s.left < s.right ==> |s.workers| >= 1)
    ensures Leads(s, e) && e.producer.Done?
  {
    var a, j := AllNumbers(s, s.left);
    ProducerCloses(a, j);
    var b := a.(flag := -1, producer := Joining);
    var c := AllWorkersExit(b, 0);
    LeadsStep(c, Go(Producer, None));
    e := Apply(c, Go(Producer, None));
    LeadsOn(s, a, b);
    LeadsOn(s, b, c);
    LeadsOn(s, c, e);
  }

  /** Without a worker, no number is ever taken. */
  lemma NoWorkersNoEnd(s: State, e: State)
    requires Init(s) && s.left < s.right && |s.workers| == 0 && Leads(s, e)
    ensures !e.producer.Done?
  {
    ReachedOk(s, e);
    assert e.producer.Done? ==> s.left in e.owner;
  }

  /** Some run gets past its joins if and only if there is a worker, or nothing to do. */
  lemma FinishesIffWorkers(s: State)
    requires Init(s)
    ensures (exists e :: Leads(s, e) && e.producer.Done?) <==> s.left >= s.right || |s.workers| >= 1
  {
    if s.left >= s.right || |s.workers| >= 1 {
      var e := CanFinish(s);
    } else {
      forall e | Leads(s, e) ensures !e.producer.Done? {
        NoWorkersNoEnd(s, e);
      }
    }
  }
}
