/** What both ring printers are to print: thread 0, 1, ..., n - 1, 0, 1, ... */
module Rings {
  /** The pure successor function. */
  function Next(n: nat, i: nat): (r: nat)
    requires i < n
    ensures r < n
  {
    if i + 1 == n then 0 else i + 1
  }

  /** It is the remainder the threads compute. */
  lemma NextIsRemainder(n: nat, i: nat)
    requires i < n
    ensures Next(n, i) == (i + 1) % n
  {
  }

  /** Whose turn it is once `k` letters are out. */
  function Turn(n: nat, k: nat): (r: nat)
    requires n > 0
    ensures r < n
  {
    if k == 0 then 0 else Next(n, Turn(n, k - 1))
  }

  /** It is the count of letters modulo the number of threads. */
  lemma {:induction false} TurnIsRemainder(n: nat, k: nat) returns (laps: nat)
    requires n > 0
    ensures k == laps * n + Turn(n, k)
  {
    if k == 0 {
      return 0;
    }
    laps := TurnIsRemainder(n, k - 1);
    if Turn(n, k) == 0 {
      assert (laps + 1) * n == laps * n + n;
      laps := laps + 1;
    }
  }

  predicate InTurn(n: nat, out: seq<nat>)
    requires n > 0
  {
    forall k :: 0 <= k < |out| ==> out[k] == Turn(n, k)
  }
}

/** The ring of locks: the main thread locks every lock, starts the threads, and
    opens the first lock; a thread passes its own lock, prints, and opens the next
    thread's lock. */
module BatonRing {
  import opened Rings

  datatype Lock = Raw | Open | Closed
  datatype PC = Absent | Waiting | Printing | Passing
  datatype MainPC = Making(i: nat) | Locking(i: nat) | Starting(i: nat) | Launched

  datatype State = State(n: nat, main: MainPC, locks: seq<Lock>, pcs: seq<PC>, out: seq<nat>)

  datatype Move = Main | Thread(j: nat)

  predicate Shaped(s: State) {
    s.n > 0 && |s.locks| == |s.pcs| == s.n
  }

  predicate Enabled(s: State, m: Move) {
    Shaped(s) &&
    match m
    case Main =>
      (match s.main
       case Making(i) => i <= s.n
       case Locking(i) => i < s.n && s.locks[i].Open?
       case Starting(i) => i < s.n
       case Launched => false)
    case Thread(j) => j < s.n && !s.pcs[j].Absent? && (s.pcs[j].Waiting? ==> s.locks[j].Open?)
  }

  function Apply(s: State, m: Move): State
    requires Enabled(s, m)
  {
    match m
    case Main =>
      (match s.main
       case Making(i) =>
         if i < s.n then s.(locks := s.locks[i := Open], main := Locking(i))
         else s.(locks := s.locks[0 := Open], main := Launched)
       case Locking(i) => s.(locks := s.locks[i := Closed], main := Starting(i))
       case Starting(i) => s.(pcs := s.pcs[i := Waiting], main := Making(i + 1)))
    case Thread(j) =>
      (match s.pcs[j]
       case Waiting => s.(locks := s.locks[j := Closed], pcs := s.pcs[j := Printing])
       case Printing => s.(out := s.out + [j], pcs := s.pcs[j := Passing])
       case Passing => s.(locks := s.locks[(j + 1) % s.n := Open], pcs := s.pcs[j := Waiting]))
  }

  predicate Init(s: State) {
    && Shaped(s) && s.main == Making(0) && s.out == []
    && (forall j :: 0 <= j < s.n ==> s.locks[j].Raw? && s.pcs[j].Absent?)
  }

  predicate Steps(p: State, e: State, m: Move) {
    Enabled(p, m) && e == Apply(p, m)
  }

  ghost predicate Follows(p: State, e: State) {
    exists m :: Steps(p, e, m)
  }

  /** The states of a run, one after another. */
  ghost predicate IsRun(run: seq<State>) {
    run != [] && forall i :: 0 <= i < |run| - 1 ==> Follows(run[i], run[i + 1])
  }

  function Last(run: seq<State>): State
    requires run != []
  {
    run[|run| - 1]
  }

  function Made(main: MainPC, n: nat): nat {
    match main
    case Making(i) => i
    case Locking(i) => i
    case Starting(i) => i
    case Launched => n
  }

  /** Before the launch: the first locks are closed, their threads wait, and nothing is printed. */
  predicate BeforeLaunch(s: State)
    requires Shaped(s)
  {
    var made := Made(s.main, s.n);
    && made <= s.n && s.out == []
    && (forall j :: 0 <= j < s.n ==> s.pcs[j] == if j < made then Waiting else Absent)
    && (forall j :: 0 <= j < made ==> s.locks[j].Closed?)
    && (s.main.Locking? ==> made < s.n && s.locks[made].Open?)
    && (s.main.Starting? ==> made < s.n && s.locks[made].Closed?)
  }

  /** Who has the baton, and in which form: an open lock (0), a thread past its lock that has still to
      print (1), or one that has still to pass it on (2). */
  predicate BatonAt(s: State, j: nat, form: nat)
    requires Shaped(s)
  {
    && j < s.n && form <= 2
    && (forall i :: 0 <= i < s.n ==> s.locks[i] == if i == j && form == 0 then Open else Closed)
    && (forall i :: 0 <= i < s.n ==>
          s.pcs[i] == if i == j && form == 1 then Printing else if i == j && form == 2 then Passing else Waiting)
  }

  /** Exactly one baton, and it is with the thread whose turn it is, or with the one before it, to be passed on. */
  ghost predicate OneBaton(s: State)
    requires Shaped(s)
  {
    var turn := Turn(s.n, |s.out|);
    BatonAt(s, turn, 0) || BatonAt(s, turn, 1) || exists j: nat :: BatonAt(s, j, 2) && Next(s.n, j) == turn
  }

  ghost predicate Inv(s: State) {
    && Shaped(s) && InTurn(s.n, s.out)
    && (if s.main.Launched? then OneBaton(s) else BeforeLaunch(s))
  }

  lemma MainKeeps(s: State)
    requires Inv(s) && Enabled(s, Main)
    ensures Inv(Apply(s, Main))
  {
    if s.main.Making? && s.main.i == s.n {
      assert BatonAt(Apply(s, Main), 0, 0);
    }
  }

  /** The form of the baton when a thread at `pc` is the one that can move. */
  function Form(pc: PC): nat {
    if pc.Printing? then 1 else if pc.Passing? then 2 else 0
  }

  /** Only the thread that has the baton can move, so the ring is launched and the baton is with it. */
  lemma MoverHasBaton(s: State, j: nat)
    requires Inv(s) && Enabled(s, Thread(j))
    ensures s.main.Launched? && BatonAt(s, j, Form(s.pcs[j]))
    ensures Turn(s.n, |s.out|) == if s.pcs[j].Passing? then Next(s.n, j) else j
  {
  }

  /** The baton goes from the open lock to the thread that passes it, through its print, to the next lock. */
  lemma BatonMoves(s: State, j: nat)
    requires Shaped(s) && InTurn(s.n, s.out) && s.main.Launched? && Enabled(s, Thread(j))
    requires BatonAt(s, j, Form(s.pcs[j]))
    ensures var s' := Apply(s, Thread(j));
      if s.pcs[j].Passing? then BatonAt(s', Next(s.n, j), 0) else BatonAt(s', j, Form(s.pcs[j]) + 1)
  {
    NextIsRemainder(s.n, j);
  }

  lemma ThreadKeeps(s: State, j: nat)
    requires Inv(s) && Enabled(s, Thread(j))
    ensures s.main.Launched? && Inv(Apply(s, Thread(j)))
    ensures s.pcs[j].Passing? ==> s.locks[(j + 1) % s.n].Closed?
  {
    MoverHasBaton(s, j);
    BatonMoves(s, j);
    NextIsRemainder(s.n, j);
  }

  lemma StepKeeps(s: State, m: Move)
    requires Inv(s) && Enabled(s, m)
    ensures Inv(Apply(s, m)) && Apply(s, m).n == s.n
  {
    match m
    case Main => MainKeeps(s);
    case Thread(j) => ThreadKeeps(s, j);
  }

  /** Some schedule prints exactly `w`. */
  ghost predicate Prints(s: State, w: seq<nat>) {
    exists run :: IsRun(run) && run[0] == s && Last(run).out == w
  }

  lemma {:induction false} RunInv(run: seq<State>, i: nat)
    requires IsRun(run) && Init(run[0]) && i < |run|
    ensures Inv(run[i]) && run[i].n == run[0].n
  {
    if i > 0 {
      RunInv(run, i - 1);
      assert Follows(run[i - 1], run[i - 1 + 1]);
      var m :| Steps(run[i - 1], run[i], m);
      StepKeeps(run[i - 1], m);
    }
  }

  /** For any schedule and at any moment of it, what is printed is in turn; after the launch there is exactly
      one baton; and every unlock by a thread opens a lock that is closed. */
  lemma PrintsInTurn(run: seq<State>, i: nat)
    requires IsRun(run) && Init(run[0]) && i < |run|
    ensures var e := run[i];
      && Shaped(e) && InTurn(e.n, e.out) && (e.main.Launched? ==> OneBaton(e))
      && forall j: nat :: j < e.n && e.pcs[j].Passing? ==> e.locks[(j + 1) % e.n].Closed?
  {
    RunInv(run, i);
    var e := run[i];
    forall j: nat | j < e.n && e.pcs[j].Passing? ensures e.locks[(j + 1) % e.n].Closed? {
      ThreadKeeps(e, j);
    }
  }

  lemma Grow(run: seq<State>, e: State, m: Move)
    requires IsRun(run) && Steps(Last(run), e, m)
    ensures IsRun(run + [e]) && Last(run + [e]) == e && (run + [e])[0] == run[0]
  {
    var run' := run + [e];
    forall i | 0 <= i < |run'| - 1 ensures Follows(run'[i], run'[i + 1]) {
      if i < |run| - 1 { assert Follows(run[i], run[i + 1]); } else { assert Steps(run'[i], run'[i + 1], m); }
    }
  }

  /** Making, locking and starting one thread. */
  lemma MakeOne(a: State) returns (b: State, c: State, e: State)
    requires Inv(a) && a.main.Making? && a.main.i < a.n
    ensures ThreeSteps(a, b, c, e, Main) && Inv(e) && e.main == Making(a.main.i + 1) && e.n == a.n
  {
    b := Apply(a, Main);
    c := Apply(b, Main);
    e := Apply(c, Main);
    MainKeeps(a);
    MainKeeps(b);
    MainKeeps(c);
  }

  predicate ThreeSteps(a: State, b: State, c: State, e: State, m: Move) {
    Steps(a, b, m) && Steps(b, c, m) && Steps(c, e, m)
  }

  lemma Grow3(run: seq<State>, b: State, c: State, e: State, m: Move) returns (run': seq<State>)
    requires IsRun(run) && ThreeSteps(Last(run), b, c, e, m)
    ensures IsRun(run') && Last(run') == e && run'[0] == run[0]
  {
    Grow(run, b, m);
    Grow(run + [b], c, m);
    Grow(run + [b] + [c], e, m);
    run' := run + [b] + [c] + [e];
  }

  /** The launch is always possible. */
  lemma {:induction false} CanMake(s: State, i: nat) returns (run: seq<State>)
    requires Init(s) && i <= s.n
    ensures IsRun(run) && run[0] == s && Inv(Last(run)) && Last(run).main == Making(i) && Last(run).n == s.n
  {
    if i == 0 {
      return [s];
    }
    run := CanMake(s, i - 1);
    var b, c, e := MakeOne(Last(run));
    run := Grow3(run, b, c, e, Main);
  }

  /** A launched ring at rest: the baton is the open lock of the thread whose turn it is. */
  ghost predicate Resting(s: State) {
    Inv(s) && s.main.Launched? && BatonAt(s, Turn(s.n, |s.out|), 0)
  }

  lemma Launch(a: State) returns (e: State)
    requires Inv(a) && a.main == Making(a.n)
    ensures Steps(a, e, Main) && Resting(e) && e.out == [] && e.n == a.n
  {
    MainKeeps(a);
    e := Apply(a, Main);
  }

  lemma CanLaunch(s: State) returns (run: seq<State>)
    requires Init(s)
    ensures IsRun(run) && run[0] == s && Resting(Last(run)) && Last(run).out == [] && Last(run).n == s.n
  {
    run := CanMake(s, s.n);
    var e := Launch(Last(run));
    Grow(run, e, Main);
    run := run + [e];
  }

  /** One turn of a ring at rest: pass the lock, print, pass the baton on. */
  lemma OneTurn(a: State) returns (b: State, c: State, e: State)
    requires Resting(a)
    ensures ThreeSteps(a, b, c, e, Thread(Turn(a.n, |a.out|)))
    ensures Resting(e) && |e.out| == |a.out| + 1 && e.n == a.n
  {
    var j := Turn(a.n, |a.out|);
    NextIsRemainder(a.n, j);
    b := Apply(a, Thread(j));
    c := Apply(b, Thread(j));
    e := Apply(c, Thread(j));
    ThreadKeeps(a, j);
    ThreadKeeps(b, j);
    ThreadKeeps(c, j);
    assert e.locks[Next(a.n, j)].Open?;
  }

  /** And so is every trace in turn. */
  lemma {:induction false} CanPrint(s: State, len: nat) returns (run: seq<State>)
    requires Init(s)
    ensures IsRun(run) && run[0] == s && Resting(Last(run)) && Last(run).n == s.n && |Last(run).out| == len
  {
    if len == 0 {
      run := CanLaunch(s);
      return;
    }
    run := CanPrint(s, len - 1);
    var j := Turn(Last(run).n, |Last(run).out|);
    var b, c, e := OneTurn(Last(run));
    run := Grow3(run, b, c, e, Thread(j));
  }

  /** What it can print is exactly what is in turn. */
  lemma Traces(s: State, w: seq<nat>)
    requires Init(s)
    ensures Prints(s, w) <==> InTurn(s.n, w)
  {
    if Prints(s, w) {
      var run :| IsRun(run) && run[0] == s && Last(run).out == w;
      RunInv(run, |run| - 1);
    }
    if InTurn(s.n, w) {
      var run := CanPrint(s, |w|);
      RunInv(run, |run| - 1);
      assert Last(run).out == w;
    }
  }

  // ---------- the printing never stops ----------

  /** How far the next letter is. */
  function Far(s: State): nat
    requires Shaped(s)
  {
    match s.main
    case Making(i) => if i <= s.n then 3 * (s.n - i) + 7 else 0
    case Locking(i) => if i <= s.n then 3 * (s.n - i) + 6 else 0
    case Starting(i) => if i <= s.n then 3 * (s.n - i) + 5 else 0
    case Launched =>
      var turn := Turn(s.n, |s.out|);
      if s.pcs[turn].Printing? then 1 else if s.locks[turn].Open? then 2 else 3
  }

  lemma MainGoesOn(s: State) returns (e: State)
    requires Inv(s) && !s.main.Launched?
    ensures Steps(s, e, Main) && e.out == s.out && e.n == s.n && Inv(e) && Far(e) < Far(s)
  {
    e := Apply(s, Main);
    MainKeeps(s);
  }

  lemma BatonGoesOn(s: State, j: nat, form: nat) returns (e: State)
    requires Inv(s) && s.main.Launched? && BatonAt(s, j, form)
    requires Turn(s.n, |s.out|) == if form == 2 then Next(s.n, j) else j
    ensures Steps(s, e, Thread(j)) && Inv(e) && e.n == s.n
    ensures if form == 1 then |e.out| == |s.out| + 1 else e.out == s.out && Far(e) < Far(s)
  {
    e := Apply(s, Thread(j));
    ThreadKeeps(s, j);
    BatonMoves(s, j);
  }

  /** In every state somebody can step, and the next letter gets out or gets nearer. */
  lemma GoesOn(s: State) returns (e: State, m: Move)
    requires Inv(s)
    ensures Steps(s, e, m) && Inv(e) && e.n == s.n
    ensures |e.out| == |s.out| + 1 || (e.out == s.out && Far(e) < Far(s))
  {
    if !s.main.Launched? {
      m := Main;
      e := MainGoesOn(s);
    } else {
      var turn := Turn(s.n, |s.out|);
      var j, form := turn, 0;
      if BatonAt(s, turn, 1) {
        form := 1;
      } else if !BatonAt(s, turn, 0) {
        j, form :| BatonAt(s, j, 2) && Next(s.n, j) == turn && form == 2;
      }
      m := Thread(j);
      e := BatonGoesOn(s, j, form);
    }
  }

  lemma {:induction false} PrintsOneMore(run: seq<State>) returns (run': seq<State>)
    requires IsRun(run) && Inv(Last(run))
    ensures IsRun(run') && run <= run' && Inv(Last(run')) && |Last(run').out| == |Last(run).out| + 1
    decreases Far(Last(run))
  {
    var e, m := GoesOn(Last(run));
    Grow(run, e, m);
    run' := run + [e];
    if |e.out| == |Last(run).out| {
      run' := PrintsOneMore(run');
    }
  }

  /** Whatever the schedule so far, the next letter can still be printed. */
  lemma NeverStuck(run: seq<State>) returns (run': seq<State>)
    requires IsRun(run) && Init(run[0])
    ensures IsRun(run') && run <= run' && |Last(run').out| == |Last(run).out| + 1
  {
    RunInv(run, |run| - 1);
    run' := PrintsOneMore(run);
  }
}

/** The turn counter: one lock, and a status that says whose turn it is. */
module TurnRing {
  import opened Rings

  datatype PC = Locking | Reducing | Comparing | Writing | Counting | Unlocking

  datatype State = State(n: nat, locked: bool, status: nat, pcs: seq<PC>, out: seq<nat>)

  predicate Enabled(s: State, j: nat) {
    s.n > 0 && |s.pcs| == s.n && j < s.n && (s.pcs[j].Locking? ==> !s.locked)
  }

  function Apply(s: State, j: nat): State
    requires Enabled(s, j)
  {
    match s.pcs[j]
    case Locking => s.(locked := true, pcs := s.pcs[j := Reducing])
    case Reducing => s.(status := s.status % s.n, pcs := s.pcs[j := Comparing])
    case Comparing => s.(pcs := s.pcs[j := if s.status == j then Writing else Unlocking])
    case Writing => s.(out := s.out + [j], pcs := s.pcs[j := Counting])
    case Counting => s.(status := s.status + 1, pcs := s.pcs[j := Unlocking])
    case Unlocking => s.(locked := false, pcs := s.pcs[j := Locking])
  }

  predicate Init(s: State) {
    && s.n > 0 && |s.pcs| == s.n && !s.locked && s.status == 0 && s.out == []
    && forall j :: 0 <= j < s.n ==> s.pcs[j].Locking?
  }

  predicate Steps(p: State, e: State, j: nat) {
    Enabled(p, j) && e == Apply(p, j)
  }

  ghost predicate Follows(p: State, e: State) {
    exists j :: Steps(p, e, j)
  }

  /** The states of a run, one after another. */
  ghost predicate IsRun(run: seq<State>) {
    run != [] && forall i :: 0 <= i < |run| - 1 ==> Follows(run[i], run[i + 1])
  }

  function Last(run: seq<State>): State
    requires run != []
  {
    run[|run| - 1]
  }

  /** Only `j` is past the lock, if anybody is. */
  predicate Alone(s: State, j: nat)
    requires |s.pcs| == s.n
  {
    j < s.n && forall i :: 0 <= i < s.n && i != j ==> s.pcs[i].Locking?
  }

  /** The status, reduced, is the turn; but between a write and its count it is the writer's, whose turn has
      just passed. */
  predicate StatusOk(s: State, j: nat)
    requires s.n > 0 && |s.pcs| == s.n && j < s.n
  {
    var turn := Turn(s.n, |s.out|);
    match s.pcs[j]
    case Locking => s.status <= s.n && (if s.status == s.n then 0 else s.status) == turn
    case Reducing => s.status <= s.n && (if s.status == s.n then 0 else s.status) == turn
    case Comparing => s.status == turn
    case Writing => s.status == turn == j
    case Counting => s.status == j && Next(s.n, j) == turn
    case Unlocking => s.status <= s.n && (if s.status == s.n then 0 else s.status) == turn
  }

  predicate At(s: State, j: nat)
    requires s.n > 0 && |s.pcs| == s.n
  {
    Alone(s, j) && StatusOk(s, j) && (s.locked <==> !s.pcs[j].Locking?)
  }

  ghost predicate Inv(s: State) {
    && s.n > 0 && |s.pcs| == s.n && InTurn(s.n, s.out)
    && exists j: nat :: At(s, j)
  }

  /** Whoever can step is the one who is past the lock, or finds everybody before it. */
  lemma StepperIsAlone(s: State, j: nat)
    requires Inv(s) && Enabled(s, j)
    ensures At(s, j)
  {
    var i: nat :| At(s, i);
    if i != j {
      assert s.pcs[j].Locking? && s.pcs[i].Locking?;
    }
  }

  lemma ReduceIsRemainder(n: nat, status: nat)
    requires n > 0 && status <= n
    ensures status % n == if status == n then 0 else status
  {
  }

  lemma StepKeeps(s: State, j: nat)
    requires Inv(s) && Enabled(s, j)
    ensures Inv(Apply(s, j)) && Apply(s, j).n == s.n
  {
    StepperIsAlone(s, j);
    if s.pcs[j].Reducing? { ReduceIsRemainder(s.n, s.status); }
    assert At(Apply(s, j), j);
  }

  /** Some schedule prints exactly `w`. */
  ghost predicate Prints(s: State, w: seq<nat>) {
    exists run :: IsRun(run) && run[0] == s && Last(run).out == w
  }

  lemma {:induction false} RunInv(run: seq<State>, i: nat)
    requires IsRun(run) && Init(run[0]) && i < |run|
    ensures Inv(run[i]) && run[i].n == run[0].n
  {
    if i == 0 {
      assert At(run[0], 0);
    } else {
      RunInv(run, i - 1);
      assert Follows(run[i - 1], run[i - 1 + 1]);
      var j :| Steps(run[i - 1], run[i], j);
      StepKeeps(run[i - 1], j);
    }
  }

  lemma Grow(run: seq<State>, e: State, j: nat)
    requires IsRun(run) && Steps(Last(run), e, j)
    ensures IsRun(run + [e]) && Last(run + [e]) == e && (run + [e])[0] == run[0]
  {
    var run' := run + [e];
    forall i | 0 <= i < |run'| - 1 ensures Follows(run'[i], run'[i + 1]) {
      if i < |run| - 1 { assert Follows(run[i], run[i + 1]); } else { assert Steps(run'[i], run'[i + 1], j); }
    }
  }

  ghost predicate Resting(s: State) {
    Inv(s) && !s.locked && forall j :: 0 <= j < s.n ==> s.pcs[j].Locking?
  }

  predicate ThreeSteps(a: State, b: State, c: State, e: State, j: nat) {
    Steps(a, b, j) && Steps(b, c, j) && Steps(c, e, j)
  }

  lemma Grow3(run: seq<State>, b: State, c: State, e: State, j: nat) returns (run': seq<State>)
    requires IsRun(run) && ThreeSteps(Last(run), b, c, e, j)
    ensures IsRun(run') && Last(run') == e && run'[0] == run[0]
  {
    Grow(run, b, j);
    Grow(run + [b], c, j);
    Grow(run + [b] + [c], e, j);
    run' := run + [b] + [c] + [e];
  }

  /** The thread whose turn it is finds out. */
  lemma StartTurn(a: State, j: nat) returns (b: State, c: State, d: State)
    requires Resting(a) && j == Turn(a.n, |a.out|)
    ensures ThreeSteps(a, b, c, d, j)
    ensures Inv(d) && d.pcs[j].Writing? && Alone(d, j) && d.locked && d.n == a.n && d.out == a.out
  {
    StepperIsAlone(a, j);
    ReduceIsRemainder(a.n, a.status);
    b := Apply(a, j);
    c := Apply(b, j);
    d := Apply(c, j);
    StepKeeps(a, j);
    StepKeeps(b, j);
    StepKeeps(c, j);
  }

  /** It writes, counts, and lets go. */
  lemma FinishTurn(d: State, j: nat) returns (b: State, c: State, e: State)
    requires Inv(d) && j < d.n && d.pcs[j].Writing? && Alone(d, j) && d.locked
    ensures ThreeSteps(d, b, c, e, j) && Resting(e) && |e.out| == |d.out| + 1 && e.n == d.n
  {
    b := Apply(d, j);
    c := Apply(b, j);
    e := Apply(c, j);
    StepKeeps(d, j);
    StepKeeps(b, j);
    StepKeeps(c, j);
  }

  lemma GoRound(run: seq<State>) returns (run': seq<State>)
    requires IsRun(run) && Resting(Last(run))
    ensures IsRun(run') && run'[0] == run[0] && Resting(Last(run'))
    ensures |Last(run').out| == |Last(run).out| + 1 && Last(run').n == Last(run).n
  {
    var j := Turn(Last(run).n, |Last(run).out|);
    var b, c, d := StartTurn(Last(run), j);
    run' := Grow3(run, b, c, d, j);
    var e;
    b, c, e := FinishTurn(d, j);
    run' := Grow3(run', b, c, e, j);
  }

  lemma {:induction false} CanPrint(s: State, len: nat) returns (run: seq<State>)
    requires Init(s)
    ensures IsRun(run) && run[0] == s && Resting(Last(run)) && Last(run).n == s.n && |Last(run).out| == len
  {
    if len == 0 {
      run := [s];
      RunInv(run, 0);
      return;
    }
    run := CanPrint(s, len - 1);
    run := GoRound(run);
  }

  /** What it can print is exactly what is in turn. */
  lemma Traces(s: State, w: seq<nat>)
    requires Init(s)
    ensures Prints(s, w) <==> InTurn(s.n, w)
  {
    if Prints(s, w) {
      var run :| IsRun(run) && run[0] == s && Last(run).out == w;
      RunInv(run, |run| - 1);
    }
    if InTurn(s.n, w) {
      var run := CanPrint(s, |w|);
      RunInv(run, |run| - 1);
      assert Last(run).out == w;
    }
  }

  // ---------- the printing never stops ----------

  /** How far the next letter is while thread `j` is past the lock, or nobody is. */
  function Far(s: State, j: nat): nat
    requires |s.pcs| == s.n && j < s.n
  {
    var reduced := if s.status == s.n then 0 else s.status;
    match s.pcs[j]
    case Locking => 4
    case Reducing => if reduced == j then 3 else 7
    case Comparing => if reduced == j then 2 else 6
    case Writing => 1
    case Counting => 6
    case Unlocking => 5
  }

  /** Whoever is past the lock goes on; if nobody is, it is the thread whose turn it is. */
  lemma GoesOn(s: State, j: nat) returns (e: State)
    requires Inv(s) && At(s, j) && (s.locked || j == Turn(s.n, |s.out|))
    ensures Steps(s, e, j) && Inv(e) && At(e, j) && e.n == s.n
    ensures |e.out| == |s.out| + 1 || (e.out == s.out && Far(e, j) < Far(s, j))
  {
    e := Apply(s, j);
    StepKeepsAt(s, j);
    if s.pcs[j].Reducing? { ReduceIsRemainder(s.n, s.status); }
  }

  lemma StepKeepsAt(s: State, j: nat)
    requires Inv(s) && Enabled(s, j)
    ensures Inv(Apply(s, j)) && At(Apply(s, j), j) && Apply(s, j).n == s.n
  {
    StepperIsAlone(s, j);
    if s.pcs[j].Reducing? { ReduceIsRemainder(s.n, s.status); }
    assert At(Apply(s, j), j);
  }

  /** The thread that can go on. */
  lemma SomebodyCan(s: State) returns (j: nat)
    requires Inv(s)
    ensures At(s, j) && (s.locked || j == Turn(s.n, |s.out|))
  {
    j :| At(s, j);
    if !s.locked {
      var i := j;
      j := Turn(s.n, |s.out|);
      assert s.pcs[i].Locking? && s.pcs[j].Locking?;
    }
  }

  lemma {:induction false} PrintsOneMore(run: seq<State>, j: nat) returns (run': seq<State>)
    requires IsRun(run) && Inv(Last(run)) && At(Last(run), j)
    requires Last(run).locked || j == Turn(Last(run).n, |Last(run).out|)
    ensures IsRun(run') && run <= run' && |Last(run').out| == |Last(run).out| + 1
    decreases if Last(run).locked && !(Last(run).pcs[j].Locking?) then Far(Last(run), j) else 4
  {
    var e := GoesOn(Last(run), j);
    Grow(run, e, j);
    run' := run + [e];
    if |e.out| == |Last(run).out| {
      var k := SomebodyCan(e);
      run' := PrintsOneMore(run', k);
    }
  }

  /** Whatever the schedule so far, the next letter can still be printed. */
  lemma NeverStuck(run: seq<State>) returns (run': seq<State>)
    requires IsRun(run) && Init(run[0])
    ensures IsRun(run') && run <= run' && |Last(run').out| == |Last(run).out| + 1
  {
    RunInv(run, |run| - 1);
    var j := SomebodyCan(Last(run));
    run' := PrintsOneMore(run, j);
  }
}

/** Two ring printers, one specification. */
module RingEquivalence {
  import opened Rings
  import BatonRing
  import TurnRing

  /** A sequence of letters is something the one can print exactly when the other can: when it is in turn. */
  lemma SameTraces(b: BatonRing.State, t: TurnRing.State, w: seq<nat>)
    requires BatonRing.Init(b) && TurnRing.Init(t) && b.n == t.n
    ensures BatonRing.Prints(b, w) <==> TurnRing.Prints(t, w)
    ensures BatonRing.Prints(b, w) <==> InTurn(b.n, w)
  {
    BatonRing.Traces(b, w);
    TurnRing.Traces(t, w);
  }
}
