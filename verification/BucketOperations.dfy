/** What each operation of the token-bucket library has done when it returns,
    whatever the other threads do meanwhile, and how many steps it takes. */
module BucketOperations {
  import opened Monitors
  import opened Tokens
  import opened BucketMonitor
  import opened BucketLibrary
  import opened BucketInvariant
  import opened BucketGuarantees
  import opened BucketRate

  /** The run is one whole operation of `t`, from its call until it returns, among the steps of others. */
  predicate WholeCall(s: State, moves: seq<Move>, t: Tid, act: Act) {
    && Feasible(s, moves) && moves != [] && moves[0] == Move(t, act)
    && UntilIdle(Apply(s, moves[0]), moves[1..], t)
  }

  /** The part of a bucket's account that is `t`'s own. */
  function LedgerOf(s: State, moves: seq<Move>, t: Tid, b: Bid): Account
    requires Feasible(s, moves)
    decreases |moves|
  {
    if moves == [] then Account(0, 0, 0, 0)
    else Sum(if moves[0].t == t then Entry(s, moves[0], b) else Account(0, 0, 0, 0),
             LedgerOf(Apply(s, moves[0]), moves[1..], t, b))
  }

  // ---------- a tick ----------

  predicate AlwaysRegistered(s: State, moves: seq<Move>, b: Bid)
    requires Feasible(s, moves)
    decreases |moves|
  {
    Registered(s, b) && (moves == [] || AlwaysRegistered(Apply(s, moves[0]), moves[1..], b))
  }

  predicate InTick(s: State, t: Tid) {
    t in s.pc && (s.pc[t] == WantTable(Sweep(0, false)) || Sweeping(s, t))
  }

  /** A step of the ticking thread credits the bucket exactly when it has still to be credited before, and no
      more after. */
  lemma OwnTickStep(s: State, m: Move, t: Tid, b: Bid)
    requires Inv(s) && Enabled(s, m) && InTick(s, t) && m.t == t && Registered(s, b)
    ensures InTick(Apply(s, m), t) || Apply(s, m).pc[t].Idle?
    ensures Entry(s, m, b).credits == OneIf(StillToCredit(s, t, b)) - OneIf(StillToCredit(Apply(s, m), t, b))
  {
    if Sweeping(s, t) {
      if Sweeping(Apply(s, m), t) { SweepStepCredits(s, m, t, b); } else { SweepStopsAtEnd(s, m, t); }
    }
  }

  lemma OtherTickStep(s: State, m: Move, t: Tid, b: Bid)
    requires Inv(s) && Enabled(s, m) && InTick(s, t) && m.t != t && Registered(s, b) && Registered(Apply(s, m), b)
    ensures InTick(Apply(s, m), t) && StillToCredit(Apply(s, m), t, b) == StillToCredit(s, t, b)
  {
    OthersKeepPc(s, m, t);
    if Sweeping(s, t) { OthersLeaveSweepAlone(s, m, t, b); }
  }

  function CreditsOf(s: State, m: Move, t: Tid, b: Bid): nat {
    if m.t == t then Entry(s, m, b).credits else 0
  }

  lemma TickStep(s: State, m: Move, t: Tid, b: Bid)
    requires Inv(s) && Enabled(s, m) && InTick(s, t) && Registered(s, b) && Registered(Apply(s, m), b)
    ensures var s' := Apply(s, m); InTick(s', t) || (t in s'.pc && s'.pc[t].Idle?)
    ensures CreditsOf(s, m, t, b) + OneIf(StillToCredit(Apply(s, m), t, b)) == OneIf(StillToCredit(s, t, b))
  {
    if m.t == t { OwnTickStep(s, m, t, b); } else { OtherTickStep(s, m, t, b); }
  }

  lemma CreditsOfFirst(s: State, moves: seq<Move>, t: Tid, b: Bid)
    requires Feasible(s, moves) && moves != []
    ensures LedgerOf(s, moves, t, b).credits
         == CreditsOf(s, moves[0], t, b) + LedgerOf(Apply(s, moves[0]), moves[1..], t, b).credits
  {
  }

  lemma {:induction false} TickCreditsRest(s: State, moves: seq<Move>, t: Tid, b: Bid)
    requires Inv(s) && Feasible(s, moves) && UntilIdle(s, moves, t) && AlwaysRegistered(s, moves, b)
    requires InTick(s, t) || s.pc[t].Idle?
    ensures LedgerOf(s, moves, t, b).credits == OneIf(StillToCredit(s, t, b))
    decreases |moves|
  {
    if moves != [] {
      TickStep(s, moves[0], t, b);
      StepKeepsInv(s, moves[0]);
      TickCreditsRest(Apply(s, moves[0]), moves[1..], t, b);
      CreditsOfFirst(s, moves, t, b);
    }
  }

  /** A whole tick credits each bucket that stays registered exactly once. */
  lemma TickCreditsEachOnce(s: State, moves: seq<Move>, t: Tid, b: Bid)
    requires Reachable(s) && WholeCall(s, moves, t, CallTick) && AlwaysRegistered(s, moves, b)
    ensures LedgerOf(s, moves, t, b).credits == 1
  {
    ReachableInv(s);
    StepKeepsInv(s, moves[0]);
    TickCreditsRest(Apply(s, moves[0]), moves[1..], t, b);
  }

  // ---------- a fetch and a return ----------

  /** Where `t` is in bucket `b`. */
  predicate IsInside(s: State, t: Tid, b: Bid) {
    t in s.pc && s.pc[t] == InBucket(b) && b in s.heap && t in s.heap[b].mon.stage
  }

  function StageOf(s: State, t: Tid, b: Bid): Stage<Op>
    requires IsInside(s, t, b)
  {
    s.heap[b].mon.stage[t]
  }

  /** A fetch has still to get its tokens. */
  predicate ToTake(g: Stage<Op>) {
    (g.Want? || g.Entered? || g.Asleep?) && g.op.Take?
  }

  /** Some step of `t` takes tokens and leaves the bucket empty. */
  predicate Empties(s: State, moves: seq<Move>, t: Tid, b: Bid)
    requires Feasible(s, moves)
    decreases |moves|
  {
    moves != [] &&
    ((moves[0].t == t && Entry(s, moves[0], b).granted > 0
      && b in Apply(s, moves[0]).heap && Apply(s, moves[0]).heap[b].mon.token == 0)
     || Empties(Apply(s, moves[0]), moves[1..], t, b))
  }

  /** Other threads leave `t` where it is in the bucket, or wake it. */
  lemma OthersKeepStage(s: State, m: Move, t: Tid, b: Bid)
    requires Inv(s) && Enabled(s, m) && m.t != t && IsInside(s, t, b)
    ensures IsInside(Apply(s, m), t, b)
    ensures StageOf(Apply(s, m), t, b) == StageOf(s, t, b) || StageOf(Apply(s, m), t, b) == Roused(StageOf(s, t, b))
  {
    OthersKeepPc(s, m, t);
    StepKeepsInv(s, m);
    var s' := Apply(s, m);
    assert PcOk(s', t, s'.pc[t]);
    assert MembersOf(s', b);
    OthersKeepStageValue(s, m, t, b);
  }

  lemma OthersKeepStageValue(s: State, m: Move, t: Tid, b: Bid)
    requires Enabled(s, m) && m.t != t && IsInside(s, t, b) && IsInside(Apply(s, m), t, b) && b < s.next
    ensures StageOf(Apply(s, m), t, b) == StageOf(s, t, b) || StageOf(Apply(s, m), t, b) == Roused(StageOf(s, t, b))
  {
  }

  /** What a step of `t` in its bucket does to its own account, and where it is then. */
  predicate OwnStepOk(s: State, m: Move, t: Tid, b: Bid)
    requires Enabled(s, m) && IsInside(s, t, b)
  {
    var g, e, s' := StageOf(s, t, b), Entry(s, m, b), Apply(s, m);
    if IsInside(s', t, b) then
      var g' := StageOf(s', t, b);
      && e.credits == 0 && e.given == ToGive(g) - ToGive(g')
      && (if ToTake(g) && !ToTake(g') then
            1 <= e.granted <= g.op.n && (e.granted == g.op.n || s'.heap[b].mon.token == 0)
          else e.granted == 0 && ToTake(g') == ToTake(g) && (ToTake(g) ==> g'.op == g.op))
    else
      t in s'.pc && s'.pc[t].Idle? && !ToTake(g) && ToGive(g) == 0 && e.given == 0 && e.granted == 0 && e.credits == 0
  }

  lemma OwnStepInBucket(s: State, m: Move, t: Tid, b: Bid)
    requires Inv(s) && Enabled(s, m) && m.t == t && IsInside(s, t, b)
    ensures OwnStepOk(s, m, t, b)
  {
    assert Fits(false, StageOf(s, t, b));
    if m.act.Go? { InsideRunsMonitor(s, m, b); }
  }

  /** An account in which stage `g`'s thread gives what it has to give, and takes once what it has to take. */
  predicate Pays(g: Stage<Op>, a: Account, empties: bool) {
    && a.credits == 0 && a.given == ToGive(g)
    && if ToTake(g) then 1 <= a.granted <= g.op.n && (a.granted == g.op.n || empties) else a.granted == 0
  }

  /** So does `t`, from anywhere inside. */
  predicate RestOk(s: State, moves: seq<Move>, t: Tid, b: Bid)
    requires Feasible(s, moves) && IsInside(s, t, b)
  {
    Pays(StageOf(s, t, b), LedgerOf(s, moves, t, b), Empties(s, moves, t, b))
  }

  lemma RunFirst(s: State, moves: seq<Move>, t: Tid, b: Bid)
    requires Feasible(s, moves) && moves != []
    ensures var s', rest := Apply(s, moves[0]), LedgerOf(Apply(s, moves[0]), moves[1..], t, b);
      && LedgerOf(s, moves, t, b) == Sum(if moves[0].t == t then Entry(s, moves[0], b) else Account(0, 0, 0, 0), rest)
      && (Empties(s', moves[1..], t, b) ==> Empties(s, moves, t, b))
      && (moves[0].t == t && Entry(s, moves[0], b).granted > 0 && b in s'.heap && s'.heap[b].mon.token == 0 ==>
            Empties(s, moves, t, b))
  {
  }

  lemma OwnStepRest(s: State, moves: seq<Move>, t: Tid, b: Bid)
    requires Feasible(s, moves) && moves != [] && moves[0].t == t && IsInside(s, t, b)
    requires OwnStepOk(s, moves[0], t, b) && IsInside(Apply(s, moves[0]), t, b)
    requires RestOk(Apply(s, moves[0]), moves[1..], t, b)
    ensures RestOk(s, moves, t, b)
  {
    RunFirst(s, moves, t, b);
  }

  lemma OtherStepRest(s: State, moves: seq<Move>, t: Tid, b: Bid)
    requires Inv(s) && Feasible(s, moves) && moves != [] && moves[0].t != t && IsInside(s, t, b)
    requires IsInside(Apply(s, moves[0]), t, b) && RestOk(Apply(s, moves[0]), moves[1..], t, b)
    ensures RestOk(s, moves, t, b)
  {
    RunFirst(s, moves, t, b);
    OthersKeepStage(s, moves[0], t, b);
    assert Fits(false, StageOf(s, t, b));
  }

  lemma LastStepRest(s: State, moves: seq<Move>, t: Tid, b: Bid)
    requires Feasible(s, moves) && |moves| == 1 && moves[0].t == t && IsInside(s, t, b)
    requires OwnStepOk(s, moves[0], t, b) && !IsInside(Apply(s, moves[0]), t, b)
    ensures RestOk(s, moves, t, b)
  {
    RunFirst(s, moves, t, b);
    assert moves[1..] == [];
  }

  lemma {:induction false} InsideRest(s: State, moves: seq<Move>, t: Tid, b: Bid)
    requires Inv(s) && Feasible(s, moves) && UntilIdle(s, moves, t) && IsInside(s, t, b)
    ensures RestOk(s, moves, t, b)
    decreases |moves|
  {
    var m := moves[0];
    StepKeepsInv(s, m);
    if m.t != t {
      OthersKeepStage(s, m, t, b);
      InsideRest(Apply(s, m), moves[1..], t, b);
      OtherStepRest(s, moves, t, b);
    } else {
      OwnStepInBucket(s, m, t, b);
      if IsInside(Apply(s, m), t, b) {
        InsideRest(Apply(s, m), moves[1..], t, b);
        OwnStepRest(s, moves, t, b);
      } else {
        LastStepRest(s, moves, t, b);
      }
    }
  }

  /** A whole fetch of a positive size gets tokens once: at least one, and all it asked for unless that empties the
      bucket. It adds none. */
  lemma FetchGets(s: State, moves: seq<Move>, t: Tid, b: Bid, n: int)
    requires Reachable(s) && WholeCall(s, moves, t, CallFetch(b, n)) && n > 0
    ensures var a := LedgerOf(s, moves, t, b);
      && 1 <= a.granted <= n && (a.granted == n || Empties(s, moves, t, b))
      && a.given == 0 && a.credits == 0
  {
    ReachableInv(s);
    StepKeepsInv(s, moves[0]);
    InsideRest(Apply(s, moves[0]), moves[1..], t, b);
  }

  /** A whole return of a positive size adds exactly that, once, and takes none. */
  lemma ReturnGives(s: State, moves: seq<Move>, t: Tid, b: Bid, n: int)
    requires Reachable(s) && WholeCall(s, moves, t, CallReturn(b, n)) && n > 0
    ensures var a := LedgerOf(s, moves, t, b); a.given == n && a.granted == 0 && a.credits == 0
  {
    ReachableInv(s);
    StepKeepsInv(s, moves[0]);
    InsideRest(Apply(s, moves[0]), moves[1..], t, b);
  }

  // ---------- an init ----------

  predicate Full(s: State) {
    forall i :: 0 <= i < |s.job| ==> s.job[i].Some?
  }

  predicate FullSometime(s: State, moves: seq<Move>)
    requires Feasible(s, moves)
    decreases |moves|
  {
    Full(s) || (moves != [] && FullSometime(Apply(s, moves[0]), moves[1..]))
  }

  predicate IsConfigured(s: State, b: Bid, csp: int, burst: int) {
    b in s.heap && s.heap[b].mon.csp == csp && s.heap[b].mon.burst == burst
  }

  /** On its way from the call to the return, with a bucket, or with none because the table was full. */
  predicate InInit(s: State, t: Tid, b: Bid, csp: int, burst: int) {
    t in s.pc && b < s.next &&
    if s.pc[t] == HasTable(Placed(None)) then b !in s.heap
    else (s.pc[t] == WantTable(Place(b)) || s.pc[t] == HasTable(Place(b)) || s.pc[t] == HasTable(Placed(Some(b))))
         && IsConfigured(s, b, csp, burst)
  }

  predicate InitReturned(s: State, t: Tid, b: Bid, csp: int, burst: int) {
    t in s.pc && s.pc[t].Idle? && (b !in s.heap || (IsHandle(s, b) && IsConfigured(s, b, csp, burst)))
  }

  lemma OwnInitStep(s: State, m: Move, t: Tid, b: Bid, csp: int, burst: int)
    requires Inv(s) && Enabled(s, m) && m.t == t && InInit(s, t, b, csp, burst)
    ensures var s' := Apply(s, m);
      || (InInit(s', t, b, csp, burst) && (b in s.heap && b !in s'.heap ==> Full(s)))
      || (InitReturned(s', t, b, csp, burst) && (b in s'.heap <==> b in s.heap))
  {
    assert PcOk(s, t, s.pc[t]);
  }

  lemma OthersKeepMine(s: State, m: Move, t: Tid, b: Bid)
    requires Inv(s) && Enabled(s, m) && m.t != t && t in s.pc && Mine(s, t, b) && !s.pc[t].Idle?
    requires PcOk(Apply(s, m), t, s.pc[t]) ==> Mine(Apply(s, m), t, b)
    ensures b in Apply(s, m).heap && Apply(s, m).heap[b].mon.csp == s.heap[b].mon.csp
    ensures Apply(s, m).heap[b].mon.burst == s.heap[b].mon.burst
  {
    OthersKeepPc(s, m, t);
    StepKeepsInv(s, m);
    assert PcOk(Apply(s, m), t, Apply(s, m).pc[t]);
    StepMatchesEntry(s, m, b);
  }

  lemma OtherInitStep(s: State, m: Move, t: Tid, b: Bid, csp: int, burst: int)
    requires Inv(s) && Enabled(s, m) && m.t != t && InInit(s, t, b, csp, burst)
    ensures InInit(Apply(s, m), t, b, csp, burst) && (b in s.heap <==> b in Apply(s, m).heap)
  {
    OthersKeepPc(s, m, t);
    NextGrows(s, m);
    assert PcOk(s, t, s.pc[t]);
    if s.pc[t] == HasTable(Placed(None)) { GoneStaysGone(s, m, b); } else { OthersKeepMine(s, m, t, b); }
  }

  lemma {:induction false} InitRest(s: State, moves: seq<Move>, t: Tid, b: Bid, csp: int, burst: int)
    requires Inv(s) && Feasible(s, moves) && UntilIdle(s, moves, t)
    requires InInit(s, t, b, csp, burst) || InitReturned(s, t, b, csp, burst)
    ensures InitReturned(After(s, moves), t, b, csp, burst)
    ensures b in s.heap && b !in After(s, moves).heap ==> FullSometime(s, moves)
    decreases |moves|
  {
    if moves != [] {
      var m := moves[0];
      if m.t == t { OwnInitStep(s, m, t, b, csp, burst); } else { OtherInitStep(s, m, t, b, csp, burst); }
      StepKeepsInv(s, m);
      InitRest(Apply(s, m), moves[1..], t, b, csp, burst);
    }
  }

  /** A whole init returns a handle, in the table and with the rate and the cap asked for; or it returns none, has
      freed what it allocated, and has found the table full. */
  lemma InitReturns(s: State, moves: seq<Move>, t: Tid, csp: int, burst: int)
    requires Reachable(s) && WholeCall(s, moves, t, CallInit(csp, burst))
    ensures var e, b := After(s, moves), s.next;
      if b in e.heap then IsHandle(e, b) && Registered(e, b) && IsConfigured(e, b, csp, burst)
      else FullSometime(s, moves)
  {
    ReachableInv(s);
    StepKeepsInv(s, moves[0]);
    InitRest(Apply(s, moves[0]), moves[1..], t, s.next, csp, burst);
    RunKeepsInv(s, moves);
  }

  // ---------- a destroy ----------

  predicate InDestroy(s: State, t: Tid, b: Bid) {
    t in s.pc && (s.pc[t] == WantTable(Unlink(b)) || s.pc[t] == HasTable(Unlink(b))
                  || s.pc[t] == HasTable(Unlinked(b)) || s.pc[t] == Freeing(b))
  }

  lemma DestroyStep(s: State, m: Move, t: Tid, b: Bid)
    requires Inv(s) && Enabled(s, m) && InDestroy(s, t, b)
    ensures var s' := Apply(s, m); InDestroy(s', t, b) || (m.t == t && s'.pc[t].Idle? && b !in s'.heap)
  {
    if m.t != t { OthersKeepPc(s, m, t); }
  }

  lemma {:induction false} DestroyRest(s: State, moves: seq<Move>, t: Tid, b: Bid)
    requires Inv(s) && Feasible(s, moves) && UntilIdle(s, moves, t)
    requires InDestroy(s, t, b) || (s.pc[t].Idle? && b !in s.heap)
    ensures b !in After(s, moves).heap
    decreases |moves|
  {
    if moves != [] {
      StepKeepsInv(s, moves[0]);
      DestroyStep(s, moves[0], t, b);
      DestroyRest(Apply(s, moves[0]), moves[1..], t, b);
    }
  }

  /** A whole destroy has freed its bucket, and nothing in the table points to it. */
  lemma DestroyFrees(s: State, moves: seq<Move>, t: Tid, b: Bid)
    requires Reachable(s) && WholeCall(s, moves, t, CallDestroy(b))
    ensures var e := After(s, moves); b !in e.heap && forall i :: 0 <= i < |e.job| ==> e.job[i] != Some(b)
  {
    ReachableInv(s);
    StepKeepsInv(s, moves[0]);
    DestroyRest(Apply(s, moves[0]), moves[1..], t, b);
    RunKeepsInv(s, moves);
  }

  // ---------- how long an operation takes ----------

  function WorkIn(s: State, t: Tid, b: Bid): nat {
    if b in s.heap && t in s.heap[b].mon.stage then StageWork(s.heap[b].mon.stage[t]) else 0
  }

  function TableWork(s: State, t: Tid, op: TableOp): nat {
    match op
    case Sweep(i, false) => if i <= |s.job| then 6 * (|s.job| - i) + 1 else 0
    case Sweep(i, true) =>
      if i < |s.job| && s.job[i].Some? then 6 * (|s.job| - i - 1) + 1 + WorkIn(s, t, s.job[i].value) else 0
    case Place(_) => 2
    case Placed(_) => 1
    case Unlink(_) => 3
    case Unlinked(_) => 2
  }

  /** How many own steps `t` is away from being idle, at most, if it does not have to sleep. */
  function Work(s: State, t: Tid): nat {
    if t !in s.pc then 0 else
    match s.pc[t]
    case Idle => 0
    case InBucket(b) => WorkIn(s, t, b)
    case WantTable(op) => TableWork(s, t, op) + 1
    case HasTable(op) => TableWork(s, t, op)
    case Freeing(_) => 1
  }

  /** The step finds no tokens and goes to sleep. */
  predicate FallsAsleep(s: State, m: Move) {
    Enabled(s, m) && m.t in Apply(s, m).pc && Sleeping(Apply(s, m), m.t)
  }

  lemma BucketStepWorks(s: State, t: Tid)
    requires Inv(s) && Enabled(s, Move(t, Go)) && s.pc[t].InBucket? && !FallsAsleep(s, Move(t, Go))
    ensures Work(Apply(s, Move(t, Go)), t) < Work(s, t)
  {
    InsideRunsMonitor(s, Move(t, Go), s.pc[t].b);
    RunWorks(s.heap[s.pc[t].b].mon, t);
  }

  lemma VisitStepWorks(s: State, t: Tid)
    requires Inv(s) && Enabled(s, Move(t, Go)) && Sweeping(s, t) && s.pc[t].op.visiting
    ensures Work(Apply(s, Move(t, Go)), t) < Work(s, t)
  {
    var b := s.job[s.pc[t].op.i].value;
    InsideRunsMonitor(s, Move(t, Go), b);
    RunWorks(s.heap[b].mon, t);
    SweeperInside(s, t);
  }

  lemma LockStepWorks(s: State, t: Tid)
    requires Enabled(s, Move(t, Go)) && s.pc[t].WantTable?
    ensures Work(Apply(s, Move(t, Go)), t) < Work(s, t)
  {
  }

  lemma LookStepWorks(s: State, t: Tid)
    requires Enabled(s, Move(t, Go)) && Sweeping(s, t) && !s.pc[t].op.visiting
    ensures Work(Apply(s, Move(t, Go)), t) < Work(s, t)
  {
  }

  lemma OtherStepWorks(s: State, t: Tid)
    requires Enabled(s, Move(t, Go)) && (s.pc[t].Freeing? || (s.pc[t].HasTable? && !s.pc[t].op.Sweep?))
    ensures Work(Apply(s, Move(t, Go)), t) < Work(s, t)
  {
  }

  lemma WorkIsBounded(s: State, t: Tid)
    requires Inv(s)
    ensures Work(s, t) <= 6 * |s.job| + 5
  {
    assert t in s.pc ==> PcOk(s, t, s.pc[t]);
  }

  /** Every own step of a thread brings it nearer to the end of its operation, except the one that puts a fetch
      to sleep: so no operation loops, and even a tick takes a bounded number of own steps. */
  lemma StepWorks(s: State, t: Tid)
    requires Reachable(s) && Enabled(s, Move(t, Go)) && !FallsAsleep(s, Move(t, Go))
    ensures Work(Apply(s, Move(t, Go)), t) < Work(s, t) <= 6 * |s.job| + 5
  {
    ReachableInv(s);
    WorkIsBounded(s, t);
    if s.pc[t].InBucket? { BucketStepWorks(s, t); }
    else if s.pc[t].WantTable? { LockStepWorks(s, t); }
    else if !Sweeping(s, t) { OtherStepWorks(s, t); }
    else if s.pc[t].op.visiting { VisitStepWorks(s, t); }
    else { LookStepWorks(s, t); }
  }

  /** And nobody else makes it longer; a wakeup makes a sleeper's shorter. */
  lemma OthersAddNoWork(s: State, m: Move, t: Tid)
    requires Reachable(s) && Enabled(s, m) && m.t != t && t in s.pc && s.pc[t].InBucket?
    ensures Work(Apply(s, m), t) <= Work(s, t)
  {
    ReachableInv(s);
    var b := s.pc[t].b;
    assert MembersOf(s, b);
    OthersKeepStage(s, m, t, b);
    OthersKeepPc(s, m, t);
  }

  /** A spurious wakeup ends a sleep. */
  lemma WakeupWakes(s: State, t: Tid)
    requires Enabled(s, Move(t, SpuriousWake))
    ensures !Sleeping(Apply(s, Move(t, SpuriousWake)), t) && Work(Apply(s, Move(t, SpuriousWake)), t) < Work(s, t)
  {
  }
}
