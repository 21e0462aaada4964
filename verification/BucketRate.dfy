/** How fast tokens can come out of a bucket: grants bounded by ticks. */
module BucketRate {
  import opened Monitors
  import opened Tokens
  import opened BucketMonitor
  import opened BucketLibrary
  import opened BucketInvariant
  import opened BucketGuarantees

  /** The ticks that begin in the run. */
  function Ticks(moves: seq<Move>): nat {
    if moves == [] then 0 else OneIf(moves[0].act.CallTick?) + Ticks(moves[1..])
  }

  /** Thread `t` has a sweep before it or under way that has still to credit bucket `b`. */
  predicate StillToCredit(s: State, t: Tid, b: Bid) {
    t in s.pc &&
    ((s.pc[t].WantTable? && s.pc[t].op.Sweep?)
     || (Sweeping(s, t) && Registered(s, b) && Progress(s, t) <= s.heap[b].pos))
  }

  function Due(s: State, b: Bid): set<Tid> {
    set t | t in s.pc && StillToCredit(s, t, b)
  }

  /** The ticks that can credit bucket `b` in the run: those that begin in it, and those that at its start were
      still to come to the bucket. */
  function TicksFor(s: State, moves: seq<Move>, b: Bid): nat {
    |Due(s, b)| + Ticks(moves)
  }

  lemma CreditIsSweeps(s: State, m: Move, b: Bid)
    requires Inv(s) && Enabled(s, m) && Entry(s, m, b).credits > 0
    ensures Entry(s, m, b).credits == 1 && m.act.Go? && Sweeping(s, m.t) && Registered(s, b)
    ensures Sweeping(Apply(s, m), m.t)
  {
  }

  /** Whoever credits the bucket had still to, and has no more. */
  lemma CreditEndsDue(s: State, m: Move, b: Bid)
    requires Inv(s) && Enabled(s, m) && Entry(s, m, b).credits > 0
    ensures Entry(s, m, b).credits == 1 && StillToCredit(s, m.t, b) && !StillToCredit(Apply(s, m), m.t, b)
  {
    CreditIsSweeps(s, m, b);
    SweepStepCredits(s, m, m.t, b);
  }

  /** While somebody sweeps, nothing is registered. */
  lemma SweepRegistersNothing(s: State, m: Move, t: Tid, b: Bid)
    requires Inv(s) && Enabled(s, m) && Sweeping(s, t) && Registered(Apply(s, m), b)
    ensures m.t != t || Sweeping(Apply(s, m), t) ==> Registered(s, b)
  {
  }

  lemma OwnStepAddsNoDue(s: State, m: Move, b: Bid)
    requires Inv(s) && Enabled(s, m) && !m.act.CallTick? && StillToCredit(Apply(s, m), m.t, b)
    ensures StillToCredit(s, m.t, b)
  {
    var s' := Apply(s, m);
    if Sweeping(s, m.t) {
      SweepRegistersNothing(s, m, m.t, b);
      SweepStepCredits(s, m, m.t, b);
    }
  }

  lemma OthersAddNoDue(s: State, m: Move, t: Tid, b: Bid)
    requires Inv(s) && Enabled(s, m) && m.t != t && StillToCredit(Apply(s, m), t, b)
    ensures StillToCredit(s, t, b)
  {
    OthersKeepPc(s, m, t);
    if Sweeping(s, t) {
      SweepRegistersNothing(s, m, t, b);
      OthersLeaveSweepAlone(s, m, t, b);
    }
  }

  lemma OthersKeepPc(s: State, m: Move, t: Tid)
    requires Enabled(s, m) && m.t != t
    ensures t in Apply(s, m).pc <==> t in s.pc
    ensures t in s.pc ==> Apply(s, m).pc[t] == s.pc[t]
  {
  }

  /** A step's credit is paid for by a sweep that was due, or leaves what is due alone; only a tick adds to it. */
  lemma StepPaysCredit(s: State, m: Move, b: Bid)
    requires Inv(s) && Enabled(s, m)
    ensures Entry(s, m, b).credits + |Due(Apply(s, m), b)| <= |Due(s, b)| + OneIf(m.act.CallTick?)
  {
    var due, due' := Due(s, b), Due(Apply(s, m), b);
    forall u | u in due' ensures u in due || (u == m.t && m.act.CallTick?) {
      if u != m.t { OthersAddNoDue(s, m, u, b); } else if !m.act.CallTick? { OwnStepAddsNoDue(s, m, b); }
    }
    if Entry(s, m, b).credits > 0 {
      CreditEndsDue(s, m, b);
      Smaller(due', due - {m.t});
    } else if m.act.CallTick? {
      Smaller(due', due + {m.t});
    } else {
      Smaller(due', due);
    }
  }

  lemma {:induction false} Smaller(a: set<Tid>, b: set<Tid>)
    requires a <= b
    ensures |a| <= |b|
  {
    if a != {} {
      var x :| x in a;
      Smaller(a - {x}, b - {x});
    }
  }

  /** Over any window, a bucket is credited at most once for each tick that begins in it and for each sweep
      that at its start was still to come to the bucket. */
  lemma {:induction false} CreditsAreTicks(s: State, moves: seq<Move>, b: Bid)
    requires Inv(s) && Feasible(s, moves)
    ensures Ledger(s, moves, b).credits <= TicksFor(s, moves, b)
    decreases |moves|
  {
    if moves != [] {
      StepPaysCredit(s, moves[0], b);
      StepKeepsInv(s, moves[0]);
      CreditsAreTicks(Apply(s, moves[0]), moves[1..], b);
    }
  }

  // ---------- what callers return ----------

  /** What the callers of return bring to bucket `b`. */
  function ReturnedBy(m: Move, b: Bid): int {
    if m.act.CallReturn? && m.act.b == b && m.act.n > 0 then m.act.n else 0
  }

  function Returned(moves: seq<Move>, b: Bid): int {
    if moves == [] then 0 else ReturnedBy(moves[0], b) + Returned(moves[1..], b)
  }

  /** Of that, what has not reached the bucket yet. */
  ghost function OnTheWay(s: State, b: Bid): int {
    if b in s.heap then Total(s.heap[b].mon.stage, ToGive, s.pc.Keys) else 0
  }

  /** Bucket `b` is there before and after, and only `t` may have changed what it has still to give. */
  ghost predicate OthersGiveTheSame(s: State, s': State, t: Tid, b: Bid) {
    && b in s.heap && b in s'.heap && s'.pc.Keys == s.pc.Keys && t in s.pc
    && forall u :: u != t ==> AmountAt(s'.heap[b].mon.stage, ToGive, u) == AmountAt(s.heap[b].mon.stage, ToGive, u)
  }

  function GivesAt(s: State, b: Bid, t: Tid): int
    requires b in s.heap
  {
    AmountAt(s.heap[b].mon.stage, ToGive, t)
  }

  lemma InsideGives(s: State, m: Move, b: Bid)
    requires Enabled(s, m) && StepsInside(s, m, b) && Valid(s.heap[b].mon)
    ensures OthersGiveTheSame(s, Apply(s, m), m.t, b)
    ensures Entry(s, m, b).given + GivesAt(Apply(s, m), b, m.t) == GivesAt(s, b, m.t)
  {
    InsideRunsMonitor(s, m, b);
    forall u | u != m.t ensures GivesAt(Apply(s, m), b, u) == GivesAt(s, b, u) {
      RunGives(s.heap[b].mon, m.t, u);
    }
    RunGives(s.heap[b].mon, m.t, m.t);
  }

  /** A call enters at most the bucket that it is for, with what it is for; a wakeup gives nothing. */
  lemma CallStage(s: State, m: Move, b: Bid)
    requires Enabled(s, m) && !m.act.Go? && b in s.heap && b < s.next && Valid(s.heap[b].mon)
    requires m.t in s.heap[b].mon.stage ==> m.act.SpuriousWake?
    ensures b in Apply(s, m).heap && Apply(s, m).pc.Keys == s.pc.Keys
    ensures var stage, stage' := s.heap[b].mon.stage, Apply(s, m).heap[b].mon.stage;
      if stage' == stage then ReturnedBy(m, b) == 0
      else m.t in stage' && stage' == stage[m.t := stage'[m.t]] && ToGive(stage'[m.t]) == ReturnedBy(m, b)
           && (m.t in stage ==> stage[m.t].Asleep?)
  {
  }

  lemma OutsiderIsNotInside(s: State, m: Move, b: Bid)
    requires MembersAgree(s) && Enabled(s, m) && b in s.heap && Inside(s.job, s.pc[m.t]) != Some(b)
    ensures m.t !in s.heap[b].mon.stage
  {
    assert MembersOf(s, b);
  }

  lemma CallGives(s: State, m: Move, b: Bid)
    requires Inv(s) && Enabled(s, m) && !m.act.Go? && b in s.heap
    ensures OthersGiveTheSame(s, Apply(s, m), m.t, b)
    ensures GivesAt(Apply(s, m), b, m.t) == GivesAt(s, b, m.t) + ReturnedBy(m, b)
  {
    if !m.act.SpuriousWake? { OutsiderIsNotInside(s, m, b); }
    CallStage(s, m, b);
  }

  /** A step that is not inside a bucket leaves the bucket's monitor alone, unless a sweep enters it. */
  lemma GoOutsideEnters(s: State, m: Move, b: Bid)
    requires Enabled(s, m) && m.act.Go? && !StepsInside(s, m, b) && b in s.heap && b in Apply(s, m).heap
    ensures var stage, stage' := s.heap[b].mon.stage, Apply(s, m).heap[b].mon.stage;
      stage' == stage || stage' == stage[m.t := Want(Add)]
    ensures Apply(s, m).pc.Keys == s.pc.Keys
  {
  }

  lemma GoOutsideGives(s: State, m: Move, b: Bid)
    requires MembersAgree(s) && Enabled(s, m) && m.act.Go? && !StepsInside(s, m, b)
    requires b in s.heap && b in Apply(s, m).heap
    ensures OthersGiveTheSame(s, Apply(s, m), m.t, b) && GivesAt(Apply(s, m), b, m.t) == GivesAt(s, b, m.t)
  {
    GoOutsideEnters(s, m, b);
    OutsiderIsNotInside(s, m, b);
  }

  lemma FreedIsMine(s: State, m: Move, b: Bid)
    requires Inv(s) && Enabled(s, m) && b in s.heap && b !in Apply(s, m).heap
    ensures Mine(s, m.t, b) && !Registered(s, b) && m.act.Go?
  {
    assert PcOk(s, m.t, s.pc[m.t]);
  }

  /** Nobody is inside a bucket that is somebody's own and not in the table. */
  lemma OwnIsEmpty(s: State, t: Tid, b: Bid)
    requires TableInv(s) && MembersAgree(s) && Mine(s, t, b) && !Registered(s, b)
    ensures s.heap[b].mon.stage == map[]
  {
    assert MembersOf(s, b);
    forall u | u in s.pc ensures Inside(s.job, s.pc[u]) != Some(b) {
      assert PcOk(s, u, s.pc[u]);
    }
  }

  lemma FreedOwesNothing(s: State, m: Move, b: Bid)
    requires Inv(s) && Enabled(s, m) && b in s.heap && b !in Apply(s, m).heap
    ensures s.heap[b].mon.stage == map[] && Entry(s, m, b).given == 0 && ReturnedBy(m, b) == 0
  {
    FreedIsMine(s, m, b);
    OwnIsEmpty(s, m.t, b);
  }

  lemma StepDelivers(s: State, m: Move, b: Bid)
    requires Inv(s) && Enabled(s, m)
    ensures b < s.next ==> Entry(s, m, b).given + OnTheWay(Apply(s, m), b) == OnTheWay(s, b) + ReturnedBy(m, b)
  {
    var s' := Apply(s, m);
    if b in s.heap && b in s'.heap {
      if StepsInside(s, m, b) { InsideGives(s, m, b); }
      else if m.act.Go? { GoOutsideGives(s, m, b); }
      else { CallGives(s, m, b); }
      TotalChange(s.heap[b].mon.stage, s'.heap[b].mon.stage, ToGive, s.pc.Keys, m.t);
    } else if b in s.heap {
      FreedOwesNothing(s, m, b);
      TotalOfNobody<Tid, Op>(ToGive, s.pc.Keys);
    } else if b < s.next {
      GoneStaysGone(s, m, b);
    }
  }

  /** Every token that callers return reaches the bucket, once: what has been added is what has been returned,
      less what is on its way. */
  lemma {:induction false} ReturnsArrive(s: State, moves: seq<Move>, b: Bid)
    requires Inv(s) && Feasible(s, moves) && b < s.next
    ensures Ledger(s, moves, b).given + OnTheWay(After(s, moves), b) == Returned(moves, b) + OnTheWay(s, b)
    decreases |moves|
  {
    if moves != [] {
      StepDelivers(s, moves[0], b);
      StepKeepsInv(s, moves[0]);
      NextGrows(s, moves[0]);
      ReturnsArrive(Apply(s, moves[0]), moves[1..], b);
    }
  }

  lemma NextGrows(s: State, m: Move)
    requires Enabled(s, m)
    ensures s.next <= Apply(s, m).next
  {
  }

  // ---------- the rate bounds ----------

  /** An account that balances and has at most `n` credits. */
  lemma BalancesBounds(token: int, csp: nat, a: Account, rest: nat, n: nat)
    requires Balances(token, csp, a, rest) && a.credits <= n
    ensures a.granted <= token + csp * n + a.given
  {
    assert csp * a.credits <= csp * n;
  }

  lemma CreditsBoundGrants(s: State, moves: seq<Move>, b: Bid, n: nat)
    requires Inv(s) && Feasible(s, moves) && b in s.heap && Sane(s.heap[b].mon) && Ledger(s, moves, b).credits <= n
    ensures var a, mon := Ledger(s, moves, b), s.heap[b].mon; a.granted <= mon.token + mon.csp * n + a.given
  {
    var rest := TokensConserved(s, moves, b);
    BalancesBounds(s.heap[b].mon.token, s.heap[b].mon.csp, Ledger(s, moves, b), rest, n);
  }

  lemma TokenAtMostBurst(s: State, b: Bid)
    requires Inv(s) && b in s.heap && Sane(s.heap[b].mon)
    ensures s.heap[b].mon.token <= s.heap[b].mon.burst
  {
  }

  lemma {:induction false} NobodyOwesLess(stage: map<Tid, Stage<Op>>, ts: set<Tid>)
    requires forall t :: t in stage ==> ToGive(stage[t]) >= 0
    ensures Total(stage, ToGive, ts) >= 0
    decreases ts
  {
    if ts != {} { NobodyOwesLess(stage, ts - {Pick(ts)}); }
  }

  lemma OnTheWayIsPositive(s: State, b: Bid)
    requires Inv(s)
    ensures OnTheWay(s, b) >= 0
  {
    if b in s.heap {
      assert AmountsPositive(s.heap[b].mon);
      NobodyOwesLess(s.heap[b].mon.stage, s.pc.Keys);
    }
  }

  /** What reaches the bucket in a window was returned in it, or was on its way when it began. */
  lemma GivenWasReturned(s: State, moves: seq<Move>, b: Bid)
    requires Inv(s) && Feasible(s, moves) && b < s.next
    ensures Ledger(s, moves, b).given <= Returned(moves, b) + OnTheWay(s, b)
  {
    ReturnsArrive(s, moves, b);
    RunKeepsInv(s, moves);
    OnTheWayIsPositive(After(s, moves), b);
  }

  /** The rate bound, over any window of any run: the callers of fetch get at most a full bucket, what the ticks
      bring, and what the callers of return bring. */
  lemma RateBound(s: State, moves: seq<Move>, b: Bid)
    requires Reachable(s) && Feasible(s, moves) && b in s.heap && Sane(s.heap[b].mon)
    ensures var mon := s.heap[b].mon;
      Ledger(s, moves, b).granted <= mon.burst + mon.csp * TicksFor(s, moves, b) + Returned(moves, b) + OnTheWay(s, b)
  {
    ReachableInv(s);
    CreditsAreTicks(s, moves, b);
    CreditsBoundGrants(s, moves, b, TicksFor(s, moves, b));
    TokenAtMostBurst(s, b);
    GivenWasReturned(s, moves, b);
  }

  /** The rate bound from the call of init on: net of what is returned, callers never get more than the ticks
      brought. */
  lemma RateBoundFromInit(s: State, t: Tid, csp: nat, burst: nat, moves: seq<Move>)
    requires Reachable(s) && t in s.pc && s.pc[t].Idle? && Feasible(Create(s, t, csp, burst), moves)
    ensures var s', b := Create(s, t, csp, burst), s.next;
      Ledger(s', moves, b).granted - Returned(moves, b) <= csp * TicksFor(s', moves, b)
  {
    var s', b := Create(s, t, csp, burst), s.next;
    ReachableInv(s);
    StepKeepsInv(s, Move(t, CallInit(csp, burst)));
    CreditsAreTicks(s', moves, b);
    CreditsBoundGrants(s', moves, b, TicksFor(s', moves, b));
    GivenWasReturned(s', moves, b);
    TotalOfNobody<Tid, Op>(ToGive, s'.pc.Keys);
  }

  /** Nobody but `ticker` has a sweep before it or under way. */
  predicate OnlySweeper(s: State, ticker: Tid) {
    forall t :: t in s.pc && t != ticker ==> !(s.pc[t].WantTable? && s.pc[t].op.Sweep?) && !Sweeping(s, t)
  }

  lemma StepKeepsOnlySweeper(s: State, m: Move, ticker: Tid)
    requires Enabled(s, m) && OnlySweeper(s, ticker) && (m.act.CallTick? ==> m.t == ticker)
    ensures OnlySweeper(Apply(s, m), ticker)
  {
    forall t | t != ticker && t != m.t ensures t in Apply(s, m).pc ==> t in s.pc && Apply(s, m).pc[t] == s.pc[t] {
      OthersKeepPc(s, m, t);
    }
  }

  lemma {:induction false} RunKeepsOnlySweeper(s: State, moves: seq<Move>, ticker: Tid)
    requires Feasible(s, moves) && OnlySweeper(s, ticker)
    requires forall m :: m in moves && m.act.CallTick? ==> m.t == ticker
    ensures OnlySweeper(After(s, moves), ticker)
    decreases |moves|
  {
    if moves != [] {
      assert moves[0] in moves;
      StepKeepsOnlySweeper(s, moves[0], ticker);
      RunKeepsOnlySweeper(Apply(s, moves[0]), moves[1..], ticker);
    }
  }

  /** In a library with one ticker thread, a window starts with at most one sweep that began before it. */
  lemma OneTickerOneDue(s: State, moves: seq<Move>, ticker: Tid, b: Bid)
    requires Init(s) && Feasible(s, moves) && forall m :: m in moves && m.act.CallTick? ==> m.t == ticker
    ensures |Due(After(s, moves), b)| <= 1
  {
    RunKeepsOnlySweeper(s, moves, ticker);
    Smaller(Due(After(s, moves), b), {ticker});
  }

  // ---------- the range ----------

  predicate InRange(s: State, b: Bid, burst: int) {
    b in s.heap ==> 0 <= s.heap[b].mon.token <= burst
  }

  lemma Prepend(s: State, m: Move, moves: seq<Move>)
    requires Enabled(s, m) && Feasible(Apply(s, m), moves)
    ensures Feasible(s, [m] + moves) && After(s, [m] + moves) == After(Apply(s, m), moves)
  {
    assert ([m] + moves)[1..] == moves;
  }

  lemma Prepend2(s: State, m: Move, moves: seq<Move>)
    requires Enabled(s, m) && Enabled(Apply(s, m), m) && Feasible(Apply(Apply(s, m), m), moves)
    ensures Feasible(s, [m] + ([m] + moves)) && After(s, [m] + ([m] + moves)) == After(Apply(Apply(s, m), m), moves)
  {
    Prepend(Apply(s, m), m, moves);
    Prepend(s, m, [m] + moves);
  }

  /** Bucket `b` is new in the first slot of a table that nobody uses, and `t` is idle. */
  predicate Fresh(s: State, t: Tid, b: Bid, csp: int, burst: int) {
    && t in s.pc && s.pc[t].Idle? && s.table.None? && |s.job| > 0 && s.job[0] == Some(b)
    && b in s.heap && s.heap[b].mon == Monitor(csp, burst, 0, None, map[])
  }

  /** The first tick after that reaches the bucket. */
  lemma TickReaches(s: State, t: Tid, b: Bid, csp: int, burst: int) returns (moves: seq<Move>)
    requires Fresh(s, t, b, csp, burst)
    ensures Feasible(s, moves) && b in After(s, moves).heap
    ensures After(s, moves).heap[b].mon.token == Credit(0, csp, burst)
  {
    var go := Move(t, Go);
    var s1 := Apply(s, Move(t, CallTick));
    var s2 := Apply(Apply(s1, go), go);
    var s3 := TickCredits(s2, t, b, csp, burst);
    Prepend2(s2, go, []);
    Prepend2(s1, go, [go] + ([go] + []));
    moves := [go] + ([go] + ([go] + ([go] + [])));
    Prepend(s, Move(t, CallTick), moves);
    moves := [Move(t, CallTick)] + moves;
  }

  lemma TickCredits(s: State, t: Tid, b: Bid, csp: int, burst: int) returns (e: State)
    requires t in s.pc && s.pc[t] == HasTable(Sweep(0, true)) && |s.job| > 0 && s.job[0] == Some(b) && b in s.heap
    requires s.heap[b].mon == Monitor(csp, burst, 0, None, map[t := Want(Add)])
    ensures var go := Move(t, Go); Enabled(s, go) && Enabled(Apply(s, go), go) && e == Apply(Apply(s, go), go)
    ensures b in e.heap && e.heap[b].mon.token == Credit(0, csp, burst)
  {
    var go := Move(t, Go);
    var s1 := Apply(s, go);
    assert s1.heap[b].mon == Monitor(csp, burst, 0, Some(t), map[t := Entered(Add)]);
    e := Apply(s1, go);
  }

  /** Init puts a bucket into the first slot of an empty library. */
  lemma CanCreate(s: State, t: Tid, csp: int, burst: int) returns (moves: seq<Move>)
    requires Init(s) && t in s.pc && |s.job| > 0
    ensures Feasible(Create(s, t, csp, burst), moves)
    ensures Fresh(After(Create(s, t, csp, burst), moves), t, s.next, csp, burst)
  {
    var go := Move(t, Go);
    var s1 := Create(s, t, csp, burst);
    var s2 := Apply(s1, go);
    var s3 := Apply(s2, go);
    assert FreePos(s2.job, 0) == 0;
    var s4 := Apply(s3, go);
    Prepend(s3, go, []);
    Prepend2(s1, go, [go] + []);
    moves := [go] + ([go] + ([go] + []));
  }

  lemma {:induction false} RunAppend(s: State, a: seq<Move>, b: seq<Move>)
    requires Feasible(s, a) && Feasible(After(s, a), b)
    ensures Feasible(s, a + b) && After(s, a + b) == After(After(s, a), b)
    decreases |a|
  {
    if a == [] {
      assert a + b == b;
    } else {
      assert a + b == [a[0]] + (a[1..] + b);
      RunAppend(Apply(s, a[0]), a[1..], b);
      Prepend(s, a[0], a[1..] + b);
    }
  }

  /** A bucket that is created in an empty library stays between 0 and its cap in every run if and only if its
      rate and its cap are not negative. */
  lemma RangeNeedsSane(s: State, t: Tid, csp: int, burst: int)
    requires Init(s) && t in s.pc && |s.job| > 0
    ensures (forall moves :: Feasible(Create(s, t, csp, burst), moves) ==>
               InRange(After(Create(s, t, csp, burst), moves), s.next, burst))
            <==> csp >= 0 && burst >= 0
  {
    var s' := Create(s, t, csp, burst);
    if csp >= 0 && burst >= 0 {
      forall moves | Feasible(s', moves) ensures InRange(After(s', moves), s.next, burst) {
        InitInv(s);
        StepKeepsInv(s, Move(t, CallInit(csp, burst)));
        var rest := TokensConserved(s', moves, s.next);
      }
    } else if burst < 0 {
      assert Feasible(s', []) && !InRange(After(s', []), s.next, burst);
    } else {
      var a := CanCreate(s, t, csp, burst);
      var b := TickReaches(After(s', a), t, s.next, csp, burst);
      RunAppend(s', a, b);
      assert !InRange(After(s', a + b), s.next, burst);
    }
  }
}
