/** What the token-bucket library guarantees over all its runs. */
module BucketGuarantees {
  import opened Monitors
  import opened Tokens
  import opened BucketMonitor
  import opened BucketLibrary
  import opened BucketInvariant

  lemma InitInv(s: State)
    requires Init(s)
    ensures Inv(s)
  {
  }

  lemma {:induction false} RunKeepsInv(s: State, moves: seq<Move>)
    requires Inv(s) && Feasible(s, moves)
    ensures Inv(After(s, moves))
    decreases |moves|
  {
    if moves != [] {
      StepKeepsInv(s, moves[0]);
      RunKeepsInv(Apply(s, moves[0]), moves[1..]);
    }
  }

  ghost predicate Reachable(s: State) {
    exists s0, moves :: Init(s0) && Feasible(s0, moves) && After(s0, moves) == s
  }

  lemma ReachableInv(s: State)
    requires Reachable(s)
    ensures Inv(s)
  {
    var s0, moves :| Init(s0) && Feasible(s0, moves) && After(s0, moves) == s;
    InitInv(s0);
    RunKeepsInv(s0, moves);
  }

  // ---------- locks ----------

  /** Inside a bucket, the thread waits for its lock. */
  predicate WaitsForBucket(s: State, t: Tid)
    requires t in s.pc
  {
    var b := Inside(s.job, s.pc[t]);
    b.Some? && b.value in s.heap && t in s.heap[b.value].mon.stage
    && s.heap[b.value].mon.stage[t].Want? && s.heap[b.value].mon.lock.Some?
  }

  /** The thread waits for a lock that is taken. */
  predicate WaitsForLock(s: State, t: Tid) {
    t in s.pc && ((s.pc[t].WantTable? && s.table.Some?) || WaitsForBucket(s, t))
  }

  predicate HoldsBucketLock(s: State, t: Tid) {
    exists b :: b in s.heap && s.heap[b].mon.lock == Some(t)
  }

  predicate HoldsLock(s: State, t: Tid) {
    s.table == Some(t) || HoldsBucketLock(s, t)
  }

  /** The lock order: nobody waits for the table while it has a bucket. */
  lemma TableBeforeBucket(s: State, t: Tid)
    requires Reachable(s) && t in s.pc && s.pc[t].WantTable?
    ensures !HoldsBucketLock(s, t)
  {
    ReachableInv(s);
  }

  /** A thread that is neither idle, nor asleep, nor waiting for a taken lock can run,
      and what it runs touches only allocated buckets. */
  lemma RunnableAndSafe(s: State, t: Tid)
    requires Reachable(s) && t in s.pc && !s.pc[t].Idle? && !Sleeping(s, t) && !WaitsForLock(s, t)
    ensures CanGo(s, t)
  {
    ReachableInv(s);
  }

  lemma BucketHolderRuns(s: State, t: Tid, b: Bid)
    requires Inv(s) && b in s.heap && t in s.heap[b].mon.stage
    requires s.heap[b].mon.stage[t].Want? && s.heap[b].mon.lock.Some?
    ensures var u := s.heap[b].mon.lock.value; u in s.pc && CanGo(s, u) && HoldsLock(s, u)
  {
    HolderReady(s.heap[b].mon, t);
    assert MembersOf(s, b);
  }

  /** Two-level locking never deadlocks: if anyone waits for a lock, some lock holder can step. */
  lemma NoDeadlock(s: State, t: Tid)
    requires Reachable(s) && WaitsForLock(s, t)
    ensures exists u :: u in s.pc && HoldsLock(s, u) && CanGo(s, u)
  {
    ReachableInv(s);
    var w := if s.pc[t].WantTable? then s.table.value else t;
    if WaitsForLock(s, w) {
      var b := Inside(s.job, s.pc[w]).value;
      BucketHolderRuns(s, w, b);
    } else {
      RunnableAndSafe(s, w);
    }
  }

  // ---------- sleepers ----------

  /** No lost wakeup: in every reachable state, whoever sleeps in a bucket whose lock is free has nothing to take. */
  lemma SleeperHasNothingToTake(s: State, t: Tid, b: Bid)
    requires Reachable(s) && t in s.pc && s.pc[t] == InBucket(b) && Sleeping(s, t) && s.heap[b].mon.lock.None?
    ensures var m := s.heap[b].mon; m.token <= 0 && (Sane(m) ==> m.token == 0)
  {
    ReachableInv(s);
    SleepersMeanEmpty(s.heap[b].mon, t);
  }

  // ---------- rate ----------

  /** What happened to one bucket's tokens over a run. */
  datatype Account = Account(credits: nat, given: int, granted: int, spilled: int)

  function Sum(a: Account, b: Account): Account {
    Account(a.credits + b.credits, a.given + b.given, a.granted + b.granted, a.spilled + b.spilled)
  }

  function Entry(s: State, m: Move, b: Bid): Account {
    if StepsInside(s, m, b) then
      var mon := s.heap[b].mon;
      Account(Credited(mon, m.t), Given(mon, m.t), Granted(mon, m.t), Spilled(mon, m.t))
    else Account(0, 0, 0, 0)
  }

  function Ledger(s: State, moves: seq<Move>, b: Bid): Account
    requires Feasible(s, moves)
    decreases |moves|
  {
    if moves == [] then Account(0, 0, 0, 0)
    else Sum(Entry(s, moves[0], b), Ledger(Apply(s, moves[0]), moves[1..], b))
  }

  predicate StepsInside(s: State, m: Move, b: Bid) {
    m.act.Go? && m.t in s.pc && b in s.heap && Inside(s.job, s.pc[m.t]) == Some(b)
  }

  lemma InsideRunsMonitor(s: State, m: Move, b: Bid)
    requires Enabled(s, m) && StepsInside(s, m, b)
    ensures Apply(s, m).heap.Keys == s.heap.Keys && Apply(s, m).job == s.job
    ensures Ready(s.heap[b].mon, m.t) && Apply(s, m).heap[b].mon == Run(s.heap[b].mon, m.t)
  {
  }

  lemma OutsideKeepsTokens(s: State, m: Move, b: Bid)
    requires Enabled(s, m) && !StepsInside(s, m, b) && b in s.heap && b < s.next && b in Apply(s, m).heap
    ensures var mon, mon' := s.heap[b].mon, Apply(s, m).heap[b].mon;
      mon'.token == mon.token && mon'.csp == mon.csp && mon'.burst == mon.burst
  {
  }

  /** The account balances: `rest` is what is left of the tokens of `m` after the movements of `a`. */
  predicate Balances(token: int, csp: int, a: Account, rest: int) {
    && rest + a.granted + a.spilled == token + csp * a.credits + a.given
    && 0 <= a.granted && 0 <= a.given && 0 <= a.spilled
  }

  /** A step inside a bucket moves that bucket's tokens by its entry, any other step moves none. */
  lemma StepMatchesEntry(s: State, m: Move, b: Bid)
    requires Inv(s) && Enabled(s, m) && b in s.heap && b in Apply(s, m).heap
    ensures var mon, mon' := s.heap[b].mon, Apply(s, m).heap[b].mon;
      Balances(mon.token, mon.csp, Entry(s, m, b), mon'.token) && mon'.csp == mon.csp && mon'.burst == mon.burst
  {
    if StepsInside(s, m, b) {
      InsideRunsMonitor(s, m, b);
      RunConserves(s.heap[b].mon, m.t);
    } else {
      OutsideKeepsTokens(s, m, b);
    }
  }

  lemma FreeingMovesNothing(s: State, m: Move, b: Bid)
    requires Inv(s) && Enabled(s, m) && b in s.heap && b !in Apply(s, m).heap
    ensures Entry(s, m, b) == Account(0, 0, 0, 0) && b < Apply(s, m).next
  {
  }

  lemma GoneStaysGone(s: State, m: Move, b: Bid)
    requires Inv(s) && Enabled(s, m) && b !in s.heap && b < s.next
    ensures b !in Apply(s, m).heap && b < Apply(s, m).next
  {
  }

  lemma {:induction false} GoneKeepsLedgerEmpty(s: State, moves: seq<Move>, b: Bid)
    requires Inv(s) && Feasible(s, moves) && b !in s.heap && b < s.next
    ensures Ledger(s, moves, b) == Account(0, 0, 0, 0) && b !in After(s, moves).heap
    decreases |moves|
  {
    if moves != [] {
      StepKeepsInv(s, moves[0]);
      GoneStaysGone(s, moves[0], b);
      GoneKeepsLedgerEmpty(Apply(s, moves[0]), moves[1..], b);
    }
  }

  lemma BalancesChain(token: int, csp: int, e: Account, mid: int, l: Account, rest: int)
    requires Balances(token, csp, e, mid) && Balances(mid, csp, l, rest)
    ensures Balances(token, csp, Sum(e, l), rest)
  {
    assert csp * (e.credits + l.credits) == csp * e.credits + csp * l.credits;
  }

  /** Conservation over any run from a reachable state, whatever else happens in it: what credits and
      returns brought to a bucket was granted, spilled over the cap, or is what the bucket holds at
      the end (`rest`), or held when it was freed. */
  lemma {:induction false} TokensConserved(s: State, moves: seq<Move>, b: Bid) returns (rest: int)
    requires Inv(s) && Feasible(s, moves) && b in s.heap
    ensures Balances(s.heap[b].mon.token, s.heap[b].mon.csp, Ledger(s, moves, b), rest)
    ensures Sane(s.heap[b].mon) ==> 0 <= rest <= s.heap[b].mon.burst
    ensures b in After(s, moves).heap ==> rest == After(s, moves).heap[b].mon.token
    decreases |moves|
  {
    if moves == [] {
      return s.heap[b].mon.token;
    }
    var s' := Apply(s, moves[0]);
    StepKeepsInv(s, moves[0]);
    if b in s'.heap {
      StepMatchesEntry(s, moves[0], b);
      rest := TokensConserved(s', moves[1..], b);
      BalancesChain(s.heap[b].mon.token, s.heap[b].mon.csp, Entry(s, moves[0], b),
                    s'.heap[b].mon.token, Ledger(s', moves[1..], b), rest);
    } else {
      FreeingMovesNothing(s, moves[0], b);
      GoneKeepsLedgerEmpty(s', moves[1..], b);
      rest := s.heap[b].mon.token;
    }
  }

  // ---------- a sweep credits every registered bucket once ----------

  predicate Sweeping(s: State, t: Tid) {
    t in s.pc && s.pc[t].HasTable? && s.pc[t].op.Sweep?
  }

  /** How many slots a sweep has finished crediting. */
  function Progress(s: State, t: Tid): nat
    requires Sweeping(s, t)
  {
    var op := s.pc[t].op;
    if op.visiting && op.i < |s.job| && s.job[op.i].Some? && s.job[op.i].value in s.heap
       && t in s.heap[s.job[op.i].value].mon.stage
       && (s.heap[s.job[op.i].value].mon.stage[t].Changed? || s.heap[s.job[op.i].value].mon.stage[t].Leaving?)
    then op.i + 1 else op.i
  }

  /** The run stays within one sweep of `t`. */
  predicate WithinSweep(s: State, moves: seq<Move>, t: Tid)
    requires Feasible(s, moves)
    decreases |moves|
  {
    Sweeping(s, t) && (moves == [] || WithinSweep(Apply(s, moves[0]), moves[1..], t))
  }

  function OneIf(c: bool): nat { if c then 1 else 0 }

  /** What the progress of a sweep depends on. */
  predicate SamePlace(s: State, s': State, t: Tid)
    requires Sweeping(s, t)
  {
    && s'.job == s.job && t in s'.pc && s'.pc[t] == s.pc[t]
    && forall b :: b in s.heap && Inside(s.job, s.pc[t]) == Some(b) ==>
         b in s'.heap && t in s'.heap[b].mon.stage && t in s.heap[b].mon.stage
         && s'.heap[b].mon.stage[t] == s.heap[b].mon.stage[t]
  }

  /** The sweep is where it was, and so is `b`. */
  predicate SameSweep(s: State, s': State, t: Tid, b: Bid)
    requires Sweeping(s, t) && b in s.heap
  {
    && s'.job == s.job && t in s'.pc && s'.pc[t] == s.pc[t] && Progress(s', t) == Progress(s, t)
    && b in s'.heap && s'.heap[b].pos == s.heap[b].pos
  }

  /** A sweep that visits a bucket is inside it, awake, to credit it. */
  lemma SweeperInside(s: State, t: Tid)
    requires MembersAgree(s) && OpsAgree(s) && Sweeping(s, t)
    ensures forall c :: c in s.heap && Inside(s.job, s.pc[t]) == Some(c) ==>
      t in s.heap[c].mon.stage && Fits(true, s.heap[c].mon.stage[t])
  {
    forall c | c in s.heap && Inside(s.job, s.pc[t]) == Some(c)
      ensures t in s.heap[c].mon.stage && Fits(true, s.heap[c].mon.stage[t])
    {
      assert MembersOf(s, c);
    }
  }

  lemma SamePlaceSameSweep(s: State, s': State, t: Tid, b: Bid)
    requires SlotsAgree(s) && Sweeping(s, t) && Registered(s, b)
    requires SamePlace(s, s', t) && b in s'.heap && s'.heap[b].pos == s.heap[b].pos
    ensures SameSweep(s, s', t, b)
  {
  }

  lemma OthersCreateOrCondemn(s: State, m: Move, t: Tid, b: Bid)
    requires Inv(s) && Enabled(s, m) && Sweeping(s, t) && m.t != t && Registered(s, b)
    requires m.act.CallInit? || m.act.CallDestroy?
    ensures SameSweep(s, Apply(s, m), t, b)
  {
    SweeperInside(s, t);
    assert SamePlace(s, Apply(s, m), t);
    SamePlaceSameSweep(s, Apply(s, m), t, b);
  }

  lemma OthersUse(s: State, t: Tid, b: Bid, u: Tid, c: Bid, op: Op)
    requires Inv(s) && Sweeping(s, t) && u != t && Registered(s, b) && u in s.pc && c in s.heap
    ensures SameSweep(s, Enter(s, u, c, op, InBucket(c)), t, b)
  {
    SweeperInside(s, t);
    SamePlaceSameSweep(s, Enter(s, u, c, op, InBucket(c)), t, b);
  }

  lemma OthersCall(s: State, m: Move, t: Tid, b: Bid)
    requires Inv(s) && Enabled(s, m) && Sweeping(s, t) && m.t != t && Registered(s, b)
    requires m.act.CallTick? || m.act.CallFetch? || m.act.CallReturn?
    ensures SameSweep(s, Apply(s, m), t, b)
  {
    match m.act
    case CallFetch(c, n) => OthersUse(s, t, b, m.t, c, Take(n));
    case CallReturn(c, n) => OthersUse(s, t, b, m.t, c, Give(n));
    case CallTick =>
  }

  lemma OthersWake(s: State, m: Move, t: Tid, b: Bid)
    requires Inv(s) && Enabled(s, m) && Sweeping(s, t) && m.t != t && Registered(s, b) && m.act.SpuriousWake?
    ensures SameSweep(s, Apply(s, m), t, b)
  {
    SweeperInside(s, t);
    assert SamePlace(s, Apply(s, m), t);
    SamePlaceSameSweep(s, Apply(s, m), t, b);
  }

  lemma OthersOutside(s: State, m: Move, t: Tid, b: Bid)
    requires Inv(s) && Enabled(s, m) && Sweeping(s, t) && m.t != t && Registered(s, b)
    requires m.act.Go? && Inside(s.job, s.pc[m.t]) == None
    ensures SameSweep(s, Apply(s, m), t, b)
  {
    assert s.pc[m.t].Freeing?;
    SweeperInside(s, t);
    assert SamePlace(s, Apply(s, m), t);
    SamePlaceSameSweep(s, Apply(s, m), t, b);
  }

  /** Another thread's step inside a bucket is never a credit. */
  lemma OthersDoNotCredit(s: State, m: Move, t: Tid, b: Bid)
    requires Inv(s) && Enabled(s, m) && Sweeping(s, t) && m.t != t && StepsInside(s, m, b)
    ensures Entry(s, m, b).credits == 0
  {
  }

  lemma InsideMovesNoSlot(s: State, m: Move, c: Bid, b: Bid)
    requires Enabled(s, m) && StepsInside(s, m, c) && b in s.heap
    ensures b in Apply(s, m).heap && Apply(s, m).heap[b].pos == s.heap[b].pos
  {
  }

  /** And it leaves the sweeping thread, which is not asleep, where it is. */
  lemma OthersInsideKeepPlace(s: State, m: Move, t: Tid, c: Bid)
    requires MembersAgree(s) && OpsAgree(s) && Enabled(s, m) && Sweeping(s, t) && m.t != t && StepsInside(s, m, c)
    ensures SamePlace(s, Apply(s, m), t)
  {
    InsideRunsMonitor(s, m, c);
    SweeperInside(s, t);
    if Inside(s.job, s.pc[t]) == Some(c) { RunKeepsOthers(s.heap[c].mon, m.t, t); }
  }

  lemma OthersInside(s: State, m: Move, t: Tid, b: Bid)
    requires Inv(s) && Enabled(s, m) && Sweeping(s, t) && m.t != t && Registered(s, b)
    requires m.act.Go? && Inside(s.job, s.pc[m.t]).Some?
    ensures SameSweep(s, Apply(s, m), t, b) && Entry(s, m, b).credits == 0
  {
    var c := Inside(s.job, s.pc[m.t]).value;
    OthersDoNotCredit(s, m, t, c);
    OthersInsideKeepPlace(s, m, t, c);
    InsideMovesNoSlot(s, m, c, b);
    SamePlaceSameSweep(s, Apply(s, m), t, b);
  }

  /** Nobody else moves a sweep on, changes the table under it, or credits a bucket. */
  lemma OthersLeaveSweepAlone(s: State, m: Move, t: Tid, b: Bid)
    requires Inv(s) && Enabled(s, m) && Sweeping(s, t) && m.t != t && Registered(s, b)
    ensures SameSweep(s, Apply(s, m), t, b) && Entry(s, m, b).credits == 0
  {
    if m.act.SpuriousWake? { OthersWake(s, m, t, b); }
    else if m.act.CallInit? || m.act.CallDestroy? { OthersCreateOrCondemn(s, m, t, b); }
    else if !m.act.Go? { OthersCall(s, m, t, b); }
    else if Inside(s.job, s.pc[m.t]).Some? { OthersInside(s, m, t, b); }
    else { OthersOutside(s, m, t, b); }
  }

  /** What the sweeping thread's own step does for a bucket: it credits the one whose slot it passes. */
  predicate CreditsPassed(s: State, m: Move, t: Tid, b: Bid)
    requires Enabled(s, m) && Sweeping(s, t) && Registered(s, b)
  {
    var s' := Apply(s, m);
    && Sweeping(s', t) && s'.job == s.job && Registered(s', b) && s'.heap[b].pos == s.heap[b].pos
    && Progress(s, t) <= Progress(s', t)
    && Entry(s, m, b).credits == OneIf(Progress(s, t) <= s.heap[b].pos < Progress(s', t))
  }

  lemma SweepLooks(s: State, m: Move, t: Tid, b: Bid)
    requires Inv(s) && Enabled(s, m) && Sweeping(s, t) && m.t == t && Sweeping(Apply(s, m), t) && Registered(s, b)
    requires !s.pc[t].op.visiting
    ensures CreditsPassed(s, m, t, b)
  {
  }

  lemma SweepVisits(s: State, m: Move, t: Tid, b: Bid)
    requires Inv(s) && Enabled(s, m) && Sweeping(s, t) && m.t == t && Sweeping(Apply(s, m), t) && Registered(s, b)
    requires s.pc[t].op.visiting
    ensures CreditsPassed(s, m, t, b)
  {
    var c := s.job[s.pc[t].op.i].value;
    InsideRunsMonitor(s, m, c);
    InsideMovesNoSlot(s, m, c, b);
    VisitMoves(s, m, t, c);
    if b != c { assert s.heap[b].pos != s.heap[c].pos; }
  }

  /** A visit credits its bucket at the very step that counts the slot as passed. */
  lemma VisitMoves(s: State, m: Move, t: Tid, c: Bid)
    requires Inv(s) && Enabled(s, m) && Sweeping(s, t) && m.t == t && Sweeping(Apply(s, m), t) && m.act.Go?
    requires s.pc[t].op.visiting && s.job[s.pc[t].op.i] == Some(c)
    ensures Progress(Apply(s, m), t) == Progress(s, t) + Credited(s.heap[c].mon, t)
    ensures Credited(s.heap[c].mon, t) == 1 ==> Progress(s, t) == s.pc[t].op.i
  {
    InsideRunsMonitor(s, m, c);
    SweeperInside(s, t);
  }

  lemma SweepStepCredits(s: State, m: Move, t: Tid, b: Bid)
    requires Inv(s) && Enabled(s, m) && Sweeping(s, t) && m.t == t && Sweeping(Apply(s, m), t) && Registered(s, b)
    ensures CreditsPassed(s, m, t, b)
  {
    if s.pc[t].op.visiting { SweepVisits(s, m, t, b); } else { SweepLooks(s, m, t, b); }
  }

  /** While a sweep is under way, the slots it has passed since are the buckets credited since, once each. */
  lemma {:induction false} SweepCreditsPassed(s: State, moves: seq<Move>, t: Tid, b: Bid)
    requires Inv(s) && Feasible(s, moves) && WithinSweep(s, moves, t) && Registered(s, b)
    ensures var e := After(s, moves);
      && Sweeping(e, t) && e.job == s.job
      && Progress(s, t) <= Progress(e, t)
      && Ledger(s, moves, b).credits == OneIf(Progress(s, t) <= s.heap[b].pos < Progress(e, t))
    decreases |moves|
  {
    if moves != [] {
      var m := moves[0];
      StepKeepsInv(s, m);
      if m.t == t { SweepStepCredits(s, m, t, b); } else { OthersLeaveSweepAlone(s, m, t, b); }
      SweepCreditsPassed(Apply(s, m), moves[1..], t, b);
    }
  }

  /** A sweep lets the table go only when it is past the last slot. */
  lemma SweepStopsAtEnd(s: State, m: Move, t: Tid)
    requires Inv(s) && Enabled(s, m) && m.t == t && Sweeping(s, t) && !Sweeping(Apply(s, m), t)
    ensures Progress(s, t) == |s.job| && Apply(s, m).pc[t].Idle? && forall b :: Entry(s, m, b) == Account(0, 0, 0, 0)
  {
    SweeperInside(s, t);
  }

  /** The run goes on until `t` is idle, and ends there. */
  predicate UntilIdle(s: State, moves: seq<Move>, t: Tid)
    requires Feasible(s, moves)
    decreases |moves|
  {
    t in s.pc && (s.pc[t].Idle? <==> moves == []) && (moves != [] ==> UntilIdle(Apply(s, moves[0]), moves[1..], t))
  }

  /** Whether a sweep of `t` has still to come to bucket `b`. */
  predicate Ahead(s: State, t: Tid, b: Bid) {
    Sweeping(s, t) && Registered(s, b) && Progress(s, t) <= s.heap[b].pos
  }

  /** A step in a sweep of `t` credits the bucket exactly when the sweep passes it; the sweep goes on, or is over. */
  lemma SweepStep(s: State, m: Move, t: Tid, b: Bid)
    requires Inv(s) && Enabled(s, m) && Sweeping(s, t) && Registered(s, b)
    ensures Entry(s, m, b).credits == OneIf(Ahead(s, t, b)) - OneIf(Ahead(Apply(s, m), t, b))
    ensures var s' := Apply(s, m); t in s'.pc && if Sweeping(s', t) then Registered(s', b) else s'.pc[t].Idle?
  {
    if m.t == t && !Sweeping(Apply(s, m), t) {
      SweepStopsAtEnd(s, m, t);
    } else if m.t == t {
      SweepStepCredits(s, m, t, b);
    } else {
      OthersLeaveSweepAlone(s, m, t, b);
    }
  }

  lemma LedgerFirst(s: State, moves: seq<Move>, b: Bid)
    requires Feasible(s, moves) && moves != []
    ensures Ledger(s, moves, b) == Sum(Entry(s, moves[0], b), Ledger(Apply(s, moves[0]), moves[1..], b))
  {
  }

  /** A sweep under way ends with every bucket credited that it had not credited, once. */
  lemma {:induction false} SweepCreditsRest(s: State, moves: seq<Move>, t: Tid, b: Bid)
    requires Inv(s) && Feasible(s, moves) && UntilIdle(s, moves, t)
    requires if Sweeping(s, t) then Registered(s, b) else s.pc[t].Idle?
    ensures Ledger(s, moves, b).credits == OneIf(Ahead(s, t, b))
    decreases |moves|
  {
    if moves != [] {
      SweepStep(s, moves[0], t, b);
      StepKeepsInv(s, moves[0]);
      SweepCreditsRest(Apply(s, moves[0]), moves[1..], t, b);
      LedgerFirst(s, moves, b);
    }
  }

  /** One whole sweep, from its start until its thread is idle again, credits each bucket that is registered
      exactly once. */
  lemma SweepCreditsEachOnce(s: State, moves: seq<Move>, t: Tid, b: Bid)
    requires Reachable(s) && Feasible(s, moves) && UntilIdle(s, moves, t) && Registered(s, b)
    requires t in s.pc && s.pc[t] == HasTable(Sweep(0, false))
    ensures Ledger(s, moves, b).credits == 1
  {
    ReachableInv(s);
    SweepCreditsRest(s, moves, t, b);
  }

  // ---------- the table and the handles ----------

  /** Live handles sit in the table, each in a slot of its own. */
  lemma HandlesHaveOwnSlots(s: State, b: Bid, c: Bid)
    requires Reachable(s) && IsHandle(s, b) && IsHandle(s, c) && b != c
    ensures 0 <= s.heap[b].pos < |s.job| && s.job[s.heap[b].pos] == Some(b)
    ensures s.heap[b].pos != s.heap[c].pos
  {
    ReachableInv(s);
  }

  /** Init fails exactly when the table is full; otherwise it takes the lowest free slot and disturbs no other. */
  lemma PlaceTakesLowestFree(s: State, t: Tid, b: Bid)
    requires Reachable(s) && t in s.pc && s.pc[t] == HasTable(Place(b))
    ensures CanGo(s, t)
    ensures var s' := Instruction(s, t);
      if forall i :: 0 <= i < |s.job| ==> s.job[i].Some?
      then s'.pc[t] == HasTable(Placed(None)) && s'.job == s.job && b !in s'.heap
      else s'.pc[t] == HasTable(Placed(Some(b)))
           && exists p :: 0 <= p < |s.job| && s.job[p].None? && (forall i :: 0 <= i < p ==> s.job[i].Some?)
                          && s'.job == s.job[p := Some(b)] && s'.heap[b].pos == p
  {
    ReachableInv(s);
  }

  /** Destroy empties the slot that holds its bucket, and no other. */
  lemma UnlinkFreesOwnSlot(s: State, t: Tid, b: Bid)
    requires Reachable(s) && t in s.pc && s.pc[t] == HasTable(Unlink(b))
    ensures CanGo(s, t)
    ensures exists p :: 0 <= p < |s.job| && s.job[p] == Some(b) && Instruction(s, t).job == s.job[p := None]
                        && forall i :: 0 <= i < |s.job| && s.job[i] == Some(b) ==> i == p
  {
    ReachableInv(s);
    var p := s.heap[b].pos;
    assert s.job[p] == Some(b);
  }

  /** From the unlink to the free, no thread is inside the bucket and none will find it in the table. */
  lemma UnlinkedIsUntouched(s: State, t: Tid, b: Bid)
    requires Reachable(s) && t in s.pc && (s.pc[t] == HasTable(Unlinked(b)) || s.pc[t] == Freeing(b))
    ensures b in s.heap && s.heap[b].mon.stage == map[] && s.heap[b].mon.lock == None
    ensures forall u :: u in s.pc ==> Inside(s.job, s.pc[u]) != Some(b)
    ensures forall i :: 0 <= i < |s.job| ==> s.job[i] != Some(b)
  {
    ReachableInv(s);
    assert MembersOf(s, b);
    assert forall u :: u in s.pc ==> PcOk(s, u, s.pc[u]);
  }
}
