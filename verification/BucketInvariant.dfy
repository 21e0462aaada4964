/** The invariant of the token-bucket library and the proof that every step of
    every thread keeps it. */
module BucketInvariant {
  import opened Monitors
  import opened Tokens
  import opened BucketMonitor
  import opened BucketLibrary

  // ---------- the invariant ----------

  /** The bucket is in the table, at the index it carries. */
  predicate Registered(s: State, b: Bid) {
    b in s.heap && 0 <= s.heap[b].pos < |s.job| && s.job[s.heap[b].pos] == Some(b)
  }

  predicate SlotsAgree(s: State) {
    forall i :: 0 <= i < |s.job| && s.job[i].Some? ==> s.job[i].value in s.heap && s.heap[s.job[i].value].pos == i
  }

  predicate HeapAgrees(s: State) {
    forall b :: b in s.heap ==> b < s.next && (s.heap[b].user.Shared? ==> Registered(s, b))
  }

  /** `t` has bucket `b` to itself. */
  predicate Mine(s: State, t: Tid, b: Bid) {
    b in s.heap && s.heap[b].user == Private(t)
  }

  predicate OpOk(s: State, t: Tid, op: TableOp) {
    match op
    case Sweep(i, visiting) => i <= |s.job| && (visiting ==> i < |s.job| && s.job[i].Some?)
    case Place(b) => Mine(s, t, b) && !Registered(s, b)
    case Placed(r) => r.Some? ==> Mine(s, t, r.value) && Registered(s, r.value)
    case Unlink(b) => Mine(s, t, b) && Registered(s, b)
    case Unlinked(b) => Mine(s, t, b) && !Registered(s, b)
  }

  predicate PcOk(s: State, t: Tid, pc: PC) {
    match pc
    case Idle => true
    case InBucket(b) => IsHandle(s, b)
    case WantTable(op) => OpOk(s, t, op) && (op == Sweep(0, false) || op.Place? || op.Unlink?)
    case HasTable(op) => OpOk(s, t, op) && s.table == Some(t)
    case Freeing(b) => Mine(s, t, b) && !Registered(s, b)
  }

  predicate ThreadsAgree(s: State) {
    forall t :: t in s.pc ==> PcOk(s, t, s.pc[t])
  }

  predicate TableLockAgrees(s: State) {
    s.table.Some? ==> s.table.value in s.pc && s.pc[s.table.value].HasTable?
  }

  predicate MonitorsValid(s: State) {
    forall b :: b in s.heap ==> Valid(s.heap[b].mon)
  }

  /** A bucket's monitor holds exactly the threads that are inside that bucket. */
  predicate MembersOf(s: State, b: Bid)
    requires b in s.heap
  {
    && (forall t :: t in s.heap[b].mon.stage ==> t in s.pc && Inside(s.job, s.pc[t]) == Some(b))
    && (forall t :: t in s.pc && Inside(s.job, s.pc[t]) == Some(b) ==> t in s.heap[b].mon.stage)
  }

  predicate MembersAgree(s: State) {
    forall b :: b in s.heap ==> MembersOf(s, b)
  }

  predicate OpsAgree(s: State) {
    forall t :: t in s.pc ==>
      var b := Inside(s.job, s.pc[t]);
      b.Some? && b.value in s.heap && t in s.heap[b.value].mon.stage ==>
        Fits(s.pc[t].HasTable?, s.heap[b.value].mon.stage[t])
  }

  predicate TableInv(s: State) {
    SlotsAgree(s) && HeapAgrees(s) && ThreadsAgree(s) && TableLockAgrees(s)
  }

  predicate Inv(s: State) {
    TableInv(s) && MonitorsValid(s) && MembersAgree(s) && OpsAgree(s)
  }

  lemma NewMonitorKeeps(s: State, b: Bid, mon: Monitor)
    requires TableInv(s) && b in s.heap
    ensures TableInv(SetMonitor(s, b, mon))
  {
  }

  lemma StepInsideKeeps(s: State, t: Tid, b: Bid, out: PC)
    requires TableInv(s)
    requires t in s.pc && CanStep(s, t, b) && Inside(s.job, s.pc[t]) == Some(b)
    requires out == if s.pc[t].InBucket? then Idle else HasTable(Sweep(s.pc[t].op.i + 1, false))
    ensures TableInv(StepInside(s, t, b, out))
  {
    NewMonitorKeeps(s, b, Run(s.heap[b].mon, t));
  }

  lemma StepInsideKeepsMembers(s: State, t: Tid, b: Bid, out: PC)
    requires MembersAgree(s)
    requires t in s.pc && CanStep(s, t, b) && Inside(s.job, s.pc[t]) == Some(b) && Inside(s.job, out) == None
    ensures MembersAgree(StepInside(s, t, b, out))
  {
    var s' := StepInside(s, t, b, out);
    forall c | c in s'.heap ensures MembersOf(s', c) {
      assert MembersOf(s, c);
    }
  }

  lemma CallEnters(s: State, t: Tid, b: Bid, op: Op)
    requires TableInv(s) && t in s.pc && s.pc[t].Idle? && IsHandle(s, b)
    ensures TableInv(Enter(s, t, b, op, InBucket(b)))
  {
    NewMonitorKeeps(s, b, Begin(s.heap[b].mon, t, op));
  }

  lemma SweepEnters(s: State, t: Tid, i: nat, b: Bid)
    requires TableInv(s) && t in s.pc && s.pc[t] == HasTable(Sweep(i, false)) && i < |s.job| && s.job[i] == Some(b)
    requires b in s.heap
    ensures TableInv(Enter(s, t, b, Add, HasTable(Sweep(i, true))))
  {
    NewMonitorKeeps(s, b, Begin(s.heap[b].mon, t, Add));
  }

  lemma EnterKeepsMembers(s: State, t: Tid, b: Bid, op: Op, pc: PC)
    requires MembersAgree(s)
    requires t in s.pc && b in s.heap && Inside(s.job, s.pc[t]) == None && Inside(s.job, pc) == Some(b)
    ensures MembersAgree(Enter(s, t, b, op, pc))
  {
  }

  lemma PlaceFullKeeps(s: State, t: Tid, b: Bid)
    requires TableInv(s) && t in s.pc && s.pc[t] == HasTable(Place(b)) && b in s.heap && FreePos(s.job, 0) == -1
    ensures TableInv(UnderTable(s, t, Place(b)))
  {
  }

  lemma PlaceFoundKeeps(s: State, t: Tid, b: Bid)
    requires TableInv(s) && t in s.pc && s.pc[t] == HasTable(Place(b)) && b in s.heap && FreePos(s.job, 0) != -1
    ensures TableInv(UnderTable(s, t, Place(b)))
  {
  }

  lemma PlaceKeepsMembers(s: State, t: Tid, b: Bid)
    requires TableInv(s) && MembersAgree(s) && t in s.pc && s.pc[t] == HasTable(Place(b)) && b in s.heap
    ensures MembersAgree(UnderTable(s, t, Place(b)))
  {
    var s' := UnderTable(s, t, Place(b));
    forall c | c in s'.heap ensures MembersOf(s', c) {
      assert MembersOf(s, c);
    }
  }

  lemma UnlinkKeeps(s: State, t: Tid, b: Bid)
    requires TableInv(s) && t in s.pc && s.pc[t] == HasTable(Unlink(b)) && CanWork(s, t, Unlink(b))
    ensures TableInv(UnderTable(s, t, Unlink(b)))
  {
  }

  lemma UnlinkKeepsMembers(s: State, t: Tid, b: Bid)
    requires Inv(s) && t in s.pc && s.pc[t] == HasTable(Unlink(b)) && CanWork(s, t, Unlink(b))
    ensures MembersAgree(UnderTable(s, t, Unlink(b)))
  {
  }

  /** The other work under the table lock: a sweep passing an empty slot or ending, an init or a destroy letting go. */
  predicate LightWork(s: State, op: TableOp) {
    op.Placed? || op.Unlinked? || (op.Sweep? && !op.visiting && (op.i < |s.job| ==> s.job[op.i].None?))
  }

  lemma LightWorkKeeps(s: State, t: Tid, op: TableOp)
    requires TableInv(s) && t in s.pc && s.pc[t] == HasTable(op) && CanWork(s, t, op) && LightWork(s, op)
    ensures TableInv(UnderTable(s, t, op))
  {
  }

  lemma LightWorkKeepsMembers(s: State, t: Tid, op: TableOp)
    requires MembersAgree(s) && t in s.pc && s.pc[t] == HasTable(op) && CanWork(s, t, op) && LightWork(s, op)
    ensures MembersAgree(UnderTable(s, t, op))
  {
  }

  lemma CreateKeeps(s: State, t: Tid, csp: int, burst: int)
    requires TableInv(s) && t in s.pc && s.pc[t].Idle?
    ensures TableInv(Create(s, t, csp, burst))
  {
  }

  lemma CreateKeepsMembers(s: State, t: Tid, csp: int, burst: int)
    requires TableInv(s) && MembersAgree(s) && t in s.pc && s.pc[t].Idle?
    ensures MembersAgree(Create(s, t, csp, burst))
  {
    var s' := Create(s, t, csp, burst);
    forall b | b in s'.heap ensures MembersOf(s', b) {
      if b != s.next { assert MembersOf(s, b); }
    }
  }

  lemma CondemnKeepsTable(s: State, t: Tid, b: Bid)
    requires SlotsAgree(s) && HeapAgrees(s) && TableLockAgrees(s) && t in s.pc && s.pc[t].Idle? && IsHandle(s, b)
    ensures SlotsAgree(Condemn(s, t, b)) && HeapAgrees(Condemn(s, t, b)) && TableLockAgrees(Condemn(s, t, b))
  {
  }

  lemma CondemnKeepsThreads(s: State, t: Tid, b: Bid)
    requires HeapAgrees(s) && ThreadsAgree(s) && t in s.pc && s.pc[t].Idle? && IsHandle(s, b)
    requires forall u :: u in s.pc ==> s.pc[u] != InBucket(b)
    ensures ThreadsAgree(Condemn(s, t, b))
  {
  }

  lemma CondemnKeeps(s: State, t: Tid, b: Bid)
    requires TableInv(s) && t in s.pc && s.pc[t].Idle? && IsHandle(s, b)
    requires forall u :: u in s.pc ==> s.pc[u] != InBucket(b)
    ensures TableInv(Condemn(s, t, b))
  {
    CondemnKeepsTable(s, t, b);
    CondemnKeepsThreads(s, t, b);
  }

  lemma CondemnKeepsMembers(s: State, t: Tid, b: Bid)
    requires MembersAgree(s) && t in s.pc && s.pc[t].Idle? && IsHandle(s, b)
    ensures MembersAgree(Condemn(s, t, b))
  {
    var s' := Condemn(s, t, b);
    forall c | c in s'.heap ensures MembersOf(s', c) {
      assert MembersOf(s, c);
    }
  }

  lemma LockKeeps(s: State, t: Tid)
    requires TableInv(s) && t in s.pc && CanGo(s, t) && s.pc[t].WantTable?
    ensures TableInv(Instruction(s, t))
  {
  }

  lemma FreeKeepsTable(s: State, t: Tid)
    requires TableInv(s) && t in s.pc && CanGo(s, t) && s.pc[t].Freeing?
    ensures var s' := Instruction(s, t); SlotsAgree(s') && HeapAgrees(s') && TableLockAgrees(s')
  {
  }

  lemma FreeKeepsThreads(s: State, t: Tid)
    requires TableInv(s) && t in s.pc && CanGo(s, t) && s.pc[t].Freeing?
    ensures ThreadsAgree(Instruction(s, t))
  {
  }

  lemma FreeKeeps(s: State, t: Tid)
    requires TableInv(s) && t in s.pc && CanGo(s, t) && s.pc[t].Freeing?
    ensures TableInv(Instruction(s, t))
  {
    FreeKeepsTable(s, t);
    FreeKeepsThreads(s, t);
  }

  lemma OutsideKeepsMembers(s: State, t: Tid)
    requires Inv(s) && t in s.pc && CanGo(s, t) && (s.pc[t].WantTable? || s.pc[t].Freeing?)
    ensures MembersAgree(Instruction(s, t))
  {
  }

  lemma InstructionKeepsMonitors(s: State, t: Tid)
    requires Inv(s) && t in s.pc && CanGo(s, t)
    ensures MonitorsValid(Instruction(s, t))
  {
    var b := Inside(s.job, s.pc[t]);
    if b.Some? {
      RunKeepsValid(s.heap[b.value].mon, t);
    } else if s.pc[t].HasTable? && s.pc[t].op.Sweep? && s.pc[t].op.i < |s.job| && s.job[s.pc[t].op.i].Some? {
      BeginKeepsValid(s.heap[s.job[s.pc[t].op.i].value].mon, t, Add);
    }
  }

  lemma StepInsideKeepsOps(s: State, t: Tid, b: Bid, out: PC)
    requires MembersAgree(s) && OpsAgree(s)
    requires t in s.pc && CanStep(s, t, b) && Inside(s.job, s.pc[t]) == Some(b) && Inside(s.job, out) == None
    ensures OpsAgree(StepInside(s, t, b, out))
  {
    forall u | u in s.heap[b].mon.stage && u in s.pc && Fits(s.pc[u].HasTable?, s.heap[b].mon.stage[u])
      ensures var mon := Run(s.heap[b].mon, t); u in mon.stage ==> Fits(s.pc[u].HasTable?, mon.stage[u])
    {
      RunKeepsFit(s.heap[b].mon, t, u, s.pc[u].HasTable?);
    }
  }

  lemma EnterKeepsOps(s: State, t: Tid, b: Bid, op: Op, pc: PC)
    requires OpsAgree(s)
    requires t in s.pc && b in s.heap && Inside(s.job, pc) == Some(b) && (op.Add? <==> pc.HasTable?)
    ensures OpsAgree(Enter(s, t, b, op, pc))
  {
  }

  lemma OutsideKeepsOps(s: State, t: Tid)
    requires TableInv(s) && OpsAgree(s) && t in s.pc && CanGo(s, t) && (s.pc[t].WantTable? || s.pc[t].Freeing?)
    ensures OpsAgree(Instruction(s, t))
  {
  }

  lemma UnderTableKeepsOps(s: State, t: Tid, op: TableOp)
    requires TableInv(s) && OpsAgree(s) && t in s.pc && s.pc[t] == HasTable(op) && CanWork(s, t, op)
    requires op.Sweep? ==> LightWork(s, op)
    ensures OpsAgree(UnderTable(s, t, op))
  {
  }

  lemma InstructionKeepsOps(s: State, t: Tid)
    requires TableInv(s) && MembersAgree(s) && OpsAgree(s) && t in s.pc && CanGo(s, t)
    ensures OpsAgree(Instruction(s, t))
  {
    match s.pc[t]
    case InBucket(b) => StepInsideKeepsOps(s, t, b, Idle);
    case WantTable(op) => OutsideKeepsOps(s, t);
    case Freeing(b) => OutsideKeepsOps(s, t);
    case HasTable(op) =>
      if !op.Sweep? || LightWork(s, op) { UnderTableKeepsOps(s, t, op); }
      else if op.visiting { StepInsideKeepsOps(s, t, s.job[op.i].value, HasTable(Sweep(op.i + 1, false))); }
      else { EnterKeepsOps(s, t, s.job[op.i].value, Add, HasTable(Sweep(op.i, true))); }
  }

  lemma UnderTableKeeps(s: State, t: Tid, op: TableOp)
    requires Inv(s) && t in s.pc && s.pc[t] == HasTable(op) && CanWork(s, t, op) && !op.Sweep?
    ensures TableInv(UnderTable(s, t, op)) && MembersAgree(UnderTable(s, t, op))
  {
    match op
    case Place(b) =>
      if FreePos(s.job, 0) == -1 { PlaceFullKeeps(s, t, b); } else { PlaceFoundKeeps(s, t, b); }
      PlaceKeepsMembers(s, t, b);
    case Unlink(b) => UnlinkKeeps(s, t, b); UnlinkKeepsMembers(s, t, b);
    case _ => LightWorkKeeps(s, t, op); LightWorkKeepsMembers(s, t, op);
  }

  lemma SweepKeeps(s: State, t: Tid, i: nat, visiting: bool)
    requires Inv(s) && t in s.pc && s.pc[t] == HasTable(Sweep(i, visiting)) && CanWork(s, t, Sweep(i, visiting))
    ensures TableInv(Instruction(s, t)) && MembersAgree(Instruction(s, t))
  {
    var op := Sweep(i, visiting);
    if LightWork(s, op) {
      LightWorkKeeps(s, t, op); LightWorkKeepsMembers(s, t, op);
    } else if visiting {
      StepInsideKeeps(s, t, s.job[i].value, HasTable(Sweep(i + 1, false)));
      StepInsideKeepsMembers(s, t, s.job[i].value, HasTable(Sweep(i + 1, false)));
    } else {
      SweepEnters(s, t, i, s.job[i].value);
      EnterKeepsMembers(s, t, s.job[i].value, Add, HasTable(Sweep(i, true)));
    }
  }

  lemma InstructionKeeps(s: State, t: Tid)
    requires Inv(s) && t in s.pc && CanGo(s, t)
    ensures Inv(Instruction(s, t))
  {
    InstructionKeepsMonitors(s, t);
    InstructionKeepsOps(s, t);
    match s.pc[t]
    case InBucket(b) => StepInsideKeeps(s, t, b, Idle); StepInsideKeepsMembers(s, t, b, Idle);
    case WantTable(op) => LockKeeps(s, t); OutsideKeepsMembers(s, t);
    case Freeing(b) => FreeKeeps(s, t); OutsideKeepsMembers(s, t);
    case HasTable(op) => if op.Sweep? { SweepKeeps(s, t, op.i, op.visiting); } else { UnderTableKeeps(s, t, op); }
  }

  lemma CreateKeepsInv(s: State, t: Tid, csp: int, burst: int)
    requires Inv(s) && t in s.pc && s.pc[t].Idle?
    ensures Inv(Create(s, t, csp, burst))
  {
    CreateKeeps(s, t, csp, burst);
    CreateKeepsMembers(s, t, csp, burst);
  }

  lemma CondemnKeepsInv(s: State, t: Tid, b: Bid)
    requires Inv(s) && t in s.pc && s.pc[t].Idle? && IsHandle(s, b)
    requires forall u :: u in s.pc ==> s.pc[u] != InBucket(b)
    ensures Inv(Condemn(s, t, b))
  {
    CondemnKeeps(s, t, b);
    CondemnKeepsMembers(s, t, b);
  }

  lemma TickCallKeepsTable(s: State, t: Tid)
    requires TableInv(s) && t in s.pc && s.pc[t].Idle?
    ensures TableInv(At(s, t, WantTable(Sweep(0, false))))
  {
  }

  lemma TickCallKeepsMembers(s: State, t: Tid)
    requires MembersAgree(s) && OpsAgree(s) && t in s.pc && s.pc[t].Idle?
    ensures MembersAgree(At(s, t, WantTable(Sweep(0, false)))) && OpsAgree(At(s, t, WantTable(Sweep(0, false))))
  {
  }

  lemma TickCallKeepsInv(s: State, t: Tid)
    requires Inv(s) && t in s.pc && s.pc[t].Idle?
    ensures Inv(At(s, t, WantTable(Sweep(0, false))))
  {
    TickCallKeepsTable(s, t);
    TickCallKeepsMembers(s, t);
  }

  lemma UseKeeps(s: State, t: Tid, b: Bid, op: Op)
    requires Inv(s) && t in s.pc && s.pc[t].Idle? && IsHandle(s, b) && !op.Add? && op.n > 0
    ensures Inv(Enter(s, t, b, op, InBucket(b)))
  {
    CallEnters(s, t, b, op);
    EnterKeepsMembers(s, t, b, op, InBucket(b));
    BeginKeepsValid(s.heap[b].mon, t, op);
  }

  lemma SameMembersKeep(s: State, b: Bid, mon: Monitor)
    requires MembersAgree(s) && b in s.heap && mon.stage.Keys == s.heap[b].mon.stage.Keys
    ensures MembersAgree(SetMonitor(s, b, mon))
  {
  }

  lemma SpuriousKeeps(s: State, t: Tid)
    requires Inv(s) && t in s.pc && Sleeping(s, t)
    ensures Inv(Apply(s, Move(t, SpuriousWake)))
  {
    var mon := Spurious(s.heap[s.pc[t].b].mon, t);
    SpuriousKeepsValid(s.heap[s.pc[t].b].mon, t);
    NewMonitorKeeps(s, s.pc[t].b, mon);
    SameMembersKeep(s, s.pc[t].b, mon);
  }

  lemma StepKeepsInv(s: State, m: Move)
    requires Inv(s) && Enabled(s, m)
    ensures Inv(Apply(s, m))
  {
    match m.act
    case Go => InstructionKeeps(s, m.t);
    case SpuriousWake => SpuriousKeeps(s, m.t);
    case CallFetch(b, n) => if n > 0 { UseKeeps(s, m.t, b, Take(n)); }
    case CallReturn(b, n) => if n > 0 { UseKeeps(s, m.t, b, Give(n)); }
    case CallTick => TickCallKeepsInv(s, m.t);
    case CallInit(csp, burst) => CreateKeepsInv(s, m.t, csp, burst);
    case CallDestroy(b) => CondemnKeepsInv(s, m.t, b);
  }
}
