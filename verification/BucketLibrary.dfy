/** The whole token-bucket library: a table of buckets under one lock, a lock per
    bucket, and any number of threads that sweep, create, fetch, return and
    destroy in any interleaving. Buckets are named by their allocation, so a name
    is never used twice. */
module BucketLibrary {
  import opened Monitors
  import opened Tokens
  import opened BucketMonitor

  type Bid = nat

  /** Work under the table lock. A sweep at slot `i` is looking at the slot, or is
      visiting the bucket it found there. */
  datatype TableOp =
    | Sweep(i: nat, visiting: bool)
    | Place(b: Bid) | Placed(result: Option<Bid>)
    | Unlink(b: Bid) | Unlinked(b: Bid)

  datatype PC =
    | Idle
    | InBucket(b: Bid)         // fetching or returning
    | WantTable(op: TableOp)
    | HasTable(op: TableOp)
    | Freeing(b: Bid)

  /** Who may use a bucket: the one thread that creates or destroys it, or any
      caller, from the return of its init to the call of its destroy. */
  datatype User = Private(t: Tid) | Shared

  datatype Bucket = Bucket(mon: Monitor, pos: int, user: User)

  datatype State = State(
    pc: map<Tid, PC>, table: Option<Tid>, job: seq<Option<Bid>>, heap: map<Bid, Bucket>, next: Bid)

  datatype Act =
    | Go
    | CallTick | CallInit(csp: int, burst: int) | CallFetch(b: Bid, n: int)
    | CallReturn(b: Bid, n: int) | CallDestroy(b: Bid)
    | SpuriousWake

  datatype Move = Move(t: Tid, act: Act)

  /** The lowest free slot from `from` on, or -1. */
  function FreePos<T>(job: seq<Option<T>>, from: nat): (pos: int)
    requires from <= |job|
    ensures pos == -1 <==> forall i :: from <= i < |job| ==> job[i].Some?
    ensures pos != -1 ==> from <= pos < |job| && job[pos].None? && forall i :: from <= i < pos ==> job[i].Some?
    decreases |job| - from
  {
    if from == |job| then -1
    else if job[from].None? then from
    else FreePos(job, from + 1)
  }

  /** The bucket a thread is inside: waiting for its lock, holding it, or asleep in it. */
  function Inside(job: seq<Option<Bid>>, pc: PC): Option<Bid> {
    match pc
    case InBucket(b) => Some(b)
    case HasTable(Sweep(i, true)) => if i < |job| then job[i] else None
    case _ => None
  }

  // ---------- steps ----------

  /** Thread `t`, inside bucket `b`, has a step to take there. */
  predicate CanStep(s: State, t: Tid, b: Bid) {
    b in s.heap && Ready(s.heap[b].mon, t)
  }

  predicate CanWork(s: State, t: Tid, op: TableOp) {
    match op
    case Sweep(i, false) => i <= |s.job| && (i < |s.job| && s.job[i].Some? ==> s.job[i].value in s.heap)
    case Sweep(i, true) => i < |s.job| && s.job[i].Some? && CanStep(s, t, s.job[i].value)
    case Place(b) => b in s.heap
    case Placed(r) => r.Some? ==> r.value in s.heap
    case Unlink(b) => b in s.heap && 0 <= s.heap[b].pos < |s.job|
    case Unlinked(b) => true
  }

  /** The thread's next instruction finds its lock free and touches only memory that is allocated. */
  predicate CanGo(s: State, t: Tid)
    requires t in s.pc
  {
    match s.pc[t]
    case Idle => false
    case InBucket(b) => CanStep(s, t, b)
    case WantTable(op) => s.table.None?
    case HasTable(op) => CanWork(s, t, op)
    case Freeing(b) => b in s.heap
  }

  predicate Sleeping(s: State, t: Tid)
    requires t in s.pc
  {
    s.pc[t].InBucket? && s.pc[t].b in s.heap
    && t in s.heap[s.pc[t].b].mon.stage && s.heap[s.pc[t].b].mon.stage[t].Asleep?
  }

  predicate IsHandle(s: State, b: Bid) {
    b in s.heap && s.heap[b].user.Shared?
  }

  /** A caller may start an operation when idle, on a handle it may use. A bucket
      is passed to destroy once, when no fetch or return is under way on it. */
  predicate Enabled(s: State, m: Move) {
    && m.t in s.pc
    && match m.act
       case Go => CanGo(s, m.t)
       case SpuriousWake => Sleeping(s, m.t)
       case CallDestroy(b) => s.pc[m.t].Idle? && IsHandle(s, b) && forall u :: u in s.pc ==> s.pc[u] != InBucket(b)
       case CallFetch(b, _) => s.pc[m.t].Idle? && IsHandle(s, b)
       case CallReturn(b, _) => s.pc[m.t].Idle? && IsHandle(s, b)
       case _ => s.pc[m.t].Idle?
  }

  function At(s: State, t: Tid, pc: PC): State {
    s.(pc := s.pc[t := pc])
  }

  function SetMonitor(s: State, b: Bid, mon: Monitor): State
    requires b in s.heap
  {
    s.(heap := s.heap[b := s.heap[b].(mon := mon)])
  }

  /** Thread `t` enters bucket `b`'s monitor. */
  function Enter(s: State, t: Tid, b: Bid, op: Op, pc: PC): State
    requires b in s.heap
  {
    At(SetMonitor(s, b, Begin(s.heap[b].mon, t, op)), t, pc)
  }

  /** Thread `t` takes a step inside bucket `b`, and goes on with `out` once it has left. */
  function StepInside(s: State, t: Tid, b: Bid, out: PC): State
    requires CanStep(s, t, b) && t in s.pc
  {
    var mon := Run(s.heap[b].mon, t);
    At(SetMonitor(s, b, mon), t, if t in mon.stage then s.pc[t] else out)
  }

  function UnderTable(s: State, t: Tid, op: TableOp): State
    requires t in s.pc && CanWork(s, t, op)
  {
    match op
    case Sweep(i, false) =>
      if i == |s.job| then At(s.(table := None), t, Idle)
      else if s.job[i].None? then At(s, t, HasTable(Sweep(i + 1, false)))
      else Enter(s, t, s.job[i].value, Add, HasTable(Sweep(i, true)))
    case Sweep(i, true) => StepInside(s, t, s.job[i].value, HasTable(Sweep(i + 1, false)))
    case Place(b) =>
      var pos := FreePos(s.job, 0);
      if pos == -1 then At(s.(heap := s.heap - {b}), t, HasTable(Placed(None)))
      else
        var s' := s.(heap := s.heap[b := s.heap[b].(pos := pos)], job := s.job[pos := Some(b)]);
        At(s', t, HasTable(Placed(Some(b))))
    case Placed(r) =>
      var heap := if r.Some? then s.heap[r.value := s.heap[r.value].(user := Shared)] else s.heap;
      At(s.(table := None, heap := heap), t, Idle)
    case Unlink(b) => At(s.(job := s.job[s.heap[b].pos := None]), t, HasTable(Unlinked(b)))
    case Unlinked(b) => At(s.(table := None), t, Freeing(b))
  }

  function Instruction(s: State, t: Tid): State
    requires t in s.pc && CanGo(s, t)
  {
    match s.pc[t]
    case InBucket(b) => StepInside(s, t, b, Idle)
    case WantTable(op) => At(s.(table := Some(t)), t, HasTable(op))
    case HasTable(op) => UnderTable(s, t, op)
    case Freeing(b) => At(s.(heap := s.heap - {b}), t, Idle)
  }

  function Create(s: State, t: Tid, csp: int, burst: int): State {
    At(s.(heap := s.heap[s.next := Bucket(Monitor(csp, burst, 0, None, map[]), -1, Private(t))], next := s.next + 1),
       t, WantTable(Place(s.next)))
  }

  function Condemn(s: State, t: Tid, b: Bid): State
    requires b in s.heap
  {
    At(s.(heap := s.heap[b := s.heap[b].(user := Private(t))]), t, WantTable(Unlink(b)))
  }

  function Apply(s: State, m: Move): State
    requires Enabled(s, m)
  {
    match m.act
    case Go => Instruction(s, m.t)
    case SpuriousWake => SetMonitor(s, s.pc[m.t].b, Spurious(s.heap[s.pc[m.t].b].mon, m.t))
    case CallTick => At(s, m.t, WantTable(Sweep(0, false)))
    case CallInit(csp, burst) => Create(s, m.t, csp, burst)
    case CallFetch(b, n) => if n <= 0 then s else Enter(s, m.t, b, Take(n), InBucket(b))
    case CallReturn(b, n) => if n <= 0 then s else Enter(s, m.t, b, Give(n), InBucket(b))
    case CallDestroy(b) => Condemn(s, m.t, b)
  }

  predicate Init(s: State) {
    && s.table.None? && s.heap == map[]
    && (forall i :: 0 <= i < |s.job| ==> s.job[i].None?)
    && (forall t :: t in s.pc ==> s.pc[t].Idle?)
  }

  /** `moves` is a run from `s`. */
  predicate Feasible(s: State, moves: seq<Move>)
    decreases |moves|
  {
    moves == [] || (Enabled(s, moves[0]) && Feasible(Apply(s, moves[0]), moves[1..]))
  }

  function After(s: State, moves: seq<Move>): State
    requires Feasible(s, moves)
    decreases |moves|
  {
    if moves == [] then s else After(Apply(s, moves[0]), moves[1..])
  }
}
