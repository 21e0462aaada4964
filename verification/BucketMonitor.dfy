/** One token bucket, its lock and its condition variable, as any number of
    threads see it. A step is what a thread does between two points where
    another thread could notice: taking the lock, an update under the lock, a
    broadcast, a wait, giving the lock up. */
module BucketMonitor {
  import opened Monitors
  import opened Tokens

  type Tid = nat

  /** What a thread came to do: a tick's credit, a fetch, a return. */
  datatype Op = Add | Take(n: int) | Give(n: int)

  datatype Monitor = Monitor(csp: int, burst: int, token: int, lock: Option<Tid>, stage: map<Tid, Stage<Op>>)

  predicate Ready(m: Monitor, t: Tid) {
    CanMove(m.lock, m.stage, t)
  }

  function Begin(m: Monitor, t: Tid, op: Op): Monitor {
    m.(stage := m.stage[t := Want(op)])
  }

  function Update(m: Monitor, t: Tid, op: Op): Monitor {
    match op
    case Add => m.(token := Credit(m.token, m.csp, m.burst), stage := m.stage[t := Changed])
    case Give(n) => m.(token := Refund(m.token, n, m.burst), stage := m.stage[t := Changed])
    case Take(n) =>
      if m.token <= 0 then m.(lock := None, stage := m.stage[t := Asleep(op)])
      else m.(token := m.token - Share(m.token, n), stage := m.stage[t := Leaving])
  }

  function Run(m: Monitor, t: Tid): Monitor
    requires Ready(m, t)
  {
    match m.stage[t]
    case Want(op) => m.(lock := Some(t), stage := m.stage[t := Entered(op)])
    case Entered(op) => Update(m, t, op)
    case Changed => m.(stage := Broadcast(m.stage)[t := Leaving])
    case Leaving => m.(lock := None, stage := m.stage - {t})
  }

  /** POSIX lets a wait return with nobody having signalled. */
  function Spurious(m: Monitor, t: Tid): Monitor
    requires t in m.stage && m.stage[t].Asleep?
  {
    m.(stage := m.stage[t := Roused(m.stage[t])])
  }

  // ---------- what one step of a thread does to the tokens, as an observer counts it ----------

  function Credited(m: Monitor, t: Tid): nat {
    if t in m.stage && m.stage[t] == Entered(Add) then 1 else 0
  }

  function Given(m: Monitor, t: Tid): int {
    if t in m.stage && m.stage[t].Entered? && m.stage[t].op.Give? then m.stage[t].op.n else 0
  }

  function Granted(m: Monitor, t: Tid): int {
    if t in m.stage && m.stage[t].Entered? && m.stage[t].op.Take? && m.token > 0
    then Share(m.token, m.stage[t].op.n)
    else 0
  }

  /** What the cap throws away. */
  function Spilled(m: Monitor, t: Tid): int {
    var sum := m.token + m.csp * Credited(m, t) + Given(m, t);
    if t in m.stage && m.stage[t].Entered? && !m.stage[t].op.Take? then sum - Min(sum, m.burst) else 0
  }

  /** What a thread that came to return tokens has still to add. */
  function ToGive(g: Stage<Op>): int {
    if (g.Want? || g.Entered?) && g.op.Give? then g.op.n else 0
  }

  // ---------- invariants ----------

  /** Callers pass positive amounts this far: both operations refuse the others at their door. */
  predicate AmountsPositive(m: Monitor) {
    forall t :: t in m.stage ==>
      match m.stage[t]
      case Want(op) => op.Add? || op.n > 0
      case Entered(op) => op.Add? || op.n > 0
      case Asleep(op) => op.Take? && op.n > 0
      case _ => true
  }

  /** A sane configuration: a rate and a cap that are not negative. */
  predicate Sane(m: Monitor) {
    m.csp >= 0 && m.burst >= 0
  }

  predicate TokenInRange(m: Monitor) {
    Sane(m) ==> 0 <= m.token <= m.burst
  }

  /** A thread sleeps only while there is nothing to take, or while whoever added
      tokens holds the lock and has its broadcast still to come. */
  predicate NoLostWakeup(m: Monitor) {
    forall t :: t in m.stage && m.stage[t].Asleep? ==>
      m.token <= 0 || (m.lock.Some? && m.lock.value in m.stage && m.stage[m.lock.value].Changed?)
  }

  predicate Valid(m: Monitor) {
    OneHolder(m.lock, m.stage) && AmountsPositive(m) && TokenInRange(m) && NoLostWakeup(m)
  }

  /** What a thread inside a bucket came for: a sweep credits, a caller fetches or returns. */
  predicate Fits(sweeping: bool, g: Stage<Op>) {
    match g
    case Want(op) => op.Add? <==> sweeping
    case Entered(op) => op.Add? <==> sweeping
    case Asleep(op) => op.Take? && !sweeping
    case _ => true
  }

  lemma RunKeepsValid(m: Monitor, t: Tid)
    requires Valid(m) && Ready(m, t)
    ensures Valid(Run(m, t))
  {
  }

  lemma BeginKeepsValid(m: Monitor, t: Tid, op: Op)
    requires Valid(m) && t !in m.stage && (op.Add? || op.n > 0)
    ensures Valid(Begin(m, t, op))
  {
  }

  lemma SpuriousKeepsValid(m: Monitor, t: Tid)
    requires Valid(m) && t in m.stage && m.stage[t].Asleep?
    ensures Valid(Spurious(m, t))
  {
  }

  lemma RunKeepsFit(m: Monitor, t: Tid, u: Tid, sweeping: bool)
    requires Ready(m, t) && u in m.stage && Fits(sweeping, m.stage[u])
    ensures u in Run(m, t).stage ==> Fits(sweeping, Run(m, t).stage[u])
  {
  }

  /** A step moves nobody else but the sleepers it wakes. */
  lemma RunKeepsOthers(m: Monitor, t: Tid, u: Tid)
    requires Ready(m, t) && u != t && u in m.stage && !m.stage[u].Asleep?
    ensures u in Run(m, t).stage && Run(m, t).stage[u] == m.stage[u]
  {
  }

  /** What a step adds to the tokens is what its thread has no longer to add, and the others still have to. */
  lemma RunGives(m: Monitor, t: Tid, u: Tid)
    requires Valid(m) && Ready(m, t)
    ensures Given(m, t) == AmountAt(m.stage, ToGive, t) - AmountAt(Run(m, t).stage, ToGive, t)
    ensures u != t ==> AmountAt(Run(m, t).stage, ToGive, u) == AmountAt(m.stage, ToGive, u)
  {
  }

  /** A step brings its thread nearer to leaving, unless it is a fetch that finds nothing. */
  lemma RunWorks(m: Monitor, t: Tid)
    requires Ready(m, t)
    ensures var stage' := Run(m, t).stage;
      t in stage' ==> (stage'[t].Asleep? && !Fits(true, m.stage[t])) || StageWork(stage'[t]) < StageWork(m.stage[t])
  {
  }

  // ---------- consequences ----------

  /** With the lock free, a sleeper means an empty bucket; exactly empty when the configuration is sane. */
  lemma SleepersMeanEmpty(m: Monitor, t: Tid)
    requires Valid(m) && m.lock.None? && t in m.stage && m.stage[t].Asleep?
    ensures m.token <= 0
    ensures Sane(m) ==> m.token == 0
  {
  }

  /** Whoever waits for the lock waits for a thread that can go on by itself. */
  lemma HolderReady(m: Monitor, t: Tid)
    requires Valid(m) && t in m.stage && m.stage[t].Want? && !Ready(m, t)
    ensures m.lock.Some? && m.lock.value != t && Ready(m, m.lock.value)
  {
  }

  /** The account of one step, to the token: what a credit or a return brings is in the
      bucket, granted, or lost over the cap, and nothing else moves. */
  lemma RunConserves(m: Monitor, t: Tid)
    requires Valid(m) && Ready(m, t)
    ensures Run(m, t).token + Granted(m, t) + Spilled(m, t) == m.token + m.csp * Credited(m, t) + Given(m, t)
    ensures 0 <= Granted(m, t) && 0 <= Given(m, t) && 0 <= Spilled(m, t)
    ensures Granted(m, t) > 0 ==> Granted(m, t) <= m.token
    ensures Spilled(m, t) > 0 ==> Run(m, t).token == m.burst
  {
  }

  /** A fetch that finds tokens gets at least one and all it asked for, unless that empties the bucket; one
      that finds none gets nothing, sleeps, and lets the lock go. */
  lemma FetchGetsOrSleeps(m: Monitor, t: Tid, n: int)
    requires Valid(m) && Ready(m, t) && m.stage[t] == Entered(Take(n))
    ensures var m', got := Run(m, t), Granted(m, t);
      if m.token > 0 then
        1 <= got <= n && (got == n || m'.token == 0) && m'.stage == m.stage[t := Leaving] && m'.lock == m.lock
      else got == 0 && m'.token == m.token && m'.stage == m.stage[t := Asleep(Take(n))] && m'.lock == None
  {
  }
}
