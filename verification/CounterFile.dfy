/** The counter file: threads that each read a number from the start of a text
    file and print the next one over it, under a lock, without truncating the file. */
module CounterFile {
  import opened Tokens
  import opened Decimal

  const BUFSIZE := 1024

  /** fgets: the first line with its newline, at most BUFSIZE - 1 characters of it; at the end of the file
      the buffer stays as it was. */
  function Fgets(file: string, buf: string): string {
    if file == [] then buf else Line(file, BUFSIZE - 1)
  }

  function Line(s: string, max: nat): string {
    if s == [] || max == 0 then []
    else if s[0] == '\n' then ['\n']
    else [s[0]] + Line(s[1..], max - 1)
  }

  /** Writing at the start of a file replaces as many characters as are written, and keeps the rest. */
  function Overwrite(file: string, text: string): (r: string)
    ensures |r| == if |text| >= |file| then |text| else |file|
  {
    if |text| >= |file| then text else text + file[|text|..]
  }

  datatype PC = Opening | Locking | Reading | Printing | Unlocking | Closed

  /** `strbuf` is the buffer all threads share; `prints` counts the numbers printed. */
  datatype State = State(file: string, strbuf: string, lock: Option<nat>, pcs: seq<PC>, prints: nat)

  predicate Enabled(s: State, t: nat) {
    t < |s.pcs| && !s.pcs[t].Closed? && (s.pcs[t].Locking? ==> s.lock.None?)
  }

  function Apply(s: State, t: nat): State
    requires Enabled(s, t)
  {
    match s.pcs[t]
    case Opening => s.(pcs := s.pcs[t := Locking])
    case Locking => s.(lock := Some(t), pcs := s.pcs[t := Reading])
    case Reading => s.(strbuf := Fgets(s.file, s.strbuf), pcs := s.pcs[t := Printing])
    case Printing =>
      s.(file := Overwrite(s.file, Print(Atoi(s.strbuf) + 1) + "\n"), prints := s.prints + 1,
         pcs := s.pcs[t := Unlocking])
    case Unlocking => s.(lock := None, pcs := s.pcs[t := Closed])
  }

  predicate Init(s: State, v: int) {
    s.file == Print(v) + "\n" && s.lock.None? && s.prints == 0 && forall t :: 0 <= t < |s.pcs| ==> s.pcs[t].Opening?
  }

  predicate Feasible(s: State, ts: seq<nat>)
    decreases |ts|
  {
    ts == [] || (Enabled(s, ts[0]) && Feasible(Apply(s, ts[0]), ts[1..]))
  }

  function After(s: State, ts: seq<nat>): State
    requires Feasible(s, ts)
    decreases |ts|
  {
    if ts == [] then s else After(Apply(s, ts[0]), ts[1..])
  }

  predicate AllClosed(s: State) {
    forall t :: 0 <= t < |s.pcs| ==> s.pcs[t].Closed?
  }

  // ---------- one critical section ----------

  /** The first line of the file is the number `v`. */
  predicate Holds(file: string, v: int) {
    Print(v) + "\n" <= file
  }

  lemma {:induction false} LineOf(s: string, rest: string, max: nat)
    requires |s| < max && '\n' !in s
    ensures Line(s + "\n" + rest, max) == s + "\n"
    decreases |s|
  {
    if s != [] {
      assert (s + "\n" + rest)[1..] == s[1..] + "\n" + rest;
      LineOf(s[1..], rest, max - 1);
    }
  }

  lemma PrintHasNoNewline(v: int)
    ensures '\n' !in Print(v)
  {
    var s := PrintNat(if v >= 0 then v else -v);
    assert forall k :: 0 <= k < |s| ==> IsDigit(s[k]);
  }

  /** Reading a file that holds `v` gives its line, and that line parses to `v`. */
  lemma ReadsBack(file: string, buf: string, v: int)
    requires Holds(file, v) && INT_MIN <= v <= INT_MAX
    ensures Fgets(file, buf) == Print(v) + "\n" && Atoi(Fgets(file, buf)) == v
  {
    IntsAreShort(v);
    PrintHasNoNewline(v);
    assert file == Print(v) + "\n" + file[|Print(v)| + 1..];
    LineOf(Print(v), file[|Print(v)| + 1..], BUFSIZE - 1);
    AtoiPrint(v, "\n");
  }

  // ---------- all threads ----------

  predicate Critical(pc: PC) {
    pc.Reading? || pc.Printing? || pc.Unlocking?
  }

  /** Threads that have printed. */
  function Printed(pcs: seq<PC>): (n: nat)
    ensures n <= |pcs|
  {
    if pcs == [] then 0
    else Printed(pcs[..|pcs| - 1]) + (if pcs[|pcs| - 1].Unlocking? || pcs[|pcs| - 1].Closed? then 1 else 0)
  }

  lemma {:induction false} PrintedUpdate(pcs: seq<PC>, t: nat, pc: PC)
    requires t < |pcs|
    ensures Printed(pcs[t := pc]) == Printed(pcs) - (if pcs[t].Unlocking? || pcs[t].Closed? then 1 else 0)
                                               + (if pc.Unlocking? || pc.Closed? then 1 else 0)
  {
    var k := |pcs| - 1;
    if t < k {
      PrintedUpdate(pcs[..k], t, pc);
      assert pcs[t := pc][..k] == pcs[..k][t := pc];
    } else {
      assert pcs[t := pc][..k] == pcs[..k];
    }
  }

  lemma {:induction false} PrintedBounds(pcs: seq<PC>)
    ensures (forall t :: 0 <= t < |pcs| ==> pcs[t].Opening?) ==> Printed(pcs) == 0
    ensures (forall t :: 0 <= t < |pcs| ==> pcs[t].Closed?) ==> Printed(pcs) == |pcs|
  {
    if pcs != [] { PrintedBounds(pcs[..|pcs| - 1]); }
  }

  /** The file holds v plus the number of prints; whoever has read has read just that. */
  predicate Inv(s: State, v: int) {
    && Holds(s.file, v + s.prints) && s.prints == Printed(s.pcs)
    && (forall t :: 0 <= t < |s.pcs| ==> (Critical(s.pcs[t]) <==> s.lock == Some(t)))
    && (s.lock.Some? ==> s.lock.value < |s.pcs|)
    && (forall t :: 0 <= t < |s.pcs| && s.pcs[t].Printing? ==> s.strbuf == Print(v + s.prints) + "\n")
    && INT_MIN <= v && v + |s.pcs| <= INT_MAX
  }

  lemma PrintStepKeeps(s: State, v: int, t: nat)
    requires Inv(s, v) && Enabled(s, t) && s.pcs[t].Printing?
    ensures Inv(Apply(s, t), v)
  {
    PrintedUpdate(s.pcs, t, Unlocking);
    AtoiPrint(v + s.prints, "\n");
  }

  lemma ReadStepKeeps(s: State, v: int, t: nat)
    requires Inv(s, v) && Enabled(s, t) && s.pcs[t].Reading?
    ensures Inv(Apply(s, t), v)
  {
    PrintedUpdate(s.pcs, t, Printing);
    ReadsBack(s.file, s.strbuf, v + s.prints);
  }

  lemma LockStepKeeps(s: State, v: int, t: nat)
    requires Inv(s, v) && Enabled(s, t) && (s.pcs[t].Opening? || s.pcs[t].Locking?)
    ensures Inv(Apply(s, t), v)
  {
    PrintedUpdate(s.pcs, t, if s.pcs[t].Opening? then Locking else Reading);
  }

  lemma UnlockStepKeeps(s: State, v: int, t: nat)
    requires Inv(s, v) && Enabled(s, t) && s.pcs[t].Unlocking?
    ensures Inv(Apply(s, t), v)
  {
    PrintedUpdate(s.pcs, t, Closed);
  }

  lemma StepKeeps(s: State, v: int, t: nat)
    requires Inv(s, v) && Enabled(s, t)
    ensures Inv(Apply(s, t), v) && |Apply(s, t).pcs| == |s.pcs|
  {
    if s.pcs[t].Printing? { PrintStepKeeps(s, v, t); }
    else if s.pcs[t].Reading? { ReadStepKeeps(s, v, t); }
    else if s.pcs[t].Unlocking? { UnlockStepKeeps(s, v, t); }
    else { LockStepKeeps(s, v, t); }
  }

  function Longer(a: nat, b: nat): nat { if a >= b then a else b }

  /** The file is as long as the longer of the first and the last number in it, and their newline. */
  predicate LengthOk(s: State, v: int) {
    |s.file| == Longer(|Print(v)|, |Print(v + s.prints)|) + 1
  }

  /** Counting up, no number in between is longer than both the first and the next. */
  lemma NoneLongerBetween(v: int, last: int)
    requires v <= last
    ensures |Print(last)| <= Longer(|Print(v)|, |Print(last + 1)|)
  {
    if last < 0 { PrintLengthBelowZero(v, last); } else { PrintLengthMonotone(last, last + 1); }
  }

  lemma StepLength(s: State, v: int, t: nat)
    requires Inv(s, v) && LengthOk(s, v) && Enabled(s, t)
    ensures LengthOk(Apply(s, t), v)
  {
    if s.pcs[t].Printing? {
      AtoiPrint(v + s.prints, "\n");
      NoneLongerBetween(v, v + s.prints);
    }
  }

  lemma {:induction false} RunKeeps(s: State, v: int, ts: seq<nat>)
    requires Inv(s, v) && LengthOk(s, v) && Feasible(s, ts)
    ensures Inv(After(s, ts), v) && LengthOk(After(s, ts), v) && |After(s, ts).pcs| == |s.pcs|
    decreases |ts|
  {
    if ts != [] {
      StepKeeps(s, v, ts[0]);
      StepLength(s, v, ts[0]);
      RunKeeps(Apply(s, ts[0]), v, ts[1..]);
    }
  }

  lemma InitInv(s: State, v: int)
    requires Init(s, v) && INT_MIN <= v && v + |s.pcs| <= INT_MAX
    ensures Inv(s, v) && LengthOk(s, v)
  {
    PrintedBounds(s.pcs);
  }

  lemma AllHavePrinted(s: State, v: int, ts: seq<nat>)
    requires Inv(s, v) && LengthOk(s, v) && Feasible(s, ts) && AllClosed(After(s, ts))
    ensures After(s, ts).prints == |s.pcs|
  {
    RunKeeps(s, v, ts);
    PrintedBounds(After(s, ts).pcs);
  }

  /** Whatever the order of the threads, when all have ended the first line of the file is v plus their number. */
  lemma CountsEveryThread(s: State, v: int, ts: seq<nat>)
    requires Init(s, v) && INT_MIN <= v && v + |s.pcs| <= INT_MAX
    requires Feasible(s, ts) && AllClosed(After(s, ts))
    ensures Holds(After(s, ts).file, v + |s.pcs|)
    ensures |After(s, ts).file| == Longer(|Print(v)|, |Print(v + |s.pcs|)|) + 1
  {
    InitInv(s, v);
    RunKeeps(s, v, ts);
    AllHavePrinted(s, v, ts);
  }

  /** A run that has ended leaves that line and nothing else exactly when the last number is printed
      at least as long as the first. */
  lemma ExactIffNotShorter(s: State, v: int, ts: seq<nat>)
    requires Init(s, v) && INT_MIN <= v && v + |s.pcs| <= INT_MAX
    requires Feasible(s, ts) && AllClosed(After(s, ts))
    ensures After(s, ts).file == Print(v + |s.pcs|) + "\n" <==> |Print(v)| <= |Print(v + |s.pcs|)|
  {
    CountsEveryThread(s, v, ts);
    PrefixOfSameLength(Print(v + |s.pcs|) + "\n", After(s, ts).file);
  }

  lemma PrefixOfSameLength(a: string, b: string)
    requires a <= b
    ensures a == b <==> |a| == |b|
  {
  }

  // ---------- from an empty file ----------

  predicate InitEmpty(s: State) {
    && s.file == "" && s.strbuf == "" && s.lock.None? && s.prints == 0
    && forall t :: 0 <= t < |s.pcs| ==> s.pcs[t].Opening?
  }

  /** Nothing has been printed yet, and whoever has read has read nothing. */
  predicate StillEmpty(s: State) {
    && s.file == "" && s.strbuf == "" && s.prints == 0 && Printed(s.pcs) == 0
    && (forall t :: 0 <= t < |s.pcs| ==> (Critical(s.pcs[t]) <==> s.lock == Some(t)))
    && (s.lock.Some? ==> s.lock.value < |s.pcs|)
    && |s.pcs| <= INT_MAX
  }

  lemma FirstPrint(s: State, t: nat)
    requires StillEmpty(s) && Enabled(s, t) && s.pcs[t].Printing?
    ensures Inv(Apply(s, t), 0) && LengthOk(Apply(s, t), 0)
  {
    PrintedUpdate(s.pcs, t, Unlocking);
    assert Atoi("") == 0 && |Print(0)| == 1 && |Print(1)| == 1;
  }

  lemma NoneHasPrinted(s: State, t: nat)
    requires StillEmpty(s) && t < |s.pcs|
    ensures !s.pcs[t].Unlocking? && !s.pcs[t].Closed?
  {
    PrintedUpdate(s.pcs, t, Opening);
  }

  lemma EmptyStep(s: State, t: nat)
    requires StillEmpty(s) && Enabled(s, t) && !s.pcs[t].Printing?
    ensures StillEmpty(Apply(s, t))
  {
    NoneHasPrinted(s, t);
    PrintedUpdate(s.pcs, t, Apply(s, t).pcs[t]);
  }

  lemma {:induction false} EmptyRun(s: State, ts: seq<nat>)
    requires StillEmpty(s) && Feasible(s, ts)
    ensures var e := After(s, ts);
      |e.pcs| == |s.pcs| && (StillEmpty(e) || (Inv(e, 0) && LengthOk(e, 0)))
    decreases |ts|
  {
    if ts != [] {
      if s.pcs[ts[0]].Printing? {
        FirstPrint(s, ts[0]);
        RunKeeps(Apply(s, ts[0]), 0, ts[1..]);
      } else {
        EmptyStep(s, ts[0]);
        EmptyRun(Apply(s, ts[0]), ts[1..]);
      }
    }
  }

  /** From an empty file the threads count from 0: the first finds nothing to read and prints 1. */
  lemma CountsFromEmpty(s: State, ts: seq<nat>)
    requires InitEmpty(s) && 0 < |s.pcs| <= INT_MAX && Feasible(s, ts) && AllClosed(After(s, ts))
    ensures After(s, ts).file == Print(|s.pcs|) + "\n"
  {
    PrintedBounds(s.pcs);
    EmptyRun(s, ts);
    var e := After(s, ts);
    if StillEmpty(e) { NoneHasPrinted(e, 0); }
    PrintedBounds(e.pcs);
    PrintLengthMonotone(0, |s.pcs|);
    PrefixOfSameLength(Print(|s.pcs|) + "\n", e.file);
  }

  /** In every state that a run reaches, some thread can move, unless all have ended. */
  lemma NeverStuck(s: State, v: int, ts: seq<nat>) returns (t: nat)
    requires Init(s, v) && INT_MIN <= v && v + |s.pcs| <= INT_MAX && Feasible(s, ts) && !AllClosed(After(s, ts))
    ensures Enabled(After(s, ts), t)
  {
    InitInv(s, v);
    RunKeeps(s, v, ts);
    var e := After(s, ts);
    t :| t < |e.pcs| && !e.pcs[t].Closed?;
    if e.lock.Some? { t := e.lock.value; }
  }

  // ---------- the other half ----------

  lemma Prepend(s: State, t: nat, ts: seq<nat>)
    requires Enabled(s, t) && Feasible(Apply(s, t), ts)
    ensures Feasible(s, [t] + ts) && After(s, [t] + ts) == After(Apply(s, t), ts)
  {
    assert ([t] + ts)[1..] == ts;
  }

  /** The threads can end, for instance one after the other. */
  lemma {:induction false} CanFinish(s: State, t: nat) returns (ts: seq<nat>)
    requires t <= |s.pcs| && s.lock.None?
    requires forall i :: 0 <= i < |s.pcs| ==> s.pcs[i] == if i < t then Closed else Opening
    ensures Feasible(s, ts) && AllClosed(After(s, ts))
    decreases |s.pcs| - t
  {
    if t == |s.pcs| {
      return [];
    }
    var s1 := Apply(s, t);
    var s2 := Apply(s1, t);
    var s3 := Apply(s2, t);
    var s4 := Apply(s3, t);
    ts := CanFinish(Apply(s4, t), t + 1);
    Prepend(s4, t, ts);
    Prepend(s3, t, [t] + ts);
    Prepend(s2, t, [t] + ([t] + ts));
    Prepend(s1, t, [t] + ([t] + ([t] + ts)));
    Prepend(s, t, [t] + ([t] + ([t] + ([t] + ts))));
    ts := [t] + ([t] + ([t] + ([t] + ([t] + ts))));
  }

  /** A run of `n` threads from a file that holds `v` ends with the number v + n, a newline, and nothing else. */
  ghost predicate EndsExact(v: int, s: State, ts: seq<nat>) {
    Init(s, v) && v + |s.pcs| <= INT_MAX && Feasible(s, ts) && AllClosed(After(s, ts)) ==>
      After(s, ts).file == Print(v + |s.pcs|) + "\n"
  }

  lemma NotNegativeEndsExact(v: int, s: State, ts: seq<nat>)
    requires v >= 0
    ensures EndsExact(v, s, ts)
  {
    if Init(s, v) && v + |s.pcs| <= INT_MAX && Feasible(s, ts) && AllClosed(After(s, ts)) {
      ExactIffNotShorter(s, v, ts);
      PrintLengthMonotone(v, v + |s.pcs|);
    }
  }

  lemma SignIsPrinted(v: int)
    requires v < 0
    ensures |Print(v)| > |Print(0)|
  {
  }

  /** The threads that count up from a negative number to 0 leave residue behind it. */
  lemma NegativeLeavesResidue(v: int) returns (s: State, ts: seq<nat>)
    requires INT_MIN <= v < 0
    ensures !EndsExact(v, s, ts)
  {
    s := State(Print(v) + "\n", "", None, seq(-v, _ => Opening), 0);
    ts := CanFinish(s, 0);
    ExactIffNotShorter(s, v, ts);
    SignIsPrinted(v);
  }

  /** So every run of any number of threads ends exactly if and only if the first number is not negative. */
  lemma ExactIffNotNegative(v: int)
    requires INT_MIN <= v <= INT_MAX
    ensures (forall s, ts :: EndsExact(v, s, ts)) <==> v >= 0
  {
    if v >= 0 {
      forall s, ts ensures EndsExact(v, s, ts) { NotNegativeEndsExact(v, s, ts); }
    } else {
      var s, ts := NegativeLeavesResidue(v);
    }
  }
}
