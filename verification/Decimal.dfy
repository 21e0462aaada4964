/** Printing an int with "%d" and parsing it with atoi. */
module Decimal {
  const INT_MAX: int := 0x7fff_ffff
  const INT_MIN: int := -0x8000_0000

  predicate IsDigit(c: char) {
    '0' <= c <= '9'
  }

  function Digit(d: nat): (c: char)
    requires d < 10
    ensures IsDigit(c) && DigitValue(c) == d
  {
    '0' + d as char
  }

  function DigitValue(c: char): int {
    c as int - '0' as int
  }

  function PrintNat(n: nat): (s: string)
    ensures s != [] && forall k :: 0 <= k < |s| ==> IsDigit(s[k])
  {
    if n < 10 then [Digit(n)] else PrintNat(n / 10) + [Digit(n % 10)]
  }

  /** "%d" */
  function Print(v: int): string {
    if v >= 0 then PrintNat(v) else "-" + PrintNat(-v)
  }

  /** The digits from the left, up to the first character that is none. */
  function Digits(s: string, acc: int): int {
    if s == [] || !IsDigit(s[0]) then acc else Digits(s[1..], 10 * acc + DigitValue(s[0]))
  }

  predicate IsSpace(c: char) {
    c == ' ' || '\t' <= c <= '\r'
  }

  /** atoi: spaces, a sign, digits. */
  function Atoi(s: string): int {
    if s == [] then 0
    else if IsSpace(s[0]) then Atoi(s[1..])
    else if s[0] == '-' then -Digits(s[1..], 0)
    else if s[0] == '+' then Digits(s[1..], 0)
    else Digits(s, 0)
  }

  lemma {:induction false} DigitsThrough(s: string, t: string, acc: int)
    requires forall k :: 0 <= k < |s| ==> IsDigit(s[k])
    ensures Digits(s + t, acc) == Digits(t, Digits(s, acc))
    decreases |s|
  {
    if s == [] {
      assert s + t == t;
    } else {
      assert (s + t)[1..] == s[1..] + t;
      DigitsThrough(s[1..], t, 10 * acc + DigitValue(s[0]));
    }
  }

  lemma {:induction false} DigitsOfPrint(n: nat)
    ensures Digits(PrintNat(n), 0) == n
  {
    if n < 10 {
      assert PrintNat(n)[1..] == [];
    } else {
      var last := [Digit(n % 10)];
      DigitsOfPrint(n / 10);
      DigitsThrough(PrintNat(n / 10), last, 0);
      assert last[1..] == [];
    }
  }

  lemma DigitsPrint(n: nat, rest: string)
    requires rest != [] && !IsDigit(rest[0])
    ensures Digits(PrintNat(n) + rest, 0) == n
  {
    DigitsThrough(PrintNat(n), rest, 0);
    DigitsOfPrint(n);
  }

  lemma AtoiOfDigit(s: string)
    requires s != [] && IsDigit(s[0])
    ensures Atoi(s) == Digits(s, 0)
  {
  }

  lemma AtoiOfMinus(text: string, rest: string, n: int)
    requires Digits(text + rest, 0) == n
    ensures Atoi("-" + text + rest) == -n
  {
    assert ("-" + text + rest)[1..] == text + rest;
  }

  lemma AtoiPrintNat(n: nat, rest: string)
    requires rest != [] && !IsDigit(rest[0])
    ensures Atoi(PrintNat(n) + rest) == n
  {
    DigitsPrint(n, rest);
    AtoiOfDigit(PrintNat(n) + rest);
  }

  lemma AtoiPrintMinus(v: int, rest: string)
    requires v < 0 && rest != [] && !IsDigit(rest[0])
    ensures Atoi(Print(v) + rest) == v
  {
    DigitsPrint(-v, rest);
    AtoiOfMinus(PrintNat(-v), rest, -v);
  }

  /** Parsing undoes printing, whatever follows the number, unless it is a digit. */
  lemma AtoiPrint(v: int, rest: string)
    requires rest != [] && !IsDigit(rest[0])
    ensures Atoi(Print(v) + rest) == v
  {
    if v >= 0 { AtoiPrintNat(v, rest); } else { AtoiPrintMinus(v, rest); }
  }

  /** It skips white space before the number, from tab to carriage return and the space, and takes a plus sign. */
  lemma {:induction false} AtoiSkips(spaces: string, v: nat, rest: string)
    requires forall k :: 0 <= k < |spaces| ==> 9 <= spaces[k] as int <= 13 || spaces[k] as int == 32
    requires rest != [] && !IsDigit(rest[0])
    ensures Atoi(spaces + ("+" + PrintNat(v) + rest)) == v
    decreases |spaces|
  {
    if spaces == [] {
      var s := "+" + PrintNat(v) + rest;
      assert spaces + s == s;
      AtoiOfPlus(PrintNat(v), rest);
      DigitsPrint(v, rest);
    } else {
      AtoiOfSpace(spaces[0], spaces[1..] + ("+" + PrintNat(v) + rest));
      assert spaces + ("+" + PrintNat(v) + rest) == [spaces[0]] + (spaces[1..] + ("+" + PrintNat(v) + rest));
      AtoiSkips(spaces[1..], v, rest);
    }
  }

  lemma AtoiOfPlus(text: string, rest: string)
    ensures Atoi("+" + text + rest) == Digits(text + rest, 0)
  {
    assert ("+" + text + rest)[1..] == text + rest;
  }

  lemma AtoiOfSpace(c: char, s: string)
    requires IsSpace(c)
    ensures Atoi([c] + s) == Atoi(s)
  {
    assert ([c] + s)[1..] == s;
  }

  function Pow10(k: nat): nat {
    if k == 0 then 1 else 10 * Pow10(k - 1)
  }

  lemma {:induction false} PrintLength(n: nat, k: nat)
    requires k >= 1 && n < Pow10(k)
    ensures |PrintNat(n)| <= k
  {
    if n >= 10 { PrintLength(n / 10, k - 1); }
  }

  lemma {:induction false} PrintLengthMonotone(m: nat, n: nat)
    requires m <= n
    ensures |PrintNat(m)| <= |PrintNat(n)|
  {
    if m >= 10 { PrintLengthMonotone(m / 10, n / 10); }
  }

  /** Below 0, a smaller number is never printed shorter. */
  lemma PrintLengthBelowZero(m: int, n: int)
    requires m <= n < 0
    ensures |Print(n)| <= |Print(m)|
  {
    PrintLengthMonotone(-n, -m);
  }

  lemma IntsAreShort(v: int)
    requires INT_MIN <= v <= INT_MAX
    ensures |Print(v)| <= 11
  {
    assert Pow10(5) == 100000;
    assert Pow10(10) == 10000000000;
    PrintLength(if v >= 0 then v else -v, 10);
  }
}
