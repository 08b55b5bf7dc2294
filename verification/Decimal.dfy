/** Decimal text: the names of temps and labels, and the text of literal operands. */
module Decimal {

  predicate IsDigit(c: char) { '0' <= c <= '9' }

  function Digit(d: nat): (c: char)
    requires d < 10
    ensures IsDigit(c)
  {
    ['0', '1', '2', '3', '4', '5', '6', '7', '8', '9'][d]
  }

  function DigitValue(c: char): (d: nat)
    requires IsDigit(c)
    ensures d < 10
  {
    (c as int) - ('0' as int)
  }

  predicate AllDigits(s: string) { forall i :: 0 <= i < |s| ==> IsDigit(s[i]) }

  function Dec(n: nat): (s: string)
    ensures |s| > 0 && AllDigits(s)
  {
    if n < 10 then [Digit(n)] else Dec(n / 10) + [Digit(n % 10)]
  }

  function Value(s: string): nat
    requires AllDigits(s)
  {
    if s == [] then 0 else 10 * Value(s[..|s| - 1]) + DigitValue(s[|s| - 1])
  }

  lemma {:induction false} ValueOfDec(n: nat)
    ensures Value(Dec(n)) == n
  {
    var s := Dec(n);
    if n < 10 {
      assert s[..|s| - 1] == [];
    } else {
      ValueOfDec(n / 10);
      assert s[..|s| - 1] == Dec(n / 10);
    }
  }

  // ----- names: a prefix followed by a counter -----

  /** How many digits `s` ends in. */
  function TrailingDigits(s: string): (k: nat)
    ensures k <= |s| && forall i :: |s| - k <= i < |s| ==> IsDigit(s[i])
  {
    if s == [] || !IsDigit(s[|s| - 1]) then 0
    else TrailingDigits(s[..|s| - 1]) + 1
  }

  lemma {:induction false} TrailingDigitsAre(p: string, t: string)
    requires EndsBeforeDigits(p) && AllDigits(t)
    ensures TrailingDigits(p + t) == |t|
  {
    var s := p + t;
    if t != [] {
      assert s[..|s| - 1] == p + t[..|t| - 1];
      TrailingDigitsAre(p, t[..|t| - 1]);
    }
  }

  /** The counter a name ends in, or -1. */
  function Num(s: string): int {
    var k := TrailingDigits(s);
    if k == 0 then -1 else Value(s[|s| - k..])
  }

  predicate EndsBeforeDigits(p: string) { |p| > 0 && !IsDigit(p[|p| - 1]) }

  /** The name that prefix `p` and counter `n` are formatted to. */
  function Name(p: string, n: nat): (s: string)
    requires EndsBeforeDigits(p)
    ensures Num(s) == n
    ensures |s| > |p| && s[0] == p[0]
  {
    var s := p + Dec(n);
    assert Num(s) == n by {
      TrailingDigitsAre(p, Dec(n));
      assert s[|s| - |Dec(n)|..] == Dec(n);
      ValueOfDec(n);
    }
    s
  }

  /** Formatting loses nothing: two equal names have equal counters. */
  lemma {:induction false} NamesInjective(p: string, m: nat, q: string, n: nat)
    requires EndsBeforeDigits(p) && EndsBeforeDigits(q) && p + Dec(m) == q + Dec(n)
    ensures p == q && m == n
  {
    assert m == Num(Name(p, m)) == Num(Name(q, n)) == n;
    var s := p + Dec(m);
    assert p == s[..|s| - |Dec(m)|] == q;
  }

  /** The formatting loop, digits from the right. */
  method FmtInt(p: string, n: nat) returns (s: string)
    requires EndsBeforeDigits(p)
    ensures s == Name(p, n)
  {
    var u := n;
    var digits := [Digit(u % 10)];
    u := u / 10;
    while u > 0
      invariant Dec(n) == if u > 0 then Dec(u) + digits else digits
    {
      digits := [Digit(u % 10)] + digits;
      u := u / 10;
    }
    s := p + digits;
  }

  // ----- literal operands -----

  function Render(v: int): string {
    if v < 0 then "-" + Dec(-v) else Dec(v)
  }

  predicate IsIntConst(s: string) {
    var t := if |s| > 0 && s[0] == '-' then s[1..] else s;
    |t| > 0 && AllDigits(t)
  }

  method ScanIntConst(s: string) returns (b: bool)
    ensures b == IsIntConst(s)
  {
    if |s| == 0 { return false; }
    var p := 0;
    if s[p] == '-' { p := p + 1; }
    if p == |s| { return false; }
    ghost var t := s[p..];
    while p < |s|
      invariant |s| - |t| <= p <= |s|
      invariant forall i :: 0 <= i < p - (|s| - |t|) ==> IsDigit(t[i])
    {
      if !IsDigit(s[p]) {
        assert t[p - (|s| - |t|)] == s[p];
        return false;
      }
      p := p + 1;
    }
    return true;
  }

  /** Reads decimal text. */
  function Atoll(s: string): int
    requires IsIntConst(s)
  {
    if s[0] == '-' then 0 - Value(s[1..]) else Value(s)
  }

  /** The radix that a reader which detects the base from the text would use. */
  function DetectedRadix(s: string): nat
    requires IsIntConst(s)
  {
    var t := if s[0] == '-' then s[1..] else s;
    if |t| > 1 && t[0] == '0' then 8 else 10
  }

  lemma {:induction false} DecHasNoLeadingZero(n: nat)
    ensures |Dec(n)| > 1 ==> Dec(n)[0] != '0'
  {
    if n >= 10 {
      DecHasNoLeadingZero(n / 10);
      assert Dec(n)[0] == Dec(n / 10)[0];
    }
  }

  /** A rendered literal is recognised as one, reads back as itself, and reads the same whether the
      reader assumes base ten (the optimiser) or detects the base (the emitter). */
  lemma {:induction false} RenderRoundTrip(v: int)
    ensures IsIntConst(Render(v)) && Atoll(Render(v)) == v && DetectedRadix(Render(v)) == 10
  {
    var n := if v < 0 then -v else v;
    ValueOfDec(n);
    DecHasNoLeadingZero(n);
    assert v < 0 ==> Render(v)[1..] == Dec(n);
  }
}
