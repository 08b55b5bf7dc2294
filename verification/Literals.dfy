/** Folding two literals: the 64-bit operation cut to the type, against the operation of that type, and
    exactly when they agree. */
module Literals {
  import opened Words
  import opened Bits
  import opened Fir

  /** The 64-bit constant two literals fold to; None for an operation that is not folded. C leaves a 64-bit
      overflow and a shift out of 0..63 undefined: here the first wraps and the second gives 0. */
  function Fold64(op: BinOp, a: long, b: long): Option<long> {
    match op
    case Add => Some(Wrap(I64, a + b))
    case Sub => Some(Wrap(I64, a - b))
    case Mul => Some(Wrap(I64, a * b))
    case Div => Some(if b == 0 then 0 else Wrap(I64, TruncDiv(a, b)))
    case Mod => Some(if b == 0 then 0 else Wrap(I64, TruncMod(a, b)))
    case And => Some(Wrap(I64, BitOp(BitAnd, a, b)))
    case Or => Some(Wrap(I64, BitOp(BitOr, a, b)))
    case Xor => Some(Wrap(I64, BitOp(BitXor, a, b)))
    case Shl => Some(if 0 <= b < 64 then Wrap(I64, a * Pow2(b)) else 0)
    case Shr => Some(if 0 <= b < 64 then Wrap(I64, a / Pow2(b)) else 0)
    case _ => None
  }

  predicate Ranged(op: BinOp) { op == Div || op == Mod || op == Shl || op == Shr }

  /** Dividing by `b`, the literal and its value at the type round the same way. */
  predicate Alike(t: Ty, a: int, b: int)
    requires b != 0
  {
    (a < 0) == (Wrap(t, a) < 0) || Wrap(t, a) % b == 0
  }

  /** The literals that fold to what the operation gives. Division and right shift see the bits of the
      first literal that its type cuts off, unless those are a multiple of the divisor. */
  predicate FoldSafe(op: BinOp, t: Ty, a: long, b: long) {
    Ranged(op) ==>
      InRange(t, b) &&
      match op
      case Div => b != 0 ==> Carry(t, a) % b == 0 && Alike(t, a, b)
      case Mod => b != 0 ==> (Carry(t, a) * Modulus(t)) % b == 0 && Alike(t, a, b)
      case Shr => 0 <= b < Width(t) ==> Carry(t, a) % Pow2(b) == 0
      case _ => true
  }

  /** Literals in range of their type always are. */
  lemma {:induction false} RangeIsSafe(op: BinOp, t: Ty, a: long, b: long)
    requires InRange(t, a) && InRange(t, b)
    ensures FoldSafe(op, t, a, b)
  {
    hide Pow2;
    WrapIdentity(t, a);
    assert Carry(t, a) == 0 by { NoMultipleBetween(Carry(t, a), Modulus(t)); }
  }

  /** Where the operation is defined, and the second literal in range if it matters: folding gives what the
      operation gives if and only if the literals are safe. */
  lemma {:induction false} FoldExact(op: BinOp, t: Ty, a: long, b: long)
    requires Fold64(op, a, b).Some? && (Ranged(op) ==> InRange(t, b))
    requires Compute(op, t, Wrap(t, a), Wrap(t, b)).Some?
    ensures Wrap(t, Fold64(op, a, b).value) == Compute(op, t, Wrap(t, a), Wrap(t, b)).value <==> FoldSafe(op, t, a, b)
  {
    if Ranged(op) {
      WrapIdentity(t, b);
      match op
      case Div => DivExact(t, a, b);
      case Mod => ModExact(t, a, b);
      case Shl => ShlAlways(t, a, b);
      case Shr => ShrExact(t, a, b);
    } else {
      FoldModular(op, t, a, b);
    }
  }

  /** A divisor or shift count that its type cuts off. Dividing by a larger literal folds to nothing or to the
      dividend, which is right if and only if the values compare alike; a shift folds to zero, which is right if
      and only if it drops every bit. */
  lemma {:induction false} FoldWide(op: BinOp, t: Ty, a: long, b: long)
    requires Ranged(op) && !InRange(t, b) && Compute(op, t, Wrap(t, a), Wrap(t, b)).Some?
    requires if op == Div || op == Mod then Abs(a) < Abs(b) else t != I1
    ensures
      var x, y := Wrap(t, a), Wrap(t, b);
      Wrap(t, Fold64(op, a, b).value) == Compute(op, t, x, y).value <==>
      match op
      case Shl => (x * Pow2(y)) % Modulus(t) == 0
      case Shr => 0 <= x < Pow2(y)
      case _ => Abs(x) < Abs(y)
  {
    if op == Div || op == Mod { WideDivide(op, t, a, b); } else { WideShift(op, t, a, b); }
  }

  lemma {:induction false} WideDivide(op: BinOp, t: Ty, a: long, b: long)
    requires (op == Div || op == Mod) && b != 0 && Abs(a) < Abs(b) && !DivUndefined(t, Wrap(t, a), Wrap(t, b))
    ensures
      var x, y := Wrap(t, a), Wrap(t, b);
      Wrap(t, Fold64(op, a, b).value) == Compute(op, t, x, y).value <==> Abs(x) < Abs(y)
  {
    hide *;
    var x, y := Wrap(t, a), Wrap(t, b);
    WideFold(op, t, a, b, x, y);
    ZeroFits(t);
    ZeroFits(I64);
    SmallQuotient(a, b);
    SmallQuotient(x, y);
    WrapIdentity(I64, a);
  }

  lemma {:induction false} WideFold(op: BinOp, t: Ty, a: long, b: long, x: int, y: int)
    requires (op == Div || op == Mod) && b != 0 && !DivUndefined(t, x, y)
    ensures y != 0 && InRange(I64, a)
    ensures Fold64(op, a, b) == Some(Wrap(I64, if op == Div then TruncDiv(a, b) else TruncMod(a, b)))
    ensures Compute(op, t, x, y) == Some(if op == Div then TruncDiv(x, y) else TruncMod(x, y))
  {
    hide Wrap, TruncDiv, TruncMod;
  }

  lemma {:induction false} WideShift(op: BinOp, t: Ty, a: long, b: long)
    requires (op == Shl || op == Shr) && t != I1 && !InRange(t, b) && Compute(op, t, Wrap(t, a), Wrap(t, b)).Some?
    ensures
      var x, y := Wrap(t, a), Wrap(t, b);
      Wrap(t, Fold64(op, a, b).value) == Compute(op, t, x, y).value
      <==> if op == Shl then (x * Pow2(y)) % Modulus(t) == 0 else 0 <= x < Pow2(y)
  {
    hide Pow2, Modulus, Wrap, InRange;
    var x, y := Wrap(t, a), Wrap(t, b);
    ZeroFits(t);
    WideCount(t, b);
    if op == Shl { WrapsToZero(t, x * Pow2(y)); } else { ShiftedOut(x, y); }
  }

  lemma {:induction false} ZeroFits(t: Ty)
    ensures InRange(t, 0) && Wrap(t, 0) == 0
  {
  }

  lemma {:induction false} SmallQuotient(a: int, b: int)
    requires b != 0
    ensures TruncDiv(a, b) == 0 <==> Abs(a) < Abs(b)
    ensures TruncMod(a, b) == a <==> Abs(a) < Abs(b)
  {
    SmallNat(Abs(a), Abs(b));
  }

  lemma {:induction false} SmallNat(n: nat, d: nat)
    requires d > 0
    ensures (n / d == 0 <==> n < d) && (n % d == n <==> n < d)
  {
    DivModNat(n, d);
    if n < d { NoMultipleBetween(n / d, d); }
  }

  /** Such a count is out of the 64-bit range too. */
  lemma {:induction false} WideCount(t: Ty, b: int)
    requires t != I1 && !InRange(t, b)
    ensures !(0 <= b < 64)
  {
  }

  lemma {:induction false} WrapsToZero(t: Ty, v: int)
    ensures Wrap(t, v) == 0 <==> v % Modulus(t) == 0
  {
  }

  lemma {:induction false} ShiftedOut(x: int, y: nat)
    ensures x / Pow2(y) == 0 <==> 0 <= x < Pow2(y)
  {
    hide Pow2;
    var p := Pow2(y);
    assert x == (x / p) * p + x % p;
    if x / p == 0 { assert x == x % p; }
    if 0 <= x < p { NoMultipleBetween(x / p, p); }
  }

  /** Dividing by the literal zero, which has no meaning, folds to zero. */
  lemma {:induction false} FoldByZero(op: BinOp, t: Ty, a: long)
    requires op == Div || op == Mod
    ensures Fold64(op, a, 0) == Some(0) && Compute(op, t, Wrap(t, a), Wrap(t, 0)) == None
  {
    WrapIdentity(t, 0);
  }

  /** Folding in 64 bits and truncating is the w-bit operation. */
  lemma {:induction false} FoldIsCompute(op: BinOp, t: Ty, a: long, b: long)
    requires Fold64(op, a, b).Some? && FoldSafe(op, t, a, b)
    requires Compute(op, t, Wrap(t, a), Wrap(t, b)).Some?
    ensures Wrap(t, Fold64(op, a, b).value) == Compute(op, t, Wrap(t, a), Wrap(t, b)).value
  {
    hide Fold64, Compute, Wrap;
    FoldExact(op, t, a, b);
  }

  lemma {:induction false} FoldModular(op: BinOp, t: Ty, a: long, b: long)
    requires op == Add || op == Sub || op == Mul || op == And || op == Or || op == Xor
    ensures Compute(op, t, Wrap(t, a), Wrap(t, b)) == Some(Wrap(t, Fold64(op, a, b).value))
  {
    match op
    case Add => WrapOfLong(t, a + b); WrapAdd(t, a, b);
    case Sub => WrapOfLong(t, a - b); WrapSub(t, a, b);
    case Mul => WrapOfLong(t, a * b); WrapMul(t, a, b);
    case And => WrapOfLong(t, BitOp(BitAnd, a, b)); WrapBitOp(t, BitAnd, a, b);
    case Or => WrapOfLong(t, BitOp(BitOr, a, b)); WrapBitOp(t, BitOr, a, b);
    case Xor => WrapOfLong(t, BitOp(BitXor, a, b)); WrapBitOp(t, BitXor, a, b);
  }

  /** A left shift drops the bits in which the literal and its value differ. */
  lemma {:induction false} ShlAlways(t: Ty, a: long, b: long)
    requires 0 <= b < Width(t)
    ensures Wrap(t, Wrap(I64, a * Pow2(b))) == Wrap(t, Wrap(t, a) * Pow2(b))
  {
    hide Wrap;
    WrapOfLong(t, a * Pow2(b));
    var k, p := Carry(t, a), Pow2(b);
    assert a * p == Wrap(t, a) * p + (k * p) * Modulus(t) by { Spread(Wrap(t, a), k, Modulus(t), p); }
    WrapCongruent(t, a * p, Wrap(t, a) * p, k * p);
  }

  lemma {:induction false} Spread(r: int, k: int, m: int, p: int)
    ensures (r + k * m) * p == r * p + (k * p) * m
  {
  }

  /** Values that wrap alike differ by a multiple of the modulus. */
  lemma {:induction false} WrapEqual(t: Ty, x: int, y: int) returns (m: int)
    requires Wrap(t, x) == Wrap(t, y)
    ensures x == y + m * Modulus(t)
  {
    hide Wrap;
    m := Carry(t, x) - Carry(t, y);
    Factor(Carry(t, x), Carry(t, y), Modulus(t));
  }

  lemma {:induction false} Factor(a: int, b: int, m: int)
    ensures (a - b) * m == a * m - b * m && (a + b) * m == a * m + b * m
  {
  }

  lemma {:induction false} Multiple(m: int, b: int)
    requires b != 0
    ensures (m * b) % b == 0
  {
    var n := m * b;
    var d := m - n / b;
    Factor(m, n / b, b);
    assert d * b == n % b;
    if b > 0 { NoMultipleBetween(d, b); } else {
      NegateProduct(d, b);
      NoMultipleBetween(-d, -b);
    }
  }

  /** A multiple of `b` smaller than `b` is zero. */
  lemma {:induction false} SmallMultiple(d: int, b: int)
    requires b != 0 && Abs(d * b) < Abs(b)
    ensures d == 0
  {
    if b > 0 { NoMultipleBetween(d, b); } else {
      NegateProduct(d, b);
      NoMultipleBetween(-d, -b);
    }
  }

  // ----- division -----

  /** Two dividends that are a multiple of `b` apart and round the same way leave the same remainder. */
  lemma {:induction false} SameRemainder(a: int, r: int, n: int, b: int)
    requires b != 0 && a == r + n * b && ((a < 0) == (r < 0) || r % b == 0)
    ensures TruncMod(a, b) == TruncMod(r, b) && TruncDiv(a, b) == TruncDiv(r, b) + n
  {
    hide TruncDiv, TruncMod;
    TruncDivMod(a, b);
    TruncDivMod(r, b);
    var q1, q2, e1, e2 := TruncDiv(a, b), TruncDiv(r, b), TruncMod(a, b), TruncMod(r, b);
    if (a < 0) != (r < 0) { NoRemainder(a, r, n, b); }
    var d := n - q1 + q2;
    assert d * b == e1 - e2 by {
      Factor(n, q1, b);
      Factor(n - q1, q2, b);
    }
    assert Abs(e1 - e2) < Abs(b);
    SmallMultiple(d, b);
  }

  /** A multiple of `b` and what is a multiple of `b` away from it. */
  lemma {:induction false} NoRemainder(a: int, r: int, n: int, b: int)
    requires b != 0 && a == r + n * b && r % b == 0
    ensures TruncMod(a, b) == 0 && TruncMod(r, b) == 0
  {
    hide TruncDiv, TruncMod;
    var c := r / b;
    ExactQuotient(r, b);
    Factor(c, n, b);
    MultipleRemainder(c, b);
    MultipleRemainder(c + n, b);
  }

  lemma {:induction false} ExactQuotient(r: int, b: int)
    requires b != 0 && r % b == 0
    ensures r == (r / b) * b
  {
  }

  lemma {:induction false} MultipleRemainder(c: int, b: int)
    requires b != 0
    ensures TruncMod(c * b, b) == 0
  {
    hide TruncDiv, TruncMod;
    TruncDivMod(c * b, b);
    var q := TruncDiv(c * b, b);
    Factor(c, q, b);
    SmallMultiple(c - q, b);
  }

  /** The quotients wrap alike exactly if the cut-off part is a multiple of the divisor. */
  lemma {:induction false} DivExact(t: Ty, a: long, b: long)
    requires InRange(t, b) && !DivUndefined(t, Wrap(t, a), b)
    ensures Wrap(t, Wrap(I64, TruncDiv(a, b))) == TruncDiv(Wrap(t, a), b) <==> Carry(t, a) % b == 0 && Alike(t, a, b)
  {
    var r := Wrap(t, a);
    DivisorFits(t, b);
    TruncDivInRange(t, r, b);
    hide *;
    DivisorFits(t, b);
    var k, m, q1, q2 := Carry(t, a), Modulus(t), TruncDiv(a, b), TruncDiv(r, b);
    WrapOfLong(t, q1);
    WrapIdentity(t, q2);
    AlikeDef(t, a, b);
    if Wrap(t, q1) == q2 {
      var n := WrapEqual(t, q1, q2);
      QuotientApart(a, r, k, m, b, n);
    }
    if k % b == 0 && Alike(t, a, b) {
      QuotientsMatch(a, r, k, m, b);
      WrapCongruent(t, q1, q2, k / b);
    }
  }

  lemma {:induction false} AlikeDef(t: Ty, a: int, b: int)
    requires b != 0
    ensures Alike(t, a, b) <==> (a < 0) == (Wrap(t, a) < 0) || Wrap(t, a) % b == 0
  {
    hide Wrap;
  }

  lemma {:induction false} DivisorFits(t: Ty, b: int)
    requires InRange(t, b)
    ensures 2 * Abs(b) <= Modulus(t)
  {
  }

  lemma {:induction false} QuotientsMatch(a: int, r: int, k: int, m: int, b: int)
    requires b != 0 && a == r + k * m && k % b == 0 && ((a < 0) == (r < 0) || r % b == 0)
    ensures TruncDiv(a, b) == TruncDiv(r, b) + (k / b) * m
  {
    hide TruncDiv, TruncMod;
    var n := k / b;
    Swap(n, b, m);
    assert k == n * b;
    SameRemainder(a, r, n * m, b);
  }

  lemma {:induction false} Swap(n: int, b: int, m: int)
    ensures (n * b) * m == (n * m) * b
  {
  }

  lemma {:induction false} QuotientApart(a: int, r: int, k: int, m: int, b: int, n: int)
    requires b != 0 && m > 0 && 2 * Abs(b) <= m && a == r + k * m && TruncDiv(a, b) == TruncDiv(r, b) + n * m
    ensures k % b == 0 && ((a < 0) == (r < 0) || r % b == 0)
  {
    hide TruncDiv, TruncMod;
    TruncDivMod(a, b);
    TruncDivMod(r, b);
    var q, e1, e2 := TruncDiv(r, b), TruncMod(a, b), TruncMod(r, b);
    assert (q + n * m) * b == q * b + (n * b) * m by { Spread(q, n, m, b); }
    Factor(k, n * b, m);
    assert (k - n * b) * m == e1 - e2;
    NoMultipleBetween(k - n * b, m);
    Multiple(n, b);
    if (a < 0) != (r < 0) { Multiple(q, b); }
  }

  /** The remainders are equal exactly if the difference of the dividends is a multiple of the divisor. */
  lemma {:induction false} ModExact(t: Ty, a: long, b: long)
    requires InRange(t, b) && !DivUndefined(t, Wrap(t, a), b)
    ensures
      Wrap(t, Wrap(I64, TruncMod(a, b))) == TruncMod(Wrap(t, a), b)
      <==> (Carry(t, a) * Modulus(t)) % b == 0 && Alike(t, a, b)
  {
    var r, n := Wrap(t, a), Carry(t, a) * Modulus(t);
    DivisorFits(t, b);
    TruncDivMod(a, b);
    assert InRange(t, TruncMod(a, b)) by { hide Wrap, TruncMod, TruncDiv; }
    hide *;
    WrapOfLong(t, TruncMod(a, b));
    WrapIdentity(t, TruncMod(a, b));
    AlikeDef(t, a, b);
    RemaindersMatch(a, r, n, b);
  }

  lemma {:induction false} RemaindersMatch(a: int, r: int, n: int, b: int)
    requires b != 0 && a == r + n
    ensures TruncMod(a, b) == TruncMod(r, b) <==> n % b == 0 && ((a < 0) == (r < 0) || r % b == 0)
  {
    hide TruncDiv, TruncMod;
    if TruncMod(a, b) == TruncMod(r, b) { RemainderApart(a, r, n, b); }
    if n % b == 0 && ((a < 0) == (r < 0) || r % b == 0) { SameRemainder(a, r, n / b, b); }
  }

  lemma {:induction false} RemainderApart(a: int, r: int, n: int, b: int)
    requires b != 0 && a == r + n && TruncMod(a, b) == TruncMod(r, b)
    ensures n % b == 0 && ((a < 0) == (r < 0) || r % b == 0)
  {
    hide TruncDiv, TruncMod;
    TruncDivMod(a, b);
    TruncDivMod(r, b);
    var q1, q2 := TruncDiv(a, b), TruncDiv(r, b);
    Factor(q1, q2, b);
    Multiple(q1 - q2, b);
    if (a < 0) != (r < 0) { Multiple(q2, b); }
  }

  // ----- right shifts -----

  lemma {:induction false} ShrExact(t: Ty, a: long, b: long)
    requires 0 <= b < Width(t)
    ensures Wrap(t, Wrap(I64, a / Pow2(b))) == Wrap(t, a) / Pow2(b) <==> Carry(t, a) % Pow2(b) == 0
  {
    hide *;
    var r, k, p, h := Wrap(t, a), Carry(t, a), Pow2(b), Pow2(Width(t) - b);
    Pow2IsModulus(t);
    Pow2Add(b, Width(t) - b);
    ShiftSplit(a, r, k, p, h);
    WrapOfLong(t, a / p);
    ShiftRightInRange(t, r, b);
    WrapIdentity(t, r / p);
    if Wrap(t, a / p) == r / p {
      var n := WrapEqual(t, a / p, r / p);
      PartMultiple(k, p, h, n);
    }
    if k % p == 0 {
      PartSplit(k, p, h);
      WrapCongruent(t, a / p, r / p, k / p);
    }
  }

  lemma {:induction false} ShiftSplit(a: int, r: int, k: int, p: int, h: int)
    requires p > 0 && a == r + k * (p * h)
    ensures a / p == r / p + k * h
  {
    assert k * (p * h) == (k * h) * p;
    FloorShift(r, k * h, p);
  }

  lemma {:induction false} PartMultiple(k: int, p: int, h: int, n: int)
    requires p > 0 && h > 0 && k * h == n * (p * h)
    ensures k % p == 0
  {
    Swap(n, p, h);
    Factor(k, n * p, h);
    NoMultipleBetween(k - n * p, h);
    Multiple(n, p);
  }

  lemma {:induction false} PartSplit(k: int, p: int, h: int)
    requires p > 0 && k % p == 0
    ensures k * h == (k / p) * (p * h)
  {
    var n := k / p;
    assert k == n * p;
    assert (n * p) * h == n * (p * h);
  }

  lemma {:induction false} FloorShift(r: int, n: int, p: int)
    requires p > 0
    ensures (r + n * p) / p == r / p + n
  {
    var x := r + n * p;
    var d := x / p - r / p - n;
    assert d * p == r % p - x % p by {
      Factor(x / p, r / p, p);
      Factor(x / p - r / p, n, p);
    }
    NoMultipleBetween(d, p);
  }

  /** Outside the condition folding is wrong: `sdiv i8 200, 2` is -28, but folds to 100. */
  lemma {:induction false} FoldNeedsRange()
    ensures Compute(Div, I8, Wrap(I8, 200), Wrap(I8, 2)) == Some(-28)
    ensures Fold64(Div, 200, 2) == Some(100) && Wrap(I8, 100) == 100
  {
  }
}
