/** Fixed-width integer arithmetic as FIR sees it.

    A value of type `t` is held as the signed integer its bits denote, so `true` of type `I1` is -1.
    Sign extension and truncation between types are then both `Wrap` at the target type. */
module Words {

  /** The integer types, and what the compiler calls ptr: an address, of whose value nothing is said. */
  datatype Ty = I1 | I8 | I16 | I32 | I64 | Ptr

  type IntTy = t: Ty | t != Ptr witness I32

  /** C's `long long`, the type in which the compiler holds literals and folds them. */
  type long = v: int | -0x8000_0000_0000_0000 <= v < 0x8000_0000_0000_0000

  function Width(t: Ty): nat {
    match t
    case I1 => 1
    case I8 => 8
    case I16 => 16
    case I32 => 32
    case I64 => 64
    case Ptr => 64
  }

  function Modulus(t: Ty): (m: int)
    ensures m >= 2 && m % 2 == 0
  {
    match t
    case I1 => 2
    case I8 => 0x100
    case I16 => 0x1_0000
    case I32 => 0x1_0000_0000
    case I64 => 0x1_0000_0000_0000_0000
    case Ptr => 0x1_0000_0000_0000_0000
  }

  predicate InRange(t: Ty, v: int) {
    -(Modulus(t) / 2) <= v < Modulus(t) / 2
  }

  /** The value of type `t` whose bits are the low bits of `v`. */
  function Wrap(t: Ty, v: int): (r: int)
    ensures InRange(t, r)
  {
    var r := v % Modulus(t);
    if r < Modulus(t) / 2 then r else r - Modulus(t)
  }

  /** The unsigned reading of the low bits of `v`. */
  function Unsigned(t: Ty, v: int): int {
    v % Modulus(t)
  }

  lemma WrapIdentity(t: Ty, v: int)
    requires InRange(t, v)
    ensures Wrap(t, v) == v
  {
  }

  /** Congruent integers wrap to the same value. */
  lemma WrapCongruent(t: Ty, a: int, b: int, k: int)
    requires a == b + k * Modulus(t)
    ensures Wrap(t, a) == Wrap(t, b)
  {
    ModCongruent(Modulus(t), a, b, k);
  }

  lemma ModCongruent(m: int, a: int, b: int, k: int)
    requires m > 0 && a == b + k * m
    ensures a % m == b % m
  {
    var d := a / m - b / m - k;
    assert d * m == (a / m) * m - (b / m) * m - k * m;
    assert a % m == a - (a / m) * m && b % m == b - (b / m) * m;
    NoMultipleBetween(d, m);
  }

  lemma MulMono(a: int, b: int, c: int)
    requires a <= b && c >= 0
    ensures a * c <= b * c
  {
    assert (b - a) * c >= 0;
  }

  lemma NoMultipleBetween(d: int, m: int)
    requires -m < d * m < m
    ensures d == 0
  {
    if d >= 1 { MulMono(1, d, m); }
    if d <= -1 { MulMono(d, -1, m); }
  }

  /** Every integer is its wrapped value plus a multiple of the modulus. */
  function Carry(t: Ty, v: int): (k: int)
    ensures v == Wrap(t, v) + k * Modulus(t)
  {
    var m := Modulus(t);
    var q := v / m;
    assert v == q * m + v % m && (q + 1) * m == q * m + m by { Whole(v, m); }
    if v % m < m / 2 then q else q + 1
  }

  lemma Whole(v: int, m: int)
    requires m > 0
    ensures v == (v / m) * m + v % m && (v / m + 1) * m == (v / m) * m + m
  {
  }

  /** Wrapping at 64 bits first does not change the low bits. */
  lemma WrapOfLong(t: Ty, v: int)
    ensures Wrap(t, Wrap(I64, v)) == Wrap(t, v)
  {
    var k := Carry(I64, v);
    match t
    case I1 => WrapCongruent(t, Wrap(I64, v), v, -k * 0x8000_0000_0000_0000);
    case I8 => WrapCongruent(t, Wrap(I64, v), v, -k * 0x100_0000_0000_0000);
    case I16 => WrapCongruent(t, Wrap(I64, v), v, -k * 0x1_0000_0000_0000);
    case I32 => WrapCongruent(t, Wrap(I64, v), v, -k * 0x1_0000_0000);
    case _ =>
  }

  lemma AddProduct(a: int, b: int, m: int)
    ensures (a + b) * m == a * m + b * m
  {
  }

  lemma SubProduct(a: int, b: int, m: int)
    ensures (a - b) * m == a * m - b * m
  {
  }

  lemma WrapAdd(t: Ty, a: int, b: int)
    ensures Wrap(t, Wrap(t, a) + Wrap(t, b)) == Wrap(t, a + b)
  {
    hide Wrap, Carry, Modulus;
    var ka, kb, m := Carry(t, a), Carry(t, b), Modulus(t);
    AddProduct(ka, kb, m);
    WrapCongruent(t, a + b, Wrap(t, a) + Wrap(t, b), ka + kb);
  }

  lemma WrapSub(t: Ty, a: int, b: int)
    ensures Wrap(t, Wrap(t, a) - Wrap(t, b)) == Wrap(t, a - b)
  {
    hide Wrap, Carry, Modulus;
    var ka, kb, m := Carry(t, a), Carry(t, b), Modulus(t);
    SubProduct(ka, kb, m);
    WrapCongruent(t, a - b, Wrap(t, a) - Wrap(t, b), ka - kb);
  }

  lemma WrapMul(t: Ty, a: int, b: int)
    ensures Wrap(t, Wrap(t, a) * Wrap(t, b)) == Wrap(t, a * b)
  {
    hide Wrap, Carry, Modulus;
    var ka, kb, x, y, m := Carry(t, a), Carry(t, b), Wrap(t, a), Wrap(t, b), Modulus(t);
    ProductCarry(x, ka, y, kb, m);
    WrapCongruent(t, a * b, x * y, ka * y + kb * x + ka * kb * m);
  }

  lemma ProductCarry(x: int, ka: int, y: int, kb: int, m: int)
    ensures (x + ka * m) * (y + kb * m) == x * y + (ka * y + kb * x + ka * kb * m) * m
  {
    calc {
      (x + ka * m) * (y + kb * m);
      x * y + x * (kb * m) + (ka * m) * y + (ka * m) * (kb * m);
      { assert x * (kb * m) == (kb * x) * m && (ka * m) * y == (ka * y) * m; }
      x * y + (kb * x) * m + (ka * y) * m + (ka * m) * (kb * m);
      { assert (ka * m) * (kb * m) == (ka * kb * m) * m; }
      x * y + (ka * y + kb * x + ka * kb * m) * m;
    }
  }

  // ----- division and shifts -----

  function Abs(a: int): nat { if a < 0 then -a else a }

  /** C's `/`: rounds toward zero. */
  function TruncDiv(a: int, b: int): int
    requires b != 0
  {
    if (a < 0) == (b < 0) then Abs(a) / Abs(b) else -(Abs(a) / Abs(b))
  }

  /** C's `%`: takes the sign of the dividend. */
  function TruncMod(a: int, b: int): int
    requires b != 0
  {
    if a < 0 then -(Abs(a) % Abs(b)) else Abs(a) % Abs(b)
  }

  lemma TruncDivInRange(t: Ty, a: int, b: int)
    requires InRange(t, a) && b != 0
    requires !(a == -(Modulus(t) / 2) && b == -1)
    ensures InRange(t, TruncDiv(a, b))
  {
    var n, d := Abs(a), Abs(b);
    assert n / d <= n by { QuotientAtMost(n, d); }
    if d >= 2 && n > 0 {
      assert n / d < n by { QuotientBelow(n, d); }
    }
  }

  lemma QuotientAtMost(n: nat, d: int)
    requires d >= 1
    ensures 0 <= n / d <= n
  {
    FloorBetween(n, d);
  }

  lemma QuotientBelow(n: nat, d: int)
    requires d >= 2 && n > 0
    ensures n / d < n
  {
    var q := n / d;
    assert n == q * d + n % d;
    FloorBetween(n, d);
    MulMono(2, d, q);
  }

  lemma TruncModInRange(t: Ty, a: int, b: int)
    requires InRange(t, a) && b != 0
    ensures InRange(t, TruncMod(a, b))
  {
    assert 0 <= Abs(a) % Abs(b) <= Abs(a) by {
      QuotientAtMost(Abs(a), Abs(b));
      assert Abs(a) == Abs(b) * (Abs(a) / Abs(b)) + Abs(a) % Abs(b);
    }
  }

  /** TruncDiv and TruncMod are C's pair: dividend = quotient * divisor + remainder. */
  lemma TruncDivMod(a: int, b: int)
    requires b != 0
    ensures a == TruncDiv(a, b) * b + TruncMod(a, b)
    ensures Abs(TruncMod(a, b)) < Abs(b)
    ensures TruncMod(a, b) != 0 ==> (TruncMod(a, b) < 0) == (a < 0)
  {
    DivModNat(Abs(a), Abs(b));
    SignedParts(a, b, Abs(a) / Abs(b), Abs(a) % Abs(b));
  }

  lemma SignedParts(a: int, b: int, q: int, r: int)
    requires Abs(a) == q * Abs(b) + r
    ensures a == (if (a < 0) == (b < 0) then q else -q) * b + (if a < 0 then -r else r)
  {
    NegateProduct(q, Abs(b));
  }

  lemma DivModNat(n: nat, d: nat)
    requires d > 0
    ensures n == (n / d) * d + n % d && 0 <= n % d < d
  {
  }

  lemma NegateProduct(x: int, y: int)
    ensures (-x) * y == -(x * y) && x * (-y) == -(x * y) && (-x) * (-y) == x * y
  {
  }

  function Pow2(n: nat): (p: int)
    ensures p >= 1
  {
    if n == 0 then 1 else 2 * Pow2(n - 1)
  }

  lemma {:induction false} Pow2Add(m: nat, n: nat)
    ensures Pow2(m + n) == Pow2(m) * Pow2(n)
  {
    if m == 0 {
    } else {
      Pow2Add(m - 1, n);
      assert 2 * (Pow2(m - 1) * Pow2(n)) == (2 * Pow2(m - 1)) * Pow2(n);
    }
  }

  lemma Pow2IsModulus(t: Ty)
    ensures Pow2(Width(t)) == Modulus(t)
  {
    assert Pow2(1) == 2 && Pow2(4) == 0x10;
    BigPowers();
  }

  lemma BigPowers()
    ensures Pow2(8) == 0x100 && Pow2(16) == 0x1_0000
    ensures Pow2(32) == 0x1_0000_0000 && Pow2(64) == 0x1_0000_0000_0000_0000
  {
    assert Pow2(4) == 0x10;
    hide Pow2;
    Pow2Add(4, 4);
    Pow2Add(8, 8);
    Pow2Add(16, 16);
    Pow2Add(32, 32);
  }

  lemma ShiftRightInRange(t: Ty, a: int, n: nat)
    requires InRange(t, a)
    ensures InRange(t, a / Pow2(n))
  {
    FloorBetween(a, Pow2(n));
  }

  lemma FloorBetween(a: int, p: int)
    requires p >= 1
    ensures a >= 0 ==> 0 <= a / p <= a
    ensures a < 0 ==> a <= a / p < 0
  {
    var q, r := a / p, a % p;
    assert a == q * p + r && 0 <= r < p;
    QuotientSign(q, p);
    if q < a { QuotientNotBelow(a, q, p, r); }
  }

  lemma QuotientSign(q: int, p: int)
    requires p >= 1
    ensures q >= 0 ==> q * p >= q
    ensures q < 0 ==> q * p <= q && q * p <= -p
  {
    if q >= 0 { MulMono(1, p, q); } else { MulMono(1, p, -q); MulMono(q, -1, p); }
  }

  /** A floor quotient of a negative number is not below it. */
  lemma QuotientNotBelow(a: int, q: int, p: int, r: int)
    requires p >= 1 && a == q * p + r && 0 <= r < p && q < a
    ensures a >= 0
  {
    if a < 0 {
      MulMono(q + 1, a, p);
      assert (q + 1) * p == q * p + p;
      QuotientSign(a, p);
    }
  }
}
