/** Bitwise and, or and xor on integers read as unbounded two's complement. */
module Bits {
  import opened Words

  datatype Bitwise = BitAnd | BitOr | BitXor

  function OneBit(k: Bitwise, x: int, y: int): (r: int)
    requires 0 <= x <= 1 && 0 <= y <= 1
    ensures 0 <= r <= 1
  {
    match k
    case BitAnd => if x == 1 && y == 1 then 1 else 0
    case BitOr => if x == 1 || y == 1 then 1 else 0
    case BitXor => if x != y then 1 else 0
  }

  /** Zero exactly for 0 and -1, whose bits are all alike. */
  function Size(a: int): nat { if a < 0 then -a - 1 else a }

  function BitOp(k: Bitwise, a: int, b: int): int
    decreases Size(a) + Size(b)
  {
    if Size(a) == 0 && Size(b) == 0 then -OneBit(k, -a, -b)
    else OneBit(k, a % 2, b % 2) + 2 * BitOp(k, a / 2, b / 2)
  }

  lemma BitStep(k: Bitwise, a: int, b: int)
    ensures BitOp(k, a, b) == OneBit(k, a % 2, b % 2) + 2 * BitOp(k, a / 2, b / 2)
  {
    if Size(a) == 0 && Size(b) == 0 {
      assert a / 2 == a && b / 2 == b && a % 2 == -a && b % 2 == -b;
    }
  }

  /** Bit `n` of `a`. */
  function TestBit(a: int, n: nat): int
    decreases n
  {
    if n == 0 then a % 2 else TestBit(a / 2, n - 1)
  }

  lemma {:induction false} TestBitRange(a: int, n: nat)
    ensures 0 <= TestBit(a, n) <= 1
    decreases n
  {
    if n > 0 { TestBitRange(a / 2, n - 1); }
  }

  /** The result's every bit is the operation on the operands' bits. */
  lemma {:induction false} BitOpBits(k: Bitwise, a: int, b: int, n: nat)
    ensures 0 <= TestBit(a, n) <= 1 && 0 <= TestBit(b, n) <= 1
    ensures TestBit(BitOp(k, a, b), n) == OneBit(k, TestBit(a, n), TestBit(b, n))
    decreases n
  {
    TestBitRange(a, n);
    TestBitRange(b, n);
    BitStep(k, a, b);
    var r, q := OneBit(k, a % 2, b % 2), BitOp(k, a / 2, b / 2);
    assert (r + 2 * q) % 2 == r && (r + 2 * q) / 2 == q;
    if n > 0 { BitOpBits(k, a / 2, b / 2, n - 1); }
  }

  /** The low `n` bits of the result depend only on the low `n` bits of the operands. */
  lemma {:induction false} BitOpCongruent(k: Bitwise, n: nat, a: int, b: int, c: int, d: int, i: int, j: int)
      returns (h: int)
    requires c == a + i * Pow2(n) && d == b + j * Pow2(n)
    ensures BitOp(k, c, d) == BitOp(k, a, b) + h * Pow2(n)
    decreases n
  {
    if n == 0 {
      h := BitOp(k, c, d) - BitOp(k, a, b);
    } else {
      var p := Pow2(n - 1);
      var x, y := i * p, j * p;
      Doubled(i, p);
      Doubled(j, p);
      assert c == a + 2 * x && d == b + 2 * y;
      HalfStep(a, c, x);
      HalfStep(b, d, y);
      BitStep(k, a, b);
      BitStep(k, c, d);
      h := BitOpCongruent(k, n - 1, a / 2, b / 2, c / 2, d / 2, i, j);
      Doubled(h, p);
    }
  }

  lemma Doubled(i: int, p: int)
    ensures i * (2 * p) == 2 * (i * p)
  {
  }

  lemma HalfStep(a: int, c: int, x: int)
    requires c == a + 2 * x
    ensures c % 2 == a % 2 && c / 2 == a / 2 + x
  {
  }

  /** A w-bit operation may be computed on any representatives of its operands. */
  lemma WrapBitOp(t: Ty, k: Bitwise, a: int, b: int)
    ensures Wrap(t, BitOp(k, Wrap(t, a), Wrap(t, b))) == Wrap(t, BitOp(k, a, b))
  {
    Pow2IsModulus(t);
    var h := BitOpCongruent(k, Width(t), Wrap(t, a), Wrap(t, b), a, b, Carry(t, a), Carry(t, b));
    WrapCongruent(t, BitOp(k, a, b), BitOp(k, Wrap(t, a), Wrap(t, b)), h);
  }

  lemma {:induction false} BitUnits(a: int)
    ensures BitOp(BitAnd, a, -1) == a && BitOp(BitOr, a, 0) == a && BitOp(BitXor, a, 0) == a
    decreases Size(a)
  {
    BitStep(BitAnd, a, -1);
    BitStep(BitOr, a, 0);
    BitStep(BitXor, a, 0);
    if Size(a) > 0 { BitUnits(a / 2); }
  }

  lemma {:induction false} BitSelf(a: int)
    ensures BitOp(BitAnd, a, a) == a && BitOp(BitOr, a, a) == a && BitOp(BitXor, a, a) == 0
    decreases Size(a)
  {
    BitStep(BitAnd, a, a);
    BitStep(BitOr, a, a);
    BitStep(BitXor, a, a);
    if Size(a) > 0 { BitSelf(a / 2); }
  }
}
