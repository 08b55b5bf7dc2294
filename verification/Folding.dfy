/** Block-local constant propagation, folding and algebraic rewriting, and why each rewritten
    instruction computes what the instruction it replaces computed. */
module Folding {
  import opened Words
  import opened Bits
  import opened Fir
  import opened Literals

  // ----- the table of slots known to hold a constant -----

  datatype Def = Def(name: string, val: long, ty: Ty)

  const MAX_DEFS := 1024

  function IndexFrom(defs: seq<Def>, x: string, k: nat): (r: Option<nat>)
    requires k <= |defs|
    ensures r.Some? ==> k <= r.value < |defs| && defs[r.value].name == x
    ensures r.Some? ==> forall j :: k <= j < r.value ==> defs[j].name != x
    ensures r.None? ==> forall j :: k <= j < |defs| ==> defs[j].name != x
    decreases |defs| - k
  {
    if k == |defs| then None
    else if defs[k].name == x then Some(k)
    else IndexFrom(defs, x, k + 1)
  }

  function IndexOf(defs: seq<Def>, x: string): (r: Option<nat>)
    ensures r.Some? ==> r.value < |defs| && defs[r.value].name == x
    ensures r.Some? ==> forall j :: 0 <= j < r.value ==> defs[j].name != x
    ensures r.None? ==> forall j :: 0 <= j < |defs| ==> defs[j].name != x
  {
    IndexFrom(defs, x, 0)
  }

  /** A new name is dropped when the table is full. */
  function DefSet(defs: seq<Def>, x: string, v: long, t: Ty): seq<Def> {
    var k := IndexOf(defs, x);
    if k.Some? then defs[k.value := Def(x, v, t)]
    else if |defs| < MAX_DEFS then defs + [Def(x, v, t)]
    else defs
  }

  function DefGet(defs: seq<Def>, x: string): Option<long> {
    var k := IndexOf(defs, x);
    if k.Some? then Some(defs[k.value].val) else None
  }

  /** The last entry takes the killed entry's place. */
  function DefKill(defs: seq<Def>, x: string): seq<Def> {
    var k := IndexOf(defs, x);
    if k.None? then defs
    else defs[k.value := defs[|defs| - 1]][..|defs| - 1]
  }

  predicate DistinctNames(defs: seq<Def>) {
    forall i, j :: 0 <= i < j < |defs| ==> defs[i].name != defs[j].name
  }

  /** What the table says about memory: a listed slot was allocated at the listed type and holds the
      listed constant, unless it was allocated again since and holds nothing. */
  predicate DefHolds(d: Def, mem: map<string, Cell>) {
    d.name in mem &&
    (mem[d.name].val.None? || mem[d.name] == Cell(d.ty, Some(Wrap(d.ty, d.val))))
  }

  predicate DefsSound(defs: seq<Def>, mem: map<string, Cell>) {
    && |defs| <= MAX_DEFS
    && DistinctNames(defs)
    && forall k :: 0 <= k < |defs| ==> DefHolds(defs[k], mem)
  }

  /** The table after scanning instruction `i`. */
  function DefsAfter(i: Instr, defs: seq<Def>): seq<Def> {
    match i
    case Store(x, t, src) => if src.Lit? then DefSet(defs, x, src.value, t) else DefKill(defs, x)
    case _ => defs
  }

  /** The table after scanning the first `k` instructions of a block. */
  function DefsAt(instrs: seq<Instr>, k: nat): seq<Def>
    requires k <= |instrs|
  {
    if k == 0 then [] else DefsAfter(instrs[k - 1], DefsAt(instrs, k - 1))
  }

  lemma DefSetSound(defs: seq<Def>, x: string, v: long, t: Ty, mem: map<string, Cell>)
    requires DefsSound(defs, mem)
    ensures DefsSound(DefSet(defs, x, v, t), mem[x := Cell(t, Some(Wrap(t, v)))])
  {
  }

  lemma DefKillSound(defs: seq<Def>, x: string, mem: map<string, Cell>, c: Cell)
    requires DefsSound(defs, mem)
    ensures DefsSound(DefKill(defs, x), mem[x := c])
  {
    DefKillGet(defs, x);
  }

  lemma DefKillGet(defs: seq<Def>, x: string)
    requires DistinctNames(defs)
    ensures DistinctNames(DefKill(defs, x)) && DefGet(DefKill(defs, x), x).None?
    ensures forall y :: y != x ==> DefGet(DefKill(defs, x), y) == DefGet(defs, y)
  {
    var d', k := DefKill(defs, x), IndexOf(defs, x);
    if k.Some? {
      var n := |defs| - 1;
      assert forall j :: 0 <= j < n ==> d'[j] == if j == k.value then defs[n] else defs[j];
      forall y | y != x
        ensures DefGet(d', y) == DefGet(defs, y)
      {
        var m := IndexOf(defs, y);
        if m.Some? {
          var m' := if m.value == n then k.value else m.value;
          assert d'[m'] == defs[m.value];
        }
      }
    }
  }

  /** Executing an instruction keeps the table true of memory. */
  lemma {:induction false} DefsStaySound(i: Instr, defs: seq<Def>, w: World, s: State)
    requires !IsTerm(i) && DefsSound(defs, s.mem) && ExecInstr(i, w, s).Some?
    ensures DefsSound(DefsAfter(i, defs), ExecInstr(i, w, s).value.mem)
  {
    match i
    case Store(x, t, src) =>
      if src.Lit? {
        DefSetSound(defs, x, src.value, t, s.mem);
      } else {
        DefKillSound(defs, x, s.mem, Cell(t, Read(src, t, s.temps)));
      }
    case _ =>
  }

  // ----- rewriting one instruction -----

  function Copy(dst: string, t: Ty, a: Operand): Instr {
    Bin(Add, dst, t, a, Lit(0))
  }

  /** Only operands whose text starts with 't' are compared by name. */
  predicate SameTemp(a: Operand, b: Operand) {
    a == b && a.Reg? && |a.name| > 0 && a.name[0] == 't'
  }

  /** What the algebraic rules turn a two-operand instruction into. */
  datatype Rewrite = Keep | CopyA | CopyB | Zero | TwiceA

  function RewriteOf(op: BinOp, a: Operand, b: Operand): Rewrite {
    if op == Add && b == Lit(0) then Keep
    else if op == Sub && b == Lit(0) then CopyA
    else if op == Mul && b == Lit(1) then CopyA
    else if op == Mul && b == Lit(0) then Zero
    else if op == Mul && b == Lit(2) then TwiceA
    else if op == Mul && a == Lit(1) then CopyB
    else if op == Mul && a == Lit(0) then Zero
    else if op == Div && b == Lit(1) then CopyA
    else if op == And && b == Lit(-1) then CopyA
    else if (op == Or || op == Xor || op == Shl || op == Shr) && b == Lit(0) then CopyA
    else if (op == Sub || op == Xor) && SameTemp(a, b) then Zero
    else if (op == And || op == Or) && SameTemp(a, b) then CopyA
    else Keep
  }

  function Simplify(op: BinOp, dst: string, t: Ty, a: Operand, b: Operand): Instr {
    match RewriteOf(op, a, b)
    case Keep => Bin(op, dst, t, a, b)
    case CopyA => Copy(dst, t, a)
    case CopyB => Copy(dst, t, b)
    case Zero => Copy(dst, t, Lit(0))
    case TwiceA => Bin(Add, dst, t, a, a)
  }

  predicate BothLiterals(i: Instr) {
    i.Bin? && i.a.Lit? && i.b.Lit? && Fold64(i.op, i.a.value, i.b.value).Some?
  }

  function FoldInstr(i: Instr, defs: seq<Def>): Instr {
    match i
    case Load(dst, t, x) =>
      var c := DefGet(defs, x);
      if c.Some? then Copy(dst, t, Lit(c.value)) else i
    case Bin(op, dst, t, a, b) =>
      if BothLiterals(i) then Copy(dst, t, Lit(Fold64(op, a.value, b.value).value))
      else Simplify(op, dst, t, a, b)
    case _ => i
  }

  /** Whether the scan reports a change at `i`: folding `c + 0` to itself counts as one. */
  predicate FoldReports(i: Instr, defs: seq<Def>) {
    BothLiterals(i) || FoldInstr(i, defs) != i
  }

  predicate FoldInstrSafe(i: Instr) {
    i.Bin? && i.a.Lit? && i.b.Lit? ==> FoldSafe(i.op, i.ty, i.a.value, i.b.value)
  }

  lemma CopyValue(dst: string, t: Ty, a: Operand, w: World, s: State)
    requires Read(a, t, s.temps).Some?
    ensures ExecInstr(Copy(dst, t, a), w, s) == Set(s, dst, Read(a, t, s.temps))
  {
    var x := Read(a, t, s.temps).value;
    WrapIdentity(t, x);
    assert Wrap(t, 0) == 0;
  }

  lemma Times(t: Ty, x: int)
    requires InRange(t, x)
    ensures Wrap(t, x * Wrap(t, 1)) == x && Wrap(t, Wrap(t, 1) * x) == x
    ensures Wrap(t, x * Wrap(t, 0)) == 0 && Wrap(t, Wrap(t, 0) * x) == 0
    ensures Wrap(t, x * Wrap(t, 2)) == Wrap(t, x + x)
  {
    WrapIdentity(t, x);
    WrapMul(t, x, 1);
    WrapMul(t, 1, x);
    WrapMul(t, x, 2);
    WrapIdentity(t, 0);
  }

  /** Each algebraic rule agrees with the operation it replaces, wherever that is defined. */
  lemma RewriteValue(op: BinOp, t: Ty, a: Operand, b: Operand, x: int, y: int)
    requires InRange(t, x) && InRange(t, y) && (a == b ==> x == y)
    requires (a.Lit? ==> x == Wrap(t, a.value)) && (b.Lit? ==> y == Wrap(t, b.value))
    requires Compute(op, t, x, y).Some?
    ensures
      match RewriteOf(op, a, b)
      case Keep => true
      case CopyA => Compute(op, t, x, y) == Some(x)
      case CopyB => Compute(op, t, x, y) == Some(y)
      case Zero => Compute(op, t, x, y) == Some(0)
      case TwiceA => Compute(op, t, x, y) == Some(Wrap(t, x + x))
  {
    hide BitOp, Wrap, Pow2, TruncDiv, TruncMod, UnsignedDiv, UnsignedMod, Unsigned;
    if op == Mul {
      RewriteMul(t, a, b, x, y);
    } else if op == And || op == Or || op == Xor {
      RewriteBits(op, t, a, b, x, y);
    } else {
      RewriteOther(op, t, a, b, x, y);
    }
  }

  lemma PowZero(x: int)
    ensures x * Pow2(0) == x && x / Pow2(0) == x
  {
  }

  lemma RewriteOther(op: BinOp, t: Ty, a: Operand, b: Operand, x: int, y: int)
    requires op != Mul && op != And && op != Or && op != Xor
    requires InRange(t, x) && (a == b ==> x == y) && (b.Lit? ==> y == Wrap(t, b.value))
    requires Compute(op, t, x, y).Some?
    ensures RewriteOf(op, a, b).CopyA? ==> Compute(op, t, x, y) == Some(x)
    ensures RewriteOf(op, a, b).Zero? ==> Compute(op, t, x, y) == Some(0)
    ensures !RewriteOf(op, a, b).CopyB? && !RewriteOf(op, a, b).TwiceA?
  {
    hide BitOp, Wrap, Pow2, TruncDiv, TruncMod, UnsignedDiv, UnsignedMod;
    WrapIdentity(t, x);
    WrapIdentity(t, 0);
    PowZero(x);
    if op == Div && b == Lit(1) { DivByOne(t, x); }
  }

  lemma RewriteMul(t: Ty, a: Operand, b: Operand, x: int, y: int)
    requires InRange(t, x) && InRange(t, y)
    requires (a.Lit? ==> x == Wrap(t, a.value)) && (b.Lit? ==> y == Wrap(t, b.value))
    ensures
      match RewriteOf(Mul, a, b)
      case Keep => true
      case CopyA => Wrap(t, x * y) == x
      case CopyB => Wrap(t, x * y) == y
      case Zero => Wrap(t, x * y) == 0
      case TwiceA => Wrap(t, x * y) == Wrap(t, x + x)
  {
    if b == Lit(0) || b == Lit(1) || b == Lit(2) {
      Times(t, x);
    } else {
      Times(t, y);
    }
  }

  lemma RewriteBits(op: BinOp, t: Ty, a: Operand, b: Operand, x: int, y: int)
    requires op == And || op == Or || op == Xor
    requires InRange(t, x) && (a == b ==> x == y)
    requires b.Lit? ==> y == Wrap(t, b.value)
    ensures RewriteOf(op, a, b).CopyA? ==> Compute(op, t, x, y) == Some(x)
    ensures RewriteOf(op, a, b).Zero? ==> Compute(op, t, x, y) == Some(0)
    ensures !RewriteOf(op, a, b).CopyB? && !RewriteOf(op, a, b).TwiceA?
  {
    hide BitOp, Wrap;
    WrapIdentity(t, x);
    WrapIdentity(t, 0);
    WrapIdentity(t, -1);
    BitUnits(x);
    BitSelf(x);
  }

  lemma {:induction false} SimplifySound(op: BinOp, dst: string, t: Ty, a: Operand, b: Operand, w: World, s: State)
    requires ExecInstr(Bin(op, dst, t, a, b), w, s).Some?
    ensures ExecInstr(Simplify(op, dst, t, a, b), w, s) == ExecInstr(Bin(op, dst, t, a, b), w, s)
  {
    var x, y := Read(a, t, s.temps).value, Read(b, t, s.temps).value;
    RewriteValue(op, t, a, b, x, y);
    match RewriteOf(op, a, b)
    case Keep =>
    case CopyA => CopyValue(dst, t, a, w, s);
    case CopyB => CopyValue(dst, t, b, w, s);
    case Zero => CopyValue(dst, t, Lit(0), w, s); WrapIdentity(t, 0);
    case TwiceA =>
  }

  /** At one bit the literal 1 is -1, and the only defined quotient is 0 / -1. */
  lemma DivByOne(t: Ty, x: int)
    requires InRange(t, x) && !DivUndefined(t, x, Wrap(t, 1))
    ensures TruncDiv(x, Wrap(t, 1)) == x
  {
  }

  /** Constant propagation and folding replace an instruction by one that does the same. */
  lemma {:induction false} FoldInstrSound(i: Instr, defs: seq<Def>, w: World, s: State)
    requires !IsTerm(i) && FoldInstrSafe(i) && DefsSound(defs, s.mem)
    requires ExecInstr(i, w, s).Some?
    ensures !IsTerm(FoldInstr(i, defs))
    ensures ExecInstr(FoldInstr(i, defs), w, s) == ExecInstr(i, w, s)
  {
    match i
    case Load(dst, t, x) =>
      var k := IndexOf(defs, x);
      if k.Some? {
        assert DefHolds(defs[k.value], s.mem);
        CopyValue(dst, t, Lit(defs[k.value].val), w, s);
      }
    case Bin(op, dst, t, a, b) =>
      if BothLiterals(i) {
        FoldIsCompute(op, t, a.value, b.value);
        CopyValue(dst, t, Lit(Fold64(op, a.value, b.value).value), w, s);
      } else {
        SimplifySound(op, dst, t, a, b, w, s);
      }
    case _ =>
  }

  // ----- a whole block -----

  function FoldBlock(instrs: seq<Instr>): (r: seq<Instr>)
    ensures |r| == |instrs|
  {
    seq(|instrs|, k requires 0 <= k < |instrs| => FoldInstr(instrs[k], DefsAt(instrs, k)))
  }

  /** Rewriting leaves stores alone, so the scan of the rewritten block sees the same table. */
  lemma DefsAfterFolded(i: Instr, defs: seq<Def>)
    ensures DefsAfter(FoldInstr(i, defs), defs) == DefsAfter(i, defs)
  {
  }

  lemma {:induction false} DefsAtFolded(instrs: seq<Instr>, k: nat)
    requires k <= |instrs|
    ensures DefsAt(FoldBlock(instrs), k) == DefsAt(instrs, k)
  {
    hide FoldInstr, DefsAfter;
    if k > 0 {
      DefsAtFolded(instrs, k - 1);
      DefsAfterFolded(instrs[k - 1], DefsAt(instrs, k - 1));
    }
  }

  /** No rule applies to the result of a rule. */
  lemma SimplifyTwice(op: BinOp, dst: string, t: Ty, a: Operand, b: Operand)
    requires !BothLiterals(Bin(op, dst, t, a, b))
    ensures
      var i := Simplify(op, dst, t, a, b);
      || i == Bin(op, dst, t, a, b)
      || i == Copy(dst, t, Lit(0))
      || (i.Bin? && i.op == Add && !i.a.Lit? && RewriteOf(Add, i.a, i.b) == Keep)
  {
  }

  lemma CopyFolds(dst: string, t: Ty, c: long)
    ensures BothLiterals(Copy(dst, t, Lit(c))) && Fold64(Add, c, 0) == Some(c)
  {
    WrapIdentity(I64, c);
  }

  lemma FoldInstrTwice(i: Instr, defs: seq<Def>)
    ensures FoldInstr(FoldInstr(i, defs), defs) == FoldInstr(i, defs)
  {
    hide RewriteOf, Fold64;
    match i
    case Load(dst, t, x) =>
      var c := DefGet(defs, x);
      if c.Some? { CopyFolds(dst, t, c.value); }
    case Bin(op, dst, t, a, b) =>
      if BothLiterals(i) {
        CopyFolds(dst, t, Fold64(op, a.value, b.value).value);
      } else {
        SimplifyTwice(op, dst, t, a, b);
        CopyFolds(dst, t, 0);
      }
    case _ =>
  }

  /** A second round changes nothing, although it reports a change at every literal `c + 0`. */
  lemma {:induction false} FoldBlockIdempotent(instrs: seq<Instr>)
    ensures FoldBlock(FoldBlock(instrs)) == FoldBlock(instrs)
  {
    forall k | 0 <= k < |instrs|
      ensures FoldBlock(FoldBlock(instrs))[k] == FoldBlock(instrs)[k]
    {
      DefsAtFolded(instrs, k);
      FoldInstrTwice(instrs[k], DefsAt(instrs, k));
    }
  }

  /** Folding one literal sum already makes the next round report a change again. */
  lemma {:induction false} FoldNeverSettles(dst: string, t: Ty, c: long)
    ensures FoldReports(Copy(dst, t, Lit(c)), [])
    ensures FoldInstr(Copy(dst, t, Lit(c)), []) == Copy(dst, t, Lit(c))
  {
    WrapIdentity(I64, c);
  }
}
