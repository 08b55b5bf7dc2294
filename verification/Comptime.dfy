/** Compile-time evaluation, and its agreement with the code that would be emitted for the expression. */
module Comptime {
  import opened Words
  import opened Bits
  import opened Fir
  import opened Source
  import opened Lower
  import opened LowerExpr
  import opened Typing
  import Operators

  /** The evaluator: literals of both widths count as 64-bit values, a zero divisor gives 0, an unknown
      name or kind of node gives 0, and any prefix other than minus and complement is ignored. */
  function EvalComptime(cs: seq<(string, long)>, e: Expr): int {
    match e
    case IntLit(n) => n
    case LongLit(n) => n
    case Var(x) =>
      var c := ConstFrom(cs, x);
      if c.Some? then c.value else 0
    case Unary(p, e1) =>
      var v := EvalComptime(cs, e1);
      if p.Minus? then -v else if p.Complement? then -v - 1 else v
    case Binary(op, l, r) =>
      if op.Cmp? then 0 else EvalArith(op.op, EvalComptime(cs, l), EvalComptime(cs, r))
    case _ => 0
  }

  function EvalArith(op: BinOp, l: int, r: int): int {
    match op
    case Add => l + r
    case Sub => l - r
    case Mul => l * r
    case Div => if r != 0 then TruncDiv(l, r) else 0
    case Mod => if r != 0 then TruncMod(l, r) else 0
    case Shl => if r >= 0 then l * Pow2(r) else 0
    case Shr => if r >= 0 then l / Pow2(r) else 0
    case And => BitOp(BitAnd, l, r)
    case Or => BitOp(BitOr, l, r)
    case Xor => BitOp(BitXor, l, r)
    case _ => 0
  }

  predicate ComptimeOp(op: BinOp) {
    || op == Add || op == Sub || op == Mul || op == Div || op == Mod
    || op == Shl || op == Shr || op == And || op == Or || op == Xor
  }

  /** C gives the operation a meaning at the type. */
  predicate OperandsOk(op: BinOp, t: Ty, l: int, r: int) {
    && (op == Div || op == Mod ==> r != 0)
    && (op == Mod ==> !(l == -(Modulus(t) / 2) && r == -1))
    && (op == Shl || op == Shr ==> 0 <= r < Width(t))
  }

  predicate IntOrLong(t: Ty) { t == I32 || t == I64 }

  /** An expression over literals and constants whose every step has a meaning and fits its own type. */
  predicate Defined(cx: Ctx, e: Expr) {
    InRange(TypeOf(cx, [], e), EvalComptime(cx.comptime, e)) &&
    match e
    case IntLit(_) => true
    case LongLit(_) => true
    case Var(x) => ConstFrom(cx.comptime, x).Some?
    case Unary(p, e1) => !p.LogicalNot? && Defined(cx, e1)
    case Binary(op, l, r) =>
      var t := CommonType(TypeOf(cx, [], l), TypeOf(cx, [], r));
      && op.Arith? && ComptimeOp(op.op) && Defined(cx, l) && Defined(cx, r)
      && OperandsOk(op.op, t, EvalComptime(cx.comptime, l), EvalComptime(cx.comptime, r))
    case _ => false
  }

  /** On operands of the type: the operation gives the evaluator's value if and only if that value fits. */
  lemma {:induction false} ArithExact(op: BinOp, t: Ty, l: int, r: int)
    requires IntOrLong(t) && InRange(t, l) && InRange(t, r) && ComptimeOp(op) && OperandsOk(op, t, l, r)
    ensures Compute(op, t, l, r) == Some(EvalArith(op, l, r)) <==> InRange(t, EvalArith(op, l, r))
  {
    hide Wrap, BitOp, Pow2, TruncDiv, TruncMod;
    var v := EvalArith(op, l, r);
    if InRange(t, v) { WrapIdentity(t, v); }
    if op == Div {
      if DivUndefined(t, l, r) { LeastQuotient(l); } else { TruncDivInRange(t, l, r); }
    }
    if op == Mod { TruncModInRange(t, l, r); }
    if op == Shr { ShiftRightInRange(t, l, r); }
  }

  lemma {:induction false} LeastQuotient(l: int)
    requires l < 0
    ensures TruncDiv(l, -1) == -l
  {
  }

  lemma {:induction false} TypeIs(cx: Ctx, e: Expr)
    requires Defined(cx, e)
    ensures IntOrLong(TypeOf(cx, [], e)) && InRange(TypeOf(cx, [], e), EvalComptime(cx.comptime, e))
    decreases e
  {
    match e
    case Unary(_, e1) => TypeIs(cx, e1);
    case Binary(_, l, r) =>
      TypeIs(cx, l);
      TypeIs(cx, r);
    case _ =>
  }

  /** The result has the expression's type and the evaluator's value, and nothing was called. */
  predicate Agrees(cx: Ctx, r: EvalResult, e: Expr, tr: seq<Event>) {
    r.Val? && r.ty == TypeOf(cx, [], e) && r.v == EvalComptime(cx.comptime, e) && r.trace == tr
  }

  /** Compile-time evaluation gives the value the expression has at run time. */
  lemma {:induction false} ComptimeAgrees(cx: Ctx, w: World, e: Expr, env: Env, tr: seq<Event>)
    requires Defined(cx, e)
    requires forall i :: 0 <= i < |env| ==> ConstFrom(cx.comptime, env[i].name).None?
    ensures Agrees(cx, EvalExpr(cx, w, e, env, tr), e, tr)
    decreases e
  {
    hide Compute, EvalArith, Wrap, InRange, Lookup, EvalPrefix, CommonType, BitOp;
    TypeIs(cx, e);
    match e
    case IntLit(n) => WrapIdentity(I32, n);
    case Unary(p, e1) =>
      ComptimeAgrees(cx, w, e1, env, tr);
      PrefixAgrees(cx, p, e1, tr);
    case Binary(op, l, r) => BinaryAgrees(cx, w, op, l, r, env, tr);
    case _ =>
  }

  lemma {:induction false} PrefixAgrees(cx: Ctx, p: Prefix, e: Expr, tr: seq<Event>)
    requires Defined(cx, Unary(p, e)) && TypeOf(cx, [], e) != Ptr
    ensures
      var r := EvalPrefix(p, TypeOf(cx, [], e), EvalComptime(cx.comptime, e), tr);
      Agrees(cx, r, Unary(p, e), tr)
  {
    hide Wrap;
    WrapIdentity(TypeOf(cx, [], e), EvalComptime(cx.comptime, Unary(p, e)));
  }

  lemma {:induction false} BinaryAgrees(cx: Ctx, w: World, op: Operator, l: Expr, r: Expr, env: Env, tr: seq<Event>)
    requires Defined(cx, Binary(op, l, r))
    requires forall i :: 0 <= i < |env| ==> ConstFrom(cx.comptime, env[i].name).None?
    ensures Agrees(cx, EvalExpr(cx, w, Binary(op, l, r), env, tr), Binary(op, l, r), tr)
    decreases Binary(op, l, r), 0
  {
    hide Compute, EvalArith, Wrap, ConstFrom, InRange, TypeOf;
    TypeIs(cx, l);
    TypeIs(cx, r);
    ComptimeAgrees(cx, w, l, env, tr);
    ComptimeAgrees(cx, w, r, env, tr);
    var a, b := EvalComptime(cx.comptime, l), EvalComptime(cx.comptime, r);
    var s, u := TypeOf(cx, [], l), TypeOf(cx, [], r);
    var t := CommonType(s, u);
    OperatorType(cx, op, l, r);
    Brought(s, t, a);
    Brought(u, t, b);
    ArithExact(op.op, t, a, b);
  }

  lemma {:induction false} OperatorType(cx: Ctx, op: Operator, l: Expr, r: Expr)
    requires op.Arith?
    ensures TypeOf(cx, [], Binary(op, l, r)) == ArithType(CommonType(TypeOf(cx, [], l), TypeOf(cx, [], r)))
  {
  }

  /** Bringing an int to a long keeps its value. */
  lemma {:induction false} Brought(s: Ty, t: Ty, v: int)
    requires IntOrLong(s) && (t == s || t == I64) && InRange(s, v)
    ensures InRange(t, v) && Wrap(t, v) == v
  {
    WrapIdentity(t, v);
  }

  /** Such an expression keeps its type, which no table of variables changes. */
  lemma {:induction false} DefinedKept(cx: Ctx, vars: seq<VarEntry>, e: Expr)
    requires Defined(cx, e)
    ensures Typed(cx, vars, e) && Plain(e) && TypeOf(cx, vars, e) == TypeOf(cx, [], e)
    decreases e
  {
    match e
    case Unary(_, e1) => DefinedKept(cx, vars, e1);
    case Binary(_, l, r) =>
      DefinedKept(cx, vars, l);
      DefinedKept(cx, vars, r);
    case _ =>
  }

  /** So the emitted code puts the compile-time value in its operand, and spoils no earlier temp. */
  lemma {:induction false} ComptimeRuns(cx: Ctx, w: World, e: Expr, env: Env, vars: seq<VarEntry>, tmp: nat, s: State)
      returns (s': State)
    requires Defined(cx, e) && Rel(cx, env, vars, s.mem)
    ensures
      var c := EmitExpr(cx, vars, e, tmp);
      && ExecCode(c.instrs, w, s) == Some(s') && c.ty == TypeOf(cx, [], e)
      && Read(c.op, c.ty, s'.temps) == Some(EvalComptime(cx.comptime, e))
      && s'.mem == s.mem && s'.trace == s.trace && TempsKept(s.temps, s'.temps, tmp)
  {
    hide EvalComptime, EmitExpr, EvalExpr, Wrap, SameShape, MemOk, Defined, ExecCode, TempsKept, TypeOf, Kept, Lost,
      Plain;
    TypeIs(cx, e);
    ComptimeAgrees(cx, w, e, env, s.trace);
    DefinedKept(cx, vars, e);
    ReadType(cx, w, e, env, vars, s.mem, s.trace, tmp);
    s' := ExprSim(cx, w, e, env, vars, tmp, s);
    EvaluatedParts(EmitExpr(cx, vars, e, tmp), EvalExpr(cx, w, e, env, s.trace), w, s, s', tmp);
  }

  /** Two int literals whose sum does not fit: the evaluator adds them in 64 bits, the code in 32. */
  lemma {:induction false} IntLiteralsDisagree(cx: Ctx, w: World, env: Env, tr: seq<Event>)
    ensures
      var e := Binary(Arith(Add), IntLit(2_000_000_000), IntLit(2_000_000_000));
      && EvalComptime(cx.comptime, e) == 4_000_000_000
      && EvalExpr(cx, w, e, env, tr) == Val(I32, -294_967_296, tr)
  {
    var n := IntLit(2_000_000_000);
    WrapIdentity(I32, 2_000_000_000);
    assert EvalExpr(cx, w, n, env, tr) == Val(I32, 2_000_000_000, tr);
    assert Wrap(I32, 4_000_000_000) == -294_967_296;
    hide Wrap;
    assert Compute(Add, I32, 2_000_000_000, 2_000_000_000) == Some(-294_967_296);
  }

  // ----- the prefix `!`, which the evaluator drops -----

  /** A value is read at one bit by its parity. */
  lemma {:induction false} OneBit(x: Operand, t: IntTy, temps: map<string, int>, v: int)
    requires Read(x, t, temps) == Some(v)
    ensures Read(x, I1, temps) == Some(Truth(v % 2 != 0))
  {
    match x
    case Lit(n) => WrapParity(t, n);
    case Reg(r) => WrapParity(t, temps[r]);
    case _ =>
  }

  lemma {:induction false} WrapParity(t: Ty, n: int)
    ensures Wrap(I1, n) == Truth(Wrap(t, n) % 2 != 0)
  {
    hide Modulus, Carry, Wrap;
    var k, h := Carry(t, n), Modulus(t) / 2;
    assert k * Modulus(t) == (k * h) * 2 by { assert Modulus(t) == h * 2; }
    ModCongruent(2, n, Wrap(t, n), k * h);
    WrapBit(n);
  }

  lemma {:induction false} WrapBit(n: int)
    ensures Wrap(I1, n) == Truth(n % 2 != 0)
  {
  }

  /** The comparison with zero gives -1 for an even value and 0 for an odd one. */
  lemma {:induction false} NotRuns(c: Code, v: int, w: World, s: State, m: State) returns (s': State)
    requires ExecCode(c.instrs, w, s) == Some(m) && c.ty != Ptr && Read(c.op, c.ty, m.temps) == Some(v)
    ensures
      var o := EmitPrefix(LogicalNot, c);
      && ExecCode(o.instrs, w, s) == Some(s') && o.ty == I1 && Read(o.op, I1, s'.temps) == Some(Truth(v % 2 == 0))
      && s'.mem == m.mem && s'.trace == m.trace
  {
    hide TempName, ExecCode, Read;
    var dst := TempName(c.tmp);
    var i := Icmp(Eq, dst, I1, c.op, Lit(0));
    OneBit(c.op, c.ty, m.temps, v);
    s' := m.(temps := m.temps[dst := Truth(v % 2 == 0)]);
    Reads(dst, v % 2 == 0, m.temps);
    assert ExecInstr(i, w, m) == Some(s');
    ExecOne(i, w, m);
    ExecAppend(c.instrs, [i], w, s);
  }

  lemma {:induction false} Reads(dst: string, b: bool, temps: map<string, int>)
    ensures Read(Reg(dst), I1, temps[dst := Truth(b)]) == Some(Truth(b)) && Read(Lit(0), I1, temps) == Some(0)
  {
  }

  lemma {:induction false} NotCode(cx: Ctx, vars: seq<VarEntry>, e: Expr, tmp: nat)
    ensures EmitExpr(cx, vars, Unary(LogicalNot, e), tmp) == EmitPrefix(LogicalNot, EmitExpr(cx, vars, e, tmp))
  {
  }

  /** For every expression of which the evaluator gives the run-time value, and for both bool literals: the
      emitted code for its negation gives -1 or 0 by the parity of that value (the literal `true` is odd), and the
      evaluator gives that too if and only if the literal `true` is negated. */
  lemma {:induction false} NotExact(cx: Ctx, w: World, e: Expr, env: Env, vars: seq<VarEntry>, tmp: nat, s: State)
      returns (s': State)
    requires (Defined(cx, e) || e.BoolLit?) && Rel(cx, env, vars, s.mem)
    ensures
      var n := Unary(LogicalNot, e);
      var c := EmitExpr(cx, vars, n, tmp);
      var odd := if e.BoolLit? then e.b else EvalComptime(cx.comptime, e) % 2 != 0;
      && ExecCode(c.instrs, w, s) == Some(s') && s'.mem == s.mem && s'.trace == s.trace
      && c.ty == I1 && Read(c.op, I1, s'.temps) == Some(Truth(!odd))
      && (Read(c.op, I1, s'.temps) == Some(EvalComptime(cx.comptime, n)) <==> e == BoolLit(true))
  {
    hide EmitExpr, ExecCode, Defined, Rel, TempsKept, TypeOf, Read, EmitPrefix;
    NotCode(cx, vars, e, tmp);
    if e.BoolLit? {
      TrueIsOdd(cx, vars, e, tmp, w, s);
      s' := NotRuns(EmitExpr(cx, vars, e, tmp), Truth(e.b), w, s, s);
    } else {
      TypeIs(cx, e);
      var m := ComptimeRuns(cx, w, e, env, vars, tmp, s);
      s' := NotRuns(EmitExpr(cx, vars, e, tmp), EvalComptime(cx.comptime, e), w, s, m);
    }
  }

  lemma {:induction false} TrueIsOdd(cx: Ctx, vars: seq<VarEntry>, e: Expr, tmp: nat, w: World, s: State)
    requires e.BoolLit?
    ensures
      var c := EmitExpr(cx, vars, e, tmp);
      ExecCode(c.instrs, w, s) == Some(s) && c.ty == I1 && Read(c.op, c.ty, s.temps) == Some(Truth(e.b))
  {
  }

  // ----- what the evaluator gives 0 for -----

  /** A comparison is 0 at compile time, whatever is compared: right if and only if it does not hold. */
  lemma {:induction false} CompareExact(cx: Ctx, w: World, p: Pred, l: Expr, r: Expr, env: Env, tr: seq<Event>)
    requires Operators.Signed(p) && Defined(cx, l) && Defined(cx, r)
    requires forall i :: 0 <= i < |env| ==> ConstFrom(cx.comptime, env[i].name).None?
    ensures
      var e := Binary(Cmp(p), l, r);
      var v, c := EvalExpr(cx, w, e, env, tr), EvalComptime(cx.comptime, e);
      && v.Val? && v.ty == I1 && c == 0
      && (v.v == c <==> !Operators.Holds(p, EvalComptime(cx.comptime, l), EvalComptime(cx.comptime, r)))
  {
    hide EvalExpr, Defined, TypeOf, ConstFrom, InRange, Operators.Holds;
    TypeIs(cx, l);
    TypeIs(cx, r);
    ComptimeAgrees(cx, w, l, env, tr);
    ComptimeAgrees(cx, w, r, env, tr);
    Operators.CompareMeans(cx, w, p, l, r, env, tr);
  }

  /** A logical shift is 0 at compile time: right if and only if it drops every bit. */
  lemma {:induction false} LogicalShiftExact(cx: Ctx, w: World, l: Expr, r: Expr, env: Env, tr: seq<Event>)
    requires Defined(cx, l) && Defined(cx, r)
    requires forall i :: 0 <= i < |env| ==> ConstFrom(cx.comptime, env[i].name).None?
    requires 0 <= EvalComptime(cx.comptime, r) < Width(CommonType(TypeOf(cx, [], l), TypeOf(cx, [], r)))
    ensures
      var e, t := Binary(Arith(Lshr), l, r), CommonType(TypeOf(cx, [], l), TypeOf(cx, [], r));
      var v, c := EvalExpr(cx, w, e, env, tr), EvalComptime(cx.comptime, e);
      && v.Val? && c == 0
      && (v.v == c <==> Unsigned(t, EvalComptime(cx.comptime, l)) < Pow2(EvalComptime(cx.comptime, r)))
  {
    hide EvalExpr, Defined, ConstFrom, TypeOf, InRange, Wrap, Pow2, Unsigned, CommonType, EvalComptime;
    TypeIs(cx, l);
    TypeIs(cx, r);
    ComptimeAgrees(cx, w, l, env, tr);
    ComptimeAgrees(cx, w, r, env, tr);
    Operators.Evaluates(cx, w, Arith(Lshr), l, r, env, tr);
    var a, b := EvalComptime(cx.comptime, l), EvalComptime(cx.comptime, r);
    var s, u := TypeOf(cx, [], l), TypeOf(cx, [], r);
    CommonOfTwo(s, u);
    Brought(s, CommonType(s, u), a);
    Brought(u, CommonType(s, u), b);
    ShiftsOut(CommonType(s, u), a, b);
    ShiftIsZero(cx, l, r);
  }

  lemma {:induction false} CommonOfTwo(s: Ty, u: Ty)
    requires IntOrLong(s) && IntOrLong(u)
    ensures
      var t := CommonType(s, u);
      (t == s || t == I64) && (t == u || t == I64)
  {
  }

  lemma {:induction false} ShiftIsZero(cx: Ctx, l: Expr, r: Expr)
    ensures EvalComptime(cx.comptime, Binary(Arith(Lshr), l, r)) == 0
  {
  }

  lemma {:induction false} ShiftsOut(t: Ty, a: int, b: nat)
    ensures Wrap(t, Unsigned(t, a) / Pow2(b)) == 0 <==> Unsigned(t, a) < Pow2(b)
  {
    hide Pow2;
    var n, p := Unsigned(t, a), Pow2(b);
    DivModNat(n, p);
    if n < p {
      NoMultipleBetween(n / p, p);
    } else {
      QuotientAtMost(n, p);
      QuotientPositive(n, p);
      InsideModulus(t, n / p);
    }
  }

  lemma {:induction false} QuotientPositive(n: nat, p: nat)
    requires 0 < p <= n
    ensures n / p > 0
  {
  }

  lemma {:induction false} InsideModulus(t: Ty, q: int)
    requires 0 < q < Modulus(t)
    ensures Wrap(t, q) != 0
  {
  }

  /** Where dividing has no meaning, the evaluator gives 0. */
  lemma {:induction false} ByZero(cx: Ctx, w: World, op: BinOp, l: Expr, r: Expr, env: Env, tr: seq<Event>)
    requires (op == Div || op == Mod) && Defined(cx, l) && Defined(cx, r) && EvalComptime(cx.comptime, r) == 0
    requires forall i :: 0 <= i < |env| ==> ConstFrom(cx.comptime, env[i].name).None?
    ensures EvalExpr(cx, w, Binary(Arith(op), l, r), env, tr) == Failed
    ensures EvalComptime(cx.comptime, Binary(Arith(op), l, r)) == 0
  {
    hide EvalExpr, Defined, TypeOf, ConstFrom, InRange, CommonType;
    TypeIs(cx, l);
    TypeIs(cx, r);
    ComptimeAgrees(cx, w, l, env, tr);
    ComptimeAgrees(cx, w, r, env, tr);
    Operators.Evaluates(cx, w, Arith(op), l, r, env, tr);
    WrapIdentity(CommonType(TypeOf(cx, [], l), TypeOf(cx, [], r)), 0);
  }

  /** Characters and truth values are 0 at compile time. */
  lemma {:induction false} LiteralExact(cx: Ctx, w: World, e: Expr, env: Env, tr: seq<Event>)
    requires e.CharLit? || e.BoolLit?
    ensures
      var v, c := EvalExpr(cx, w, e, env, tr), EvalComptime(cx.comptime, e);
      v.Val? && c == 0 && (v.v == c <==> if e.CharLit? then e.c % 256 == 0 else !e.b)
  {
  }
}
