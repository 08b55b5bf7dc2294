/** What operators mean on operands of different types: the type they are brought to keeps both values, and on
    values that are kept arithmetic and comparison are those of the integers. */
module Operators {
  import opened Words
  import opened Fir
  import opened Source
  import opened Lower
  import opened Typing

  // ----- the common type -----

  /** A short with an int, in either order. */
  predicate Narrows(s: Ty, u: Ty) { (s == I16 && u == I32) || (s == I32 && u == I16) }

  ghost predicate Keeps(t: Ty, s: Ty) { forall v: int :: InRange(s, v) ==> Wrap(t, v) == v }

  /** All values of both types keep their values at the common type if and only if the types are not short and
      int. */
  lemma {:induction false} CommonKeeps(s: IntTy, u: IntTy)
    ensures Keeps(CommonType(s, u), s) && Keeps(CommonType(s, u), u) <==> !Narrows(s, u)
  {
    var t := CommonType(s, u);
    if Narrows(s, u) {
      assert InRange(I32, 40_000) && Wrap(I16, 40_000) == 40_000 - 0x1_0000;
    } else {
      forall v: int | InRange(s, v) || InRange(u, v)
        ensures Wrap(t, v) == v
      {
        WrapIdentity(t, v);
      }
    }
  }

  /** The order of the operands does not matter; equal types stay, but for bool; and no more bits are taken than
      an int has, unless an operand is a long. */
  lemma {:induction false} CommonExact(s: IntTy, u: IntTy)
    ensures CommonType(s, u) == CommonType(u, s)
    ensures s != I1 ==> CommonType(s, s) == s
    ensures Width(CommonType(s, u)) == 8 <==> s == I8 && u == I8
    ensures Width(CommonType(s, u)) == 16 <==> (s == I16 || u == I16) && s != I64 && u != I64
    ensures Width(CommonType(s, u)) == 64 <==> s == I64 || u == I64
    ensures Width(CommonType(s, u)) > 1
  {
  }

  // ----- arithmetic -----

  /** The value of the operands' sum, difference or product. */
  function Exactly(op: BinOp, a: int, b: int): int
    requires op == Add || op == Sub || op == Mul
  {
    if op == Add then a + b else if op == Sub then a - b else a * b
  }

  /** Which sums are right: those that a char has room for if both operands are chars, and so on. */
  predicate Fits(s: IntTy, u: IntTy, v: int) {
    if s == I64 || u == I64 then -0x8000_0000_0000_0000 <= v < 0x8000_0000_0000_0000
    else if s == I16 || u == I16 then -0x8000 <= v < 0x8000
    else if s == I8 && u == I8 then -128 <= v < 128
    else -0x8000_0000 <= v < 0x8000_0000
  }

  /** Two operands with values `a` and `b`, whatever they are and whatever types they have: their sum, difference or
      product has the integers' value if and only if it fits, and is a long if an operand is, an int otherwise. */
  lemma {:induction false} ArithMeans(cx: Ctx, w: World, op: BinOp, l: Expr, r: Expr, env: Env, tr: seq<Event>)
    requires op == Add || op == Sub || op == Mul
    requires
      var x := EvalExpr(cx, w, l, env, tr);
      x.Val? && InRange(x.ty, x.v) && EvalExpr(cx, w, r, env, x.trace).Val?
    requires
      var x := EvalExpr(cx, w, l, env, tr);
      var y := EvalExpr(cx, w, r, env, x.trace);
      InRange(y.ty, y.v) && !Narrows(x.ty, y.ty)
    ensures
      var x := EvalExpr(cx, w, l, env, tr);
      var y := EvalExpr(cx, w, r, env, x.trace);
      var z := EvalExpr(cx, w, Binary(Arith(op), l, r), env, tr);
      && z.Val? && z.trace == y.trace && z.ty == (if x.ty == I64 || y.ty == I64 then I64 else I32)
      && (z.v == Exactly(op, x.v, y.v) <==> Fits(x.ty, y.ty, Exactly(op, x.v, y.v)))
  {
    hide EvalExpr, Wrap, Modulus, CommonType;
    var x := EvalExpr(cx, w, l, env, tr);
    var y := EvalExpr(cx, w, r, env, x.trace);
    var t := CommonType(x.ty, y.ty);
    Evaluates(cx, w, Arith(op), l, r, env, tr);
    CommonKeeps(x.ty, y.ty);
    assert Wrap(t, x.v) == x.v && Wrap(t, y.v) == y.v;
    ResultFits(x.ty, y.ty, Exactly(op, x.v, y.v));
  }

  lemma {:induction false} ResultFits(s: IntTy, u: IntTy, v: int)
    ensures Wrap(CommonType(s, u), v) == v <==> Fits(s, u, v)
    ensures ArithType(CommonType(s, u)) == if s == I64 || u == I64 then I64 else I32
  {
    if Fits(s, u, v) { WrapIdentity(CommonType(s, u), v); }
  }

  lemma {:induction false} Evaluates(cx: Ctx, w: World, op: Operator, l: Expr, r: Expr, env: Env, tr: seq<Event>)
    requires
      var x := EvalExpr(cx, w, l, env, tr);
      x.Val? && EvalExpr(cx, w, r, env, x.trace).Val?
    ensures
      var x := EvalExpr(cx, w, l, env, tr);
      var y := EvalExpr(cx, w, r, env, x.trace);
      var t := CommonType(x.ty, y.ty);
      EvalExpr(cx, w, Binary(op, l, r), env, tr) == EvalOperator(op, t, Wrap(t, x.v), Wrap(t, y.v), y.trace)
  {
    hide EvalOperator, CommonType, Wrap;
  }

  // ----- comparison -----

  /** Which signed comparison holds of two integers, by the sign of their difference. */
  predicate Holds(p: Pred, a: int, b: int) {
    var d := a - b;
    match p
    case Eq => d == 0
    case Ne => d < 0 || d > 0
    case Slt => d < 0
    case Sle => d < 0 || d == 0
    case Sgt => d > 0
    case Sge => d > 0 || d == 0
    case _ => false
  }

  predicate Signed(p: Pred) { p == Eq || p == Ne || p == Slt || p == Sle || p == Sgt || p == Sge }

  /** Two operands with values `a` and `b` of whatever types compare as the integers do. */
  lemma {:induction false} CompareMeans(cx: Ctx, w: World, p: Pred, l: Expr, r: Expr, env: Env, tr: seq<Event>)
    requires Signed(p)
    requires
      var x := EvalExpr(cx, w, l, env, tr);
      x.Val? && InRange(x.ty, x.v) && EvalExpr(cx, w, r, env, x.trace).Val?
    requires
      var x := EvalExpr(cx, w, l, env, tr);
      var y := EvalExpr(cx, w, r, env, x.trace);
      InRange(y.ty, y.v) && !Narrows(x.ty, y.ty)
    ensures
      var x := EvalExpr(cx, w, l, env, tr);
      var y := EvalExpr(cx, w, r, env, x.trace);
      EvalExpr(cx, w, Binary(Cmp(p), l, r), env, tr) == Val(I1, if Holds(p, x.v, y.v) then -1 else 0, y.trace)
  {
    hide EvalExpr, Wrap, Modulus, CommonType;
    var x := EvalExpr(cx, w, l, env, tr);
    var y := EvalExpr(cx, w, r, env, x.trace);
    var t := CommonType(x.ty, y.ty);
    Evaluates(cx, w, Cmp(p), l, r, env, tr);
    CommonKeeps(x.ty, y.ty);
    assert Wrap(t, x.v) == x.v && Wrap(t, y.v) == y.v;
  }

  // ----- calls -----

  /** Of the arguments, as many are passed as there is room for. */
  lemma {:induction false} ArgsCut(cx: Ctx, vars: seq<VarEntry>, args: Exprs, tmp: nat, room: nat)
    ensures |EmitArgs(cx, vars, args, tmp, room).args| == if Length(args) < room then Length(args) else room
    decreases args
  {
    hide EmitExpr;
    if args.MoreExprs? && room > 0 { ArgsCut(cx, vars, args.tail, EmitExpr(cx, vars, args.head, tmp).tmp, room - 1); }
  }

  /** A function that is not known is called as one that returns an int, with its arguments as they are. */
  lemma {:induction false} UnknownCall(cx: Ctx, vars: seq<VarEntry>, fn: string, args: Exprs, tmp: nat)
    requires fn !in cx.sigs
    ensures
      var a, c := EmitArgs(cx, vars, args, tmp, MAX_ARGS), EmitExpr(cx, vars, CallFn(fn, args), tmp);
      c.instrs == a.instrs + [Call(TempName(a.tmp), I32, fn, a.args)] && c.op == Reg(TempName(a.tmp)) && c.ty == I32
  {
    hide TempName, EmitArgs;
    var a := EmitArgs(cx, vars, args, tmp, MAX_ARGS);
    assert a.instrs + [] == a.instrs;
  }
}
