/** Which source functions the optimiser translates faithfully, judged by their literals alone: int and
    char literals lie in their types' ranges, and `true` is not widened. */
module LowerSafe {
  import opened Words
  import opened Fir
  import opened Source
  import opened Lower
  import opened LowerDefs
  import opened LowerGrow
  import opened LowerFn
  import opened Typing
  import Folding
  import Literals
  import Passes
  import LowerCorrect

  // ----- the condition -----

  predicate IsTrue(e: Expr) { e == BoolLit(true) }

  /** `true` is printed as the one-bit literal 1, which a sign extension would turn into -1. */
  predicate Fits(e: Expr, t: Ty) { IsTrue(e) ==> t == I1 }

  predicate Lits(cx: Ctx, e: Expr) {
    match e
    case IntLit(n) => InRange(I32, n)
    case CharLit(c) => InRange(I8, c)
    case Unary(_, e1) => Lits(cx, e1)
    case Binary(_, l, r) => Lits(cx, l) && Lits(cx, r) && !IsTrue(l) && !IsTrue(r)
    case CallFn(fn, args) => ArgLits(cx, args, SigOf(cx, fn).params)
    case _ => true
  }

  predicate ArgLits(cx: Ctx, args: Exprs, params: seq<Ty>) {
    match args
    case NoExprs => true
    case MoreExprs(e, rest) =>
      && Lits(cx, e) && (params != [] ==> Fits(e, params[0]))
      && ArgLits(cx, rest, if params == [] then [] else params[1..])
  }

  /** A table but for its slots. */
  function Bare(vars: seq<VarEntry>): (r: seq<VarEntry>)
    ensures |r| == |vars| && forall i :: 0 <= i < |vars| ==> r[i] == vars[i].(slot := "")
  {
    seq(|vars|, i requires 0 <= i < |vars| => vars[i].(slot := ""))
  }

  /** What a statement leaves of it. */
  function ReadAfter(cx: Ctx, vars: seq<VarEntry>, s: Stmt): seq<VarEntry> {
    if !s.Decl? || Discarded(s.x, s.ty, s.init) then vars
    else
      var t := if s.ty.Some? then s.ty.value else if s.init.None? then I32 else ReadBack(cx, vars, s.init.value);
      Enter(vars, VarEntry(s.x, t, ""))
  }

  function FirstRead(cx: Ctx, vars: seq<VarEntry>, first: Option<Stmt>): seq<VarEntry> {
    if first.Some? then ReadAfter(cx, vars, first.value) else vars
  }

  /** The type of what is assigned to. */
  function AssignType(cx: Ctx, vars: seq<VarEntry>, x: string): Ty {
    var k := VarLookup(vars, x);
    if k.Some? then vars[k.value].ty else ReadBack(cx, vars, Var(x))
  }

  predicate EffectLits(cx: Ctx, vars: seq<VarEntry>, eff: Effect) {
    match eff
    case Assign(x, e) => Lits(cx, e) && Fits(e, AssignType(cx, vars, x))
    case Compound(_, x, e) => Lits(cx, e) && Fits(e, AssignType(cx, vars, x))
    case Eval(e) => Lits(cx, e)
    case _ => true
  }

  predicate StmtLits(cx: Ctx, vars: seq<VarEntry>, s: Stmt)
    decreases s, 0
  {
    Shaped(s) &&
    match s
    case Decl(_, ty, init, _) => init.Some? ==> Lits(cx, init.value) && (ty.Some? ==> Fits(init.value, ty.value))
    case Do(eff) => EffectLits(cx, vars, eff)
    case Return(val) => val.Some? && cx.ret.Some? ==> Lits(cx, val.value) && Fits(val.value, cx.ret.value)
    case If(c, thn, els) => Lits(cx, c) && AllLits(cx, vars, thn) && (els.Some? ==> StmtLits(cx, vars, els.value))
    case While(c, body) => Lits(cx, c) && AllLits(cx, vars, body)
    case DoWhile(body, c) => Lits(cx, c) && AllLits(cx, vars, body)
    case ForC(first, test, step, body) =>
      var v := FirstRead(cx, vars, first);
      && (first.Some? ==> StmtLits(cx, vars, first.value)) && (test.Some? ==> Lits(cx, test.value))
      && (step.Some? ==> EffectLits(cx, v, step.value)) && AllLits(cx, v, body)
    case Match(e, arms) => Lits(cx, e) && ArmsLits(cx, vars, arms)
    case Scope(body) => AllLits(cx, vars, body)
    case _ => true
  }

  predicate AllLits(cx: Ctx, vars: seq<VarEntry>, ss: Stmts)
    decreases ss, 0
  {
    match ss
    case NoStmts => true
    case MoreStmts(s, rest) => StmtLits(cx, vars, s) && AllLits(cx, ReadAfter(cx, vars, s), rest)
  }

  predicate ArmsLits(cx: Ctx, vars: seq<VarEntry>, arms: Arms)
    decreases arms, 0
  {
    match arms
    case NoArms => true
    case MoreArms(_, body, rest) => StmtLits(cx, vars, body) && ArmsLits(cx, vars, rest)
  }

  // ----- what the optimiser asks of an instruction -----

  predicate Harmless(i: Instr) {
    Folding.FoldInstrSafe(i) && Passes.ConvSafe(i) && !(i.BrCond? && i.cond.Lit?)
  }

  predicate AllHarmless(code: seq<Instr>) {
    forall k :: 0 <= k < |code| ==> Harmless(code[k])
  }

  predicate BlocksHarmless(bs: seq<Block>) {
    forall b :: 0 <= b < |bs| ==> AllHarmless(bs[b].instrs)
  }

  lemma HarmlessThen(a: seq<Instr>, b: seq<Instr>)
    requires AllHarmless(a) && AllHarmless(b)
    ensures AllHarmless(a + b)
  {
    hide Harmless;
  }

  lemma HarmlessOne(i: Instr)
    requires Harmless(i)
    ensures AllHarmless([i]) && AllHarmless([])
  {
  }

  /** Only arithmetic on literals, conversions and conditional jumps can do harm. */
  lemma HarmlessKinds(i: Instr)
    requires !i.Bin? && !i.Conv? && !i.BrCond?
    ensures Harmless(i)
  {
  }

  /** A literal operand is a value of its type. */
  predicate LitOp(x: Operand, t: Ty) {
    x.Lit? ==> InRange(t, x.value)
  }

  lemma WiderRange(s: Ty, t: Ty, v: int)
    requires InRange(s, v) && Width(s) <= Width(t)
    ensures InRange(t, v) && Wrap(t, v) == v
  {
    hide Wrap;
    WiderModulus(s, t);
    WrapIdentity(t, v);
  }

  lemma WiderModulus(s: Ty, t: Ty)
    requires Width(s) <= Width(t)
    ensures Modulus(s) / 2 <= Modulus(t) / 2
  {
  }

  /** A literal is at an integer type. */
  predicate LitTy(x: Operand, t: Ty) {
    x.Lit? ==> t != Ptr
  }

  lemma CoerceHarmless(x: Operand, from: Ty, to: Ty, tmp: nat)
    requires from != to ==> LitOp(x, from) && LitTy(x, from)
    ensures
      var c := Coerce(x, from, to, tmp);
      AllHarmless(c.instrs) && (LitOp(x, from) ==> LitOp(c.op, to))
  {
    hide TempName, InRange, Wrap;
    if from != to && x.Lit? && Width(from) <= Width(to) { WiderRange(from, to, x.value); }
  }

  lemma BareLookup(vars: seq<VarEntry>, x: string)
    ensures VarLookup(Bare(vars), x) == VarLookup(vars, x)
  {
    var a, b := VarLookup(Bare(vars), x), VarLookup(vars, x);
    if a.Some? && b.Some? { assert !(a.value < b.value) && !(b.value < a.value); }
  }

  lemma {:induction false} BareRead(cx: Ctx, vars: seq<VarEntry>, e: Expr)
    ensures ReadBack(cx, Bare(vars), e) == ReadBack(cx, vars, e)
    decreases e
  {
    hide Bare;
    match e
    case Var(x) => BareLookup(vars, x);
    case Unary(_, e1) => BareRead(cx, vars, e1);
    case Binary(_, l, r) =>
      BareRead(cx, vars, l);
      BareRead(cx, vars, r);
    case _ =>
  }

  lemma BareEffect(cx: Ctx, vars: seq<VarEntry>, eff: Effect)
    ensures EffectLits(cx, Bare(vars), eff) == EffectLits(cx, vars, eff)
  {
    hide Lits, Fits, Bare;
    if eff.Assign? || eff.Compound? {
      BareLookup(vars, eff.x);
      BareRead(cx, vars, Var(eff.x));
    }
  }

  // ----- expressions -----

  lemma {:induction false} ExprHarmless(cx: Ctx, vars: seq<VarEntry>, e: Expr, tmp: nat)
    requires Lits(cx, e)
    ensures
      var c := EmitExpr(cx, vars, e, tmp);
      AllHarmless(c.instrs) && (!IsTrue(e) ==> LitOp(c.op, c.ty)) && LitTy(c.op, c.ty)
    decreases e
  {
    match e
    case Unary(p, e1) => UnaryHarmless(cx, vars, p, e1, tmp);
    case Binary(op, l, r) => BinaryHarmless(cx, vars, op, l, r, tmp);
    case CallFn(fn, args) => CallHarmless(cx, vars, fn, args, tmp);
    case _ => hide TempName, VarLookup, ConstFrom;
  }

  lemma UnaryHarmless(cx: Ctx, vars: seq<VarEntry>, p: Prefix, e1: Expr, tmp: nat)
    requires Lits(cx, Unary(p, e1))
    ensures
      var c := EmitExpr(cx, vars, Unary(p, e1), tmp);
      AllHarmless(c.instrs) && LitOp(c.op, c.ty) && LitTy(c.op, c.ty)
    decreases Unary(p, e1), 0
  {
    hide TempName, AllHarmless, Harmless, InRange;
    ExprHarmless(cx, vars, e1, tmp);
    var c := EmitExpr(cx, vars, e1, tmp);
    var i := EmitPrefix(p, Code([], c.op, c.ty, c.tmp)).instrs[0];
    HarmlessKinds(i);
    HarmlessOne(i);
    HarmlessThen(c.instrs, [i]);
  }

  lemma BinaryHarmless(cx: Ctx, vars: seq<VarEntry>, op: Operator, l: Expr, r: Expr, tmp: nat)
    requires Lits(cx, Binary(op, l, r))
    ensures
      var c := EmitExpr(cx, vars, Binary(op, l, r), tmp);
      AllHarmless(c.instrs) && LitOp(c.op, c.ty) && LitTy(c.op, c.ty)
    decreases Binary(op, l, r), 0
  {
    hide TempName, AllHarmless, InRange, Coerce, CommonType, Literals.FoldSafe;
    var a := EmitExpr(cx, vars, l, tmp);
    var b := EmitExpr(cx, vars, r, a.tmp);
    ExprHarmless(cx, vars, l, tmp);
    ExprHarmless(cx, vars, r, a.tmp);
    if PointerStep(op, a.ty) { return; }
    var t := CommonType(a.ty, b.ty);
    var x := Coerce(a.op, a.ty, t, b.tmp);
    var y := Coerce(b.op, b.ty, t, x.tmp);
    CoerceHarmless(a.op, a.ty, t, b.tmp);
    CoerceHarmless(b.op, b.ty, t, x.tmp);
    var o := EmitOperator(op, t, x.op, y.op, y.tmp);
    OperatorHarmless(op, t, x.op, y.op, y.tmp);
    HarmlessThen(a.instrs, b.instrs);
    HarmlessThen(a.instrs + b.instrs, x.instrs);
    HarmlessThen(a.instrs + b.instrs + x.instrs, y.instrs);
    HarmlessThen(a.instrs + b.instrs + x.instrs + y.instrs, o.instrs);
  }

  lemma OperatorHarmless(op: Operator, t: Ty, x: Operand, y: Operand, tmp: nat)
    requires LitOp(x, t) && LitOp(y, t)
    ensures AllHarmless(EmitOperator(op, t, x, y, tmp).instrs)
  {
    hide TempName, InRange, Literals.FoldSafe;
    if op.Arith? { OperandsHarmless(op.op, TempName(tmp), t, x, y); }
  }

  lemma CallHarmless(cx: Ctx, vars: seq<VarEntry>, fn: string, args: Exprs, tmp: nat)
    requires Lits(cx, CallFn(fn, args))
    ensures
      var c := EmitExpr(cx, vars, CallFn(fn, args), tmp);
      AllHarmless(c.instrs) && LitOp(c.op, c.ty) && LitTy(c.op, c.ty)
    decreases CallFn(fn, args), 0
  {
    hide TempName, AllHarmless, InRange, Harmless, SigOf, CoerceArgs;
    var sig := SigOf(cx, fn);
    var a := EmitArgs(cx, vars, args, tmp, MAX_ARGS);
    ArgsHarmless(cx, vars, args, sig.params, tmp, MAX_ARGS);
    var b := CoerceArgs(a.args, sig.params, a.tmp);
    CoerceArgsHarmless(a.args, sig.params, a.tmp);
    var i := Call(TempName(b.tmp), sig.ret, fn, b.args);
    HarmlessKinds(i);
    HarmlessOne(i);
    HarmlessThen(a.instrs, b.instrs);
    HarmlessThen(a.instrs + b.instrs, [i]);
  }

  /** Each argument may be brought to its parameter's type. */
  predicate ArgsMay(args: seq<Arg>, params: seq<Ty>) {
    forall i :: 0 <= i < |args| && i < |params| && args[i].ty != params[i] ==>
      LitOp(args[i].val, args[i].ty) && LitTy(args[i].val, args[i].ty)
  }

  lemma ArgsHarmless(cx: Ctx, vars: seq<VarEntry>, args: Exprs, params: seq<Ty>, tmp: nat, room: nat)
    requires ArgLits(cx, args, params)
    ensures
      var r := EmitArgs(cx, vars, args, tmp, room);
      AllHarmless(r.instrs) && ArgsMay(r.args, params)
    decreases args, 0
  {
    hide TempName, AllHarmless, InRange, Harmless, EmitExpr;
    HarmlessKinds(Nop);
    HarmlessOne(Nop);
    if args.MoreExprs? && room > 0 {
      var c := EmitExpr(cx, vars, args.head, tmp);
      ExprHarmless(cx, vars, args.head, tmp);
      var params' := if params == [] then [] else params[1..];
      ArgsHarmless(cx, vars, args.tail, params', c.tmp, room - 1);
      var r := EmitArgs(cx, vars, args.tail, c.tmp, room - 1);
      HarmlessThen(c.instrs, r.instrs);
      ReadBackCode(cx, vars, args.head, tmp);
      ArgsMayCons(Arg(c.op, c.ty), r.args, params);
    }
  }

  lemma ArgsMayCons(a: Arg, rest: seq<Arg>, params: seq<Ty>)
    requires ArgsMay(rest, if params == [] then [] else params[1..])
    requires params != [] && a.ty != params[0] ==> LitOp(a.val, a.ty) && LitTy(a.val, a.ty)
    ensures ArgsMay([a] + rest, params)
  {
    hide LitOp, LitTy;
    var args := [a] + rest;
    forall i | 0 <= i < |args| && i < |params| && args[i].ty != params[i]
      ensures LitOp(args[i].val, args[i].ty) && LitTy(args[i].val, args[i].ty)
    {
      if i > 0 { assert args[i] == rest[i - 1] && params[i] == params[1..][i - 1]; }
    }
  }

  lemma {:induction false} CoerceArgsHarmless(args: seq<Arg>, params: seq<Ty>, tmp: nat)
    requires ArgsMay(args, params)
    ensures AllHarmless(CoerceArgs(args, params, tmp).instrs)
    decreases args
  {
    hide AllHarmless, InRange, Harmless, Coerce, LitOp;
    if args == [] || params == [] {
      HarmlessKinds(Nop);
      HarmlessOne(Nop);
    } else {
      var c := Coerce(args[0].val, args[0].ty, params[0], tmp);
      CoerceHarmless(args[0].val, args[0].ty, params[0], tmp);
      CoerceArgsHarmless(args[1..], params[1..], c.tmp);
      HarmlessThen(c.instrs, CoerceArgs(args[1..], params[1..], c.tmp).instrs);
    }
  }

  /** A value brought to a type it may be brought to. */
  lemma ToTypeHarmless(cx: Ctx, vars: seq<VarEntry>, e: Expr, t: Ty, tmp: nat)
    requires Lits(cx, e) && Fits(e, t)
    ensures
      var v := EmitExpr(cx, vars, e, tmp);
      var c := Coerce(v.op, v.ty, t, v.tmp);
      AllHarmless(v.instrs) && AllHarmless(c.instrs) && AllHarmless(v.instrs + c.instrs)
  {
    hide AllHarmless, InRange, Coerce, TempName;
    var v := EmitExpr(cx, vars, e, tmp);
    ExprHarmless(cx, vars, e, tmp);
    ReadBackCode(cx, vars, e, tmp);
    var c := Coerce(v.op, v.ty, t, v.tmp);
    CoerceHarmless(v.op, v.ty, t, v.tmp);
    HarmlessThen(v.instrs, c.instrs);
  }

  lemma TestHarmless(cx: Ctx, vars: seq<VarEntry>, e: Expr, tmp: nat)
    requires Lits(cx, e)
    ensures AllHarmless(EmitTest(cx, vars, e, tmp).instrs) && EmitTest(cx, vars, e, tmp).op.Reg?
  {
    hide AllHarmless, Coerce, TempName, EmitExpr, Harmless;
    ToTypeHarmless(cx, vars, e, I1, tmp);
    var v := EmitExpr(cx, vars, e, tmp);
    var b := Coerce(v.op, v.ty, I1, v.tmp);
    var i := Icmp(Ne, TempName(b.tmp), I1, b.op, Lit(0));
    HarmlessKinds(i);
    HarmlessOne(i);
    HarmlessThen(v.instrs + b.instrs, [i]);
  }

  lemma EffectHarmless(cx: Ctx, vars: seq<VarEntry>, eff: Effect, tmp: nat)
    requires EffectLits(cx, vars, eff)
    ensures AllHarmless(EmitEffect(cx, vars, eff, tmp).instrs)
  {
    hide AllHarmless, Coerce, TempName, EmitExpr, Harmless, VarLookup, Lits, Fits;
    HarmlessKinds(Nop);
    HarmlessOne(Nop);
    match eff
    case Assign(x, e) =>
      var k := VarLookup(vars, x);
      ExprHarmless(cx, vars, e, tmp);
      if k.Some? {
        var s := vars[k.value];
        ToTypeHarmless(cx, vars, e, s.ty, tmp);
        var v := EmitExpr(cx, vars, e, tmp);
        var c := Coerce(v.op, v.ty, s.ty, v.tmp);
        var i := Fir.Store(s.slot, s.ty, c.op);
        HarmlessKinds(i);
        HarmlessOne(i);
        HarmlessThen(v.instrs + c.instrs, [i]);
      }
    case Compound(op, x, e) => CompoundHarmless(cx, vars, op, x, e, tmp);
    case Increment(x) => StepHarmless(cx, vars, Add, x, tmp);
    case Decrement(x) => StepHarmless(cx, vars, Sub, x, tmp);
    case Eval(e) => ExprHarmless(cx, vars, e, tmp);
  }

  lemma StepHarmless(cx: Ctx, vars: seq<VarEntry>, op: BinOp, x: string, tmp: nat)
    requires op == Add || op == Sub
    ensures AllHarmless(EmitStepBy(cx, vars, op, x, tmp).instrs)
  {
    hide TempName, VarLookup, ConstFrom, InRange;
  }

  lemma TargetHarmless(cx: Ctx, vars: seq<VarEntry>, x: string, tmp: nat)
    ensures
      var o := EmitTarget(cx, vars, x, tmp);
      && AllHarmless(o.instrs) && LitOp(o.op, o.ty) && o.ty == AssignType(cx, vars, x)
      && (o.op.Lit? ==> o.ty != I1)
  {
    hide TempName, VarLookup, ConstFrom;
  }

  lemma StoreHarmless(vars: seq<VarEntry>, x: string, t: Ty, a: Operand)
    ensures AllHarmless(EmitStore(vars, x, t, a))
  {
  }

  lemma CompoundHarmless(cx: Ctx, vars: seq<VarEntry>, op: BinOp, x: string, e: Expr, tmp: nat)
    requires EffectLits(cx, vars, Compound(op, x, e))
    ensures AllHarmless(EmitEffect(cx, vars, Compound(op, x, e), tmp).instrs)
  {
    hide AllHarmless, Coerce, TempName, EmitExpr, Lits, EmitTarget, EmitStore, AssignType, InRange, Literals.FoldSafe;
    var o := EmitTarget(cx, vars, x, tmp);
    TargetHarmless(cx, vars, x, tmp);
    ToTypeHarmless(cx, vars, e, o.ty, o.tmp);
    var v := EmitExpr(cx, vars, e, o.tmp);
    var c := Coerce(v.op, v.ty, o.ty, v.tmp);
    ToTypeLit(cx, vars, e, o.ty, o.tmp);
    var b := Bin(op, TempName(c.tmp), o.ty, o.op, c.op);
    OperandsHarmless(op, TempName(c.tmp), o.ty, o.op, c.op);
    HarmlessOne(b);
    StoreHarmless(vars, x, o.ty, Reg(TempName(c.tmp)));
    HarmlessThen(o.instrs, v.instrs);
    HarmlessThen(o.instrs + v.instrs, c.instrs);
    HarmlessThen(o.instrs + v.instrs + c.instrs, [b]);
    HarmlessThen(o.instrs + v.instrs + c.instrs + [b], EmitStore(vars, x, o.ty, Reg(TempName(c.tmp))));
  }

  lemma OperandsHarmless(op: BinOp, dst: string, t: Ty, a: Operand, b: Operand)
    requires LitOp(a, t) && (a.Lit? ==> LitOp(b, t))
    ensures Harmless(Bin(op, dst, t, a, b))
  {
    hide InRange, Literals.FoldSafe;
    if a.Lit? && b.Lit? { Literals.RangeIsSafe(op, t, a.value, b.value); }
  }

  /** Brought to a type wider than a bit, a literal is a value of that type. */
  lemma ToTypeLit(cx: Ctx, vars: seq<VarEntry>, e: Expr, t: Ty, tmp: nat)
    requires Lits(cx, e) && Fits(e, t)
    ensures
      var v := EmitExpr(cx, vars, e, tmp);
      LitOp(Coerce(v.op, v.ty, t, v.tmp).op, t) || t == I1
  {
    hide Coerce, TempName, EmitExpr, InRange;
    var v := EmitExpr(cx, vars, e, tmp);
    ExprHarmless(cx, vars, e, tmp);
    ReadBackCode(cx, vars, e, tmp);
    CoerceHarmless(v.op, v.ty, t, v.tmp);
  }

  // ----- building -----

  lemma EmitHarmless(g: Gen, code: seq<Instr>)
    requires |g.blocks| > 0 && BlocksHarmless(g.blocks) && AllHarmless(code)
    ensures BlocksHarmless(Emit(g, code).blocks)
  {
    hide Harmless, AllHarmless;
    var n := |g.blocks| - 1;
    HarmlessThen(g.blocks[n].instrs, code);
  }

  lemma PlaceHarmless(g: Gen, l: string)
    requires BlocksHarmless(g.blocks)
    ensures BlocksHarmless(Place(g, l).blocks)
  {
    hide Harmless;
  }

  lemma BrToHarmless(g: Gen, l: string)
    requires |g.blocks| > 0 && BlocksHarmless(g.blocks)
    ensures BlocksHarmless(BrTo(g, l).blocks)
  {
    hide Harmless, AllHarmless, BlocksHarmless, Emit;
    HarmlessKinds(Br(l));
    HarmlessOne(Br(l));
    EmitHarmless(g, [Br(l)]);
  }

  lemma StraightHarmless(g: Gen, c: Code)
    requires |g.blocks| > 0 && c.tmp >= g.tmp && BlocksHarmless(g.blocks) && AllHarmless(c.instrs)
    ensures BlocksHarmless(Straight(g, c).blocks)
  {
    hide Harmless, AllHarmless, BlocksHarmless, Emit;
    EmitHarmless(g, c.instrs);
  }

  lemma BranchHarmless(cx: Ctx, g: Gen, c: Expr, t: string, e: string)
    requires |g.blocks| > 0 && BlocksHarmless(g.blocks) && Lits(cx, c)
    ensures BlocksHarmless(EmitBranch(cx, g, c, t, e).blocks)
  {
    hide AllHarmless, BlocksHarmless, Emit, EmitTest, Lits;
    var v := EmitTest(cx, g.vars, c, g.tmp);
    TestHarmless(cx, g.vars, c, g.tmp);
    var i := BrCond(v.op, t, e);
    HarmlessOne(i);
    HarmlessThen(v.instrs, [i]);
    EmitHarmless(g, v.instrs + [i]);
  }

  lemma DeclHarmless(cx: Ctx, g: Gen, x: string, ty: Option<IntTy>, init: Option<Expr>, mut: bool)
    requires |g.blocks| > 0 && BlocksHarmless(g.blocks) && StmtLits(cx, Bare(g.vars), Decl(x, ty, init, mut))
    ensures BlocksHarmless(EmitDecl(cx, g, x, ty, init).blocks)
  {
    hide AllHarmless, BlocksHarmless, Lits, Fits, DeclCode, DeclEntry;
    DeclCodeHarmless(cx, g.vars, x, ty, init, g.tmp);
    StraightHarmless(g, DeclCode(cx, g.vars, x, ty, init, g.tmp));
  }

  lemma DeclCodeHarmless(cx: Ctx, vars: seq<VarEntry>, x: string, ty: Option<IntTy>, init: Option<Expr>, tmp: nat)
    requires init.Some? ==> Lits(cx, init.value) && (ty.Some? ==> Fits(init.value, ty.value))
    ensures AllHarmless(DeclCode(cx, vars, x, ty, init, tmp).instrs)
  {
    hide AllHarmless, EmitExpr, Coerce, DeclSlot, Lits, Fits, Harmless;
    HarmlessKinds(Nop);
    HarmlessOne(Nop);
    if Inferred(ty, init) {
      var v := EmitExpr(cx, vars, init.value, tmp);
      var slot := DeclSlot(x, v.tmp);
      ExprHarmless(cx, vars, init.value, tmp);
      SlotHarmless(slot, v.ty, v.op);
      HarmlessThen(v.instrs, [Alloca(slot, v.ty), Fir.Store(slot, v.ty, v.op)]);
    } else {
      var t: Ty := if ty.Some? then ty.value else I32;
      var slot, n := DeclSlot(x, tmp), DeclTmp(x, tmp);
      var v := if init.Some? then EmitExpr(cx, vars, init.value, n) else Code([], Lit(0), t, n);
      var c := Coerce(v.op, v.ty, t, v.tmp);
      if init.Some? { ToTypeHarmless(cx, vars, init.value, t, n); } else { CoerceHarmless(v.op, t, t, n); }
      SlotHarmless(slot, t, c.op);
      HarmlessThen([Alloca(slot, t)], v.instrs);
      HarmlessThen([Alloca(slot, t)] + v.instrs, c.instrs);
      HarmlessThen([Alloca(slot, t)] + v.instrs + c.instrs, [Fir.Store(slot, t, c.op)]);
    }
  }

  lemma SlotHarmless(x: string, t: Ty, a: Operand)
    ensures AllHarmless([Alloca(x, t)]) && AllHarmless([Fir.Store(x, t, a)])
    ensures AllHarmless([Alloca(x, t), Fir.Store(x, t, a)])
  {
  }

  lemma ReturnHarmless(cx: Ctx, g: Gen, val: Option<Expr>)
    requires |g.blocks| > 0 && BlocksHarmless(g.blocks) && StmtLits(cx, Bare(g.vars), Return(val))
    ensures BlocksHarmless(EmitReturn(cx, g, val).blocks)
  {
    hide AllHarmless, BlocksHarmless, Emit, EmitExpr, Coerce, Lits, Fits, Harmless, Place, Label;
    if val.None? || cx.ret.None? {
      HarmlessKinds(RetVoid);
      HarmlessOne(RetVoid);
      EmitHarmless(g, [RetVoid]);
      var h := Emit(g, [RetVoid]);
      PlaceHarmless(h, Label(Dead, h.lbl));
    } else {
      var v := EmitExpr(cx, g.vars, val.value, g.tmp);
      var c := Coerce(v.op, v.ty, cx.ret.value, v.tmp);
      var i := Ret(cx.ret.value, c.op);
      ToTypeHarmless(cx, g.vars, val.value, cx.ret.value, g.tmp);
      HarmlessKinds(i);
      HarmlessOne(i);
      HarmlessThen(v.instrs + c.instrs, [i]);
      var h := Straight(g, c.(instrs := v.instrs + c.instrs + [i]));
      EmitHarmless(g, v.instrs + c.instrs + [i]);
      PlaceHarmless(h, Label(Dead, h.lbl));
    }
  }

  lemma LeaveHarmless(g: Gen, target: Option<string>, k: Kind)
    requires |g.blocks| > 0 && BlocksHarmless(g.blocks)
    ensures BlocksHarmless(EmitLeave(g, target, k).blocks)
  {
    hide AllHarmless, BlocksHarmless, Emit, Harmless, Place, Label;
    var t := if target.Some? then Br(target.value) else Unreachable;
    HarmlessKinds(t);
    HarmlessOne(t);
    EmitHarmless(g, [t]);
    PlaceHarmless(Emit(g, [t]), Label(k, g.lbl));
  }

  // ----- all statements -----

  lemma StmtLitsMeaning(cx: Ctx, vars: seq<VarEntry>, s: Stmt)
    requires StmtLits(cx, vars, s)
    ensures Shaped(s)
    ensures s.Do? ==> EffectLits(cx, vars, s.eff)
    ensures s.If? ==> Lits(cx, s.cond) && AllLits(cx, vars, s.thn) && (s.els.Some? ==> StmtLits(cx, vars, s.els.value))
    ensures s.While? || s.DoWhile? ==> Lits(cx, s.cond) && AllLits(cx, vars, s.body)
    ensures s.Match? ==> Lits(cx, s.e) && ArmsLits(cx, vars, s.arms)
    ensures s.Scope? ==> AllLits(cx, vars, s.body)
    ensures s.ForC? ==>
      var v := FirstRead(cx, vars, s.first);
      && (s.first.Some? ==> StmtLits(cx, vars, s.first.value)) && (s.test.Some? ==> Lits(cx, s.test.value))
      && (s.step.Some? ==> EffectLits(cx, v, s.step.value)) && AllLits(cx, v, s.body)
  {
    hide EffectLits, Lits, FirstRead, Fits;
  }

  lemma {:induction false} VarsStep(cx: Ctx, g: Gen, s: Stmt)
    requires |g.blocks| > 0 && Open(g) && Shaped(s)
    ensures Bare(EmitStmt(cx, g, s).vars) == ReadAfter(cx, Bare(g.vars), s)
  {
    hide Emit, EmitExpr, SlotName, Coerce, Open, Grows, ReadBack, DeclCode, DeclSlot;
    if s.Decl? {
      if s.init.Some? {
        ReadBackCode(cx, g.vars, s.init.value, g.tmp);
        BareRead(cx, g.vars, s.init.value);
      }
      BareEnter(g.vars, DeclEntry(cx, g.vars, s.x, s.ty, s.init, g.tmp));
    } else {
      StmtGrows(cx, g, s);
    }
  }

  lemma BareEnter(vars: seq<VarEntry>, e: VarEntry)
    ensures Bare(Enter(vars, e)) == Enter(Bare(vars), e.(slot := ""))
  {
    assert |Bare(Enter(vars, e))| == |Enter(Bare(vars), e.(slot := ""))|;
  }

  lemma ScopeHarmless(cx: Ctx, g: Gen, ss: Stmts)
    requires |g.blocks| > 0 && Open(g) && BlocksHarmless(g.blocks) && AllLits(cx, Bare(g.vars), ss)
    ensures BlocksHarmless(EmitScope(cx, g, ss).blocks)
    decreases ss, 1
  {
    hide BlocksHarmless, AllLits, EmitStmts, Open;
    SamePosition(g, ScopePush(g));
    StmtsHarmless(cx, ScopePush(g), ss);
  }

  lemma StmtsHarmless(cx: Ctx, g: Gen, ss: Stmts)
    requires |g.blocks| > 0 && Open(g) && BlocksHarmless(g.blocks) && AllLits(cx, Bare(g.vars), ss)
    ensures BlocksHarmless(EmitStmts(cx, g, ss).blocks)
    decreases ss, 0
  {
    hide BlocksHarmless, StmtLits, EmitStmt, Open, Grows;
    match ss
    case NoStmts =>
    case MoreStmts(s, rest) =>
      StmtHarmless(cx, g, s);
      StmtGrows(cx, g, s);
      StmtLitsMeaning(cx, Bare(g.vars), s);
      VarsStep(cx, g, s);
      StmtsHarmless(cx, EmitStmt(cx, g, s), rest);
  }

  lemma StmtHarmless(cx: Ctx, g: Gen, s: Stmt)
    requires |g.blocks| > 0 && Open(g) && BlocksHarmless(g.blocks) && StmtLits(cx, Bare(g.vars), s)
    ensures BlocksHarmless(EmitStmt(cx, g, s).blocks)
    decreases s, 1
  {
    hide *;
    StmtDefs(cx, g, s);
    StmtLitsMeaning(cx, Bare(g.vars), s);
    match s
    case Decl(x, ty, init, mut) => DeclHarmless(cx, g, x, ty, init, mut);
    case Do(eff) =>
      BareEffect(cx, g.vars, eff);
      EffectHarmless(cx, g.vars, eff, g.tmp);
      StraightHarmless(g, EmitEffect(cx, g.vars, eff, g.tmp));
    case Return(val) => ReturnHarmless(cx, g, val);
    case If(_, _, _) => IfHarmless(cx, g, s);
    case While(_, _) => WhileHarmless(cx, g, s);
    case DoWhile(_, _) => DoHarmless(cx, g, s);
    case ForC(_, _, _, _) => ForHarmless(cx, g, s);
    case Match(e, arms) => MatchHarmless(cx, g, e, arms);
    case Break => LeaveHarmless(g, g.brk, Brkd);
    case Continue => LeaveHarmless(g, g.cont, Cntd);
    case Scope(body) => ScopeHarmless(cx, g, body);
  }

  lemma BodyHarmless(cx: Ctx, r: Gen, l: string, body: Stmts, t: string)
    requires BlocksHarmless(r.blocks) && AllLits(cx, Bare(r.vars), body)
    ensures BlocksHarmless(BrTo(EmitScope(cx, Place(r, l), body), t).blocks)
    decreases body, 2
  {
    hide *;
    PlaceHarmless(r, l);
    PlaceGrows(r, l);
    ScopeHarmless(cx, Place(r, l), body);
    BrToHarmless(EmitScope(cx, Place(r, l), body), t);
  }

  lemma IfHarmless(cx: Ctx, g: Gen, s: Stmt)
    requires |g.blocks| > 0 && s.If? && BlocksHarmless(g.blocks) && StmtLits(cx, Bare(g.vars), s)
    ensures BlocksHarmless(EmitIf(cx, g, s).blocks)
    decreases s, 0
  {
    hide *;
    var tl, fl, ml := Label(IfT, g.lbl), Label(IfF, g.lbl + 1), Label(IfM, g.lbl + 2);
    StmtLitsMeaning(cx, Bare(g.vars), s);
    IfDefs(cx, g, s);
    IfGrows(cx, g, s);
    BranchHarmless(cx, g.(lbl := g.lbl + 3), s.cond, tl, if s.els.Some? then fl else ml);
    BodyHarmless(cx, IfTest(cx, g, s), tl, s.thn, ml);
    var b := IfThen(cx, g, s);
    if s.els.Some? {
      PlaceHarmless(b, fl);
      PlaceGrows(b, fl);
      StmtHarmless(cx, Place(b, fl), s.els.value);
      BrToHarmless(EmitStmt(cx, Place(b, fl), s.els.value), ml);
    }
    PlaceHarmless(IfElse(cx, g, s), ml);
  }

  lemma WhileHarmless(cx: Ctx, g: Gen, s: Stmt)
    requires |g.blocks| > 0 && s.While? && BlocksHarmless(g.blocks) && StmtLits(cx, Bare(g.vars), s)
    ensures BlocksHarmless(EmitWhile(cx, g, s).blocks)
    decreases s, 0
  {
    hide *;
    var hl, bl, el := Label(Wh, g.lbl), Label(Wb, g.lbl + 1), Label(We, g.lbl + 2);
    StmtLitsMeaning(cx, Bare(g.vars), s);
    WhileDefs(cx, g, s);
    WhileGrows(cx, g, s);
    var h := g.(lbl := g.lbl + 3, brk := Some(el), cont := Some(hl));
    BrToHarmless(h, hl);
    PlaceHarmless(BrTo(h, hl), hl);
    LowerCorrect.HeadBuilt(g);
    BranchHarmless(cx, WhileHead(g), s.cond, bl, el);
    BodyHarmless(cx, WhileTest(cx, g, s), bl, s.body, hl);
    PlaceHarmless(WhileBody(cx, g, s), el);
  }

  lemma DoHarmless(cx: Ctx, g: Gen, s: Stmt)
    requires |g.blocks| > 0 && s.DoWhile? && BlocksHarmless(g.blocks) && StmtLits(cx, Bare(g.vars), s)
    ensures BlocksHarmless(EmitDoWhile(cx, g, s).blocks)
    decreases s, 0
  {
    hide *;
    var bl, hl, el := Label(Dw, g.lbl), Label(Dwh, g.lbl + 1), Label(Dwe, g.lbl + 2);
    StmtLitsMeaning(cx, Bare(g.vars), s);
    DoDefs(cx, g, s);
    DoGrows(cx, g, s);
    var h := g.(lbl := g.lbl + 3, brk := Some(el), cont := Some(hl));
    BrToHarmless(h, bl);
    BodyHarmless(cx, DoStart(g), bl, s.body, hl);
    var b := DoBody(cx, g, s);
    PlaceHarmless(b, hl);
    PlaceGrows(b, hl);
    LowerCorrect.Placed(b, hl);
    BranchHarmless(cx, Place(b, hl), s.cond, bl, el);
    PlaceHarmless(DoTest(cx, g, s), el);
  }

  lemma ForHarmless(cx: Ctx, g: Gen, s: Stmt)
    requires |g.blocks| > 0 && s.ForC? && Open(g) && BlocksHarmless(g.blocks) && StmtLits(cx, Bare(g.vars), s)
    ensures BlocksHarmless(EmitFor(cx, g, s).blocks)
    decreases s, 0
  {
    hide *;
    var hl, bl, sl, el := Label(Fh, g.lbl), Label(Fb, g.lbl + 1), Label(Fs, g.lbl + 2), Label(Fe, g.lbl + 3);
    StmtLitsMeaning(cx, Bare(g.vars), s);
    ForDefs(cx, g, s);
    ForGrows(cx, g, s);
    ScopeDefs(g);
    ForFirstHarmless(cx, g, s);
    var i, a, b, d := ForFirst(cx, g, s), ForHead(cx, g, s), ForTest(cx, g, s), ForStep(cx, g, s);
    BrToHarmless(i, hl);
    PlaceHarmless(BrTo(i, hl), hl);
    LowerCorrect.Placed(BrTo(i, hl), hl);
    if s.test.Some? {
      BranchHarmless(cx, a, s.test.value, bl, el);
    } else {
      HarmlessKinds(Br(bl));
      HarmlessOne(Br(bl));
      EmitHarmless(a, [Br(bl)]);
    }
    BodyHarmless(cx, b, bl, s.body, sl);
    PlaceHarmless(ForBody(cx, g, s), sl);
    PlaceGrows(ForBody(cx, g, s), sl);
    var h := Place(ForBody(cx, g, s), sl);
    LowerCorrect.Placed(ForBody(cx, g, s), sl);
    if s.step.Some? {
      BareEffect(cx, h.vars, s.step.value);
      EffectHarmless(cx, h.vars, s.step.value, h.tmp);
      StraightHarmless(h, EmitEffect(cx, h.vars, s.step.value, h.tmp));
    }
    BrToHarmless(d, hl);
    PlaceHarmless(BrTo(d, hl), el);
    ScopeDefs(Place(BrTo(d, hl), el));
  }

  lemma ForFirstHarmless(cx: Ctx, g: Gen, s: Stmt)
    requires |g.blocks| > 0 && s.ForC? && Open(g) && BlocksHarmless(g.blocks) && StmtLits(cx, Bare(g.vars), s)
    ensures BlocksHarmless(ForFirst(cx, g, s).blocks)
    ensures Bare(ForFirst(cx, g, s).vars) == FirstRead(cx, Bare(g.vars), s.first)
    decreases s, 0, 0
  {
    hide *;
    StmtLitsMeaning(cx, Bare(g.vars), s);
    FirstReadDef(cx, Bare(g.vars), s.first);
    ForDefs(cx, g, s);
    ScopeDefs(g);
    var h := ForEnter(g);
    SamePosition(g, h);
    if s.first.Some? {
      StmtHarmless(cx, h, s.first.value);
      StmtLitsMeaning(cx, Bare(g.vars), s.first.value);
      VarsStep(cx, h, s.first.value);
    }
  }

  lemma FirstReadDef(cx: Ctx, vars: seq<VarEntry>, first: Option<Stmt>)
    ensures FirstRead(cx, vars, first) == if first.Some? then ReadAfter(cx, vars, first.value) else vars
  {
    hide ReadAfter;
  }

  lemma ArmHarmless(cx: Ctx, r: Gen, l: string, body: Stmt, el: string)
    requires |r.blocks| > 0 && BlocksHarmless(r.blocks) && StmtLits(cx, Bare(r.vars), body)
    ensures BlocksHarmless(EmitArm(cx, r, l, body, el).blocks)
    decreases body, 2
  {
    hide *;
    ArmDef(cx, r, l, body, el);
    PlaceHarmless(r, l);
    PlaceGrows(r, l);
    var p := ScopePush(Place(r, l));
    ScopeDefs(Place(r, l));
    SamePosition(Place(r, l), p);
    StmtHarmless(cx, p, body);
    ScopeDefs(EmitStmt(cx, p, body));
    BrToHarmless(ScopePop(EmitStmt(cx, p, body)), el);
  }

  lemma PatternHarmless(p: Pattern, x: Operand, t: Ty, tmp: nat)
    requires !p.Wildcard?
    ensures AllHarmless(EmitPattern(p, x, t, tmp).instrs) && EmitPattern(p, x, t, tmp).op.Reg?
  {
    hide TempName;
  }

  lemma ClosingHarmless(c: Code, l: string, nl: string)
    requires AllHarmless(c.instrs) && c.op.Reg?
    ensures AllHarmless(c.instrs + [BrCond(c.op, l, nl)])
  {
  }

  lemma ArmsHarmless(cx: Ctx, r: Gen, x: Operand, t: Ty, arms: Arms, first: nat, el: string)
    requires |r.blocks| > 0 && BlocksHarmless(r.blocks) && ArmsLits(cx, Bare(r.vars), arms)
    ensures BlocksHarmless(EmitArms(cx, r, x, t, arms, first, el).blocks)
    decreases arms, 0
  {
    hide *;
    ArmsDef(cx, r, x, t, arms, first, el);
    match arms
    case NoArms =>
    case MoreArms(p, body, rest) =>
      ArmLitsMeaning(cx, Bare(r.vars), p, body, rest);
      ArmNextGrows(cx, r, x, t, arms, first, el);
      var l := Label(Marm, first);
      if p.Wildcard? {
        HarmlessKinds(Br(l));
        HarmlessOne(Br(l));
        EmitHarmless(r, [Br(l)]);
        ArmHarmless(cx, Emit(r, [Br(l)]), l, body, el);
      } else {
        var c, nl := EmitPattern(p, x, t, r.tmp), Label(Mcnext, r.lbl);
        TestedDef(cx, r, x, t, p, body, l, el);
        PatternHarmless(p, x, t, r.tmp);
        ClosingHarmless(c, l, nl);
        StraightHarmless(r.(lbl := r.lbl + 1), c.(instrs := c.instrs + [BrCond(c.op, l, nl)]));
        ArmHarmless(cx, ArmTest(r, x, t, p, l), l, body, el);
        PlaceHarmless(EmitArm(cx, ArmTest(r, x, t, p, l), l, body, el), nl);
      }
      ArmsHarmless(cx, ArmNext(cx, r, x, t, arms, first, el), x, t, rest, first + 1, el);
  }

  lemma ArmLitsMeaning(cx: Ctx, vars: seq<VarEntry>, p: Pattern, body: Stmt, rest: Arms)
    requires ArmsLits(cx, vars, MoreArms(p, body, rest))
    ensures StmtLits(cx, vars, body) && ArmsLits(cx, vars, rest)
  {
    hide StmtLits;
  }

  lemma MatchHarmless(cx: Ctx, g: Gen, e: Expr, arms: Arms)
    requires |g.blocks| > 0 && BlocksHarmless(g.blocks) && Lits(cx, e) && ArmsLits(cx, Bare(g.vars), arms)
    ensures BlocksHarmless(EmitMatch(cx, g, e, arms).blocks)
    decreases arms, 1
  {
    hide *;
    var v, el := EmitExpr(cx, g.vars, e, g.tmp), Label(Mend, g.lbl);
    MatchDefs(cx, g, e, arms);
    MatchGrows(cx, g, e, arms);
    ExprHarmless(cx, g.vars, e, g.tmp);
    StraightHarmless(g.(lbl := g.lbl + 1 + ArmCount(arms)), v);
    var a := MatchStart(cx, g, e, arms);
    ArmsHarmless(cx, a, v.op, v.ty, arms, g.lbl + 1, el);
    var b := EmitArms(cx, a, v.op, v.ty, arms, g.lbl + 1, el);
    BrToHarmless(b, el);
    PlaceHarmless(BrTo(b, el), el);
  }

  // ----- functions -----

  predicate FnLits(cx: Ctx, ps: seq<Param>, body: Stmts) {
    AllLits(cx, Bare(ParamVars(ps)), body)
  }

  lemma {:induction false} ParamsHarmless(g: Gen, ps: seq<Param>)
    requires |g.blocks| > 0 && BlocksHarmless(g.blocks)
    ensures BlocksHarmless(EmitParams(g, ps).blocks)
    decreases |ps|
  {
    hide *;
    if ps == [] {
      ParamsNone(g);
    } else {
      var k := |ps| - 1;
      ParamsHarmless(g, ps[..k]);
      ParamsDef(g, ps);
      var h := EmitParams(g, ps[..k]);
      ParamCodeDef(ps[k]);
      SlotHarmless(SlotName(ps[k].name), ps[k].ty, Reg(ArgName(ps[k].name)));
      EmitHarmless(h, ParamCode(ps[k]));
    }
  }

  lemma ParamCodeDef(q: Param)
    ensures ParamCode(q) == [Alloca(SlotName(q.name), q.ty), Fir.Store(SlotName(q.name), q.ty, Reg(ArgName(q.name)))]
  {
  }

  lemma StartHarmless(tmp: nat, lbl: nat)
    ensures BlocksHarmless(FnStart(tmp, lbl).blocks)
  {
  }

  /** With such literals, everything the optimiser does to the function is right. */
  lemma {:induction false} FnOptSafe(cx: Ctx, ps: seq<Param>, body: Stmts, tmp: nat, lbl: nat)
    requires FnLits(cx, ps, body)
    ensures Passes.OptSafe(EmitFn(cx, ps, body, tmp, lbl).blocks)
  {
    hide *;
    FnLitsMeaning(cx, ps, body);
    var g0, p := FnStart(tmp, lbl), EmitParams(FnStart(tmp, lbl), ps);
    StartHarmless(tmp, lbl);
    StartDef(tmp, lbl, map[]);
    StartDef(0, 0, map[]);
    SameParamVars(g0, FnStart(0, 0), ps);
    ParamsHarmless(g0, ps);
    FnFinal(cx, ps, body, tmp, lbl);
    ScopeHarmless(cx, p, body);
    FallHarmless(cx);
    EmitHarmless(FnBody(cx, ps, body, tmp, lbl), [FallOff(cx)]);
    HarmlessSafe(EmitFn(cx, ps, body, tmp, lbl).blocks);
  }

  lemma FnLitsMeaning(cx: Ctx, ps: seq<Param>, body: Stmts)
    requires FnLits(cx, ps, body)
    ensures AllLits(cx, Bare(EmitParams(FnStart(0, 0), ps).vars), body)
  {
    hide AllLits, EmitParams;
  }

  lemma FallHarmless(cx: Ctx)
    ensures AllHarmless([FallOff(cx)])
  {
  }

  lemma HarmlessSafe(f: seq<Block>)
    requires BlocksHarmless(f)
    ensures Passes.OptSafe(f)
  {
    hide Folding.FoldInstrSafe, Passes.ConvSafe;
    forall b, k | 0 <= b < |f| && 0 <= k < |f[b].instrs|
      ensures Passes.InstrSafe(f, f[b].instrs[k])
    {
      assert AllHarmless(f[b].instrs);
      assert Harmless(f[b].instrs[k]);
    }
  }
}
