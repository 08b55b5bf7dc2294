/** Where the type that the generator reads back is asked for, and when it gives the right code there. The
    generator's own table goes along beside the static one. */
module TypeLoss {
  import opened Words
  import opened Fir
  import opened Source
  import opened Lower
  import opened Typing
  import opened LowerFn
  import opened LowerSafe

  // ----- right at each place -----

  /** An operand, a pattern's subject, an argument no parameter is declared for, an inferred declaration: the
      type itself is used. */
  predicate Own(cx: Ctx, vars: seq<VarEntry>, built: seq<VarEntry>, e: Expr) {
    ReadBack(cx, built, e) == TypeOf(cx, vars, e)
  }

  /** A value is brought to type `t`: by the same instructions, to the same operand. */
  ghost predicate Brought(cx: Ctx, vars: seq<VarEntry>, built: seq<VarEntry>, e: Expr, t: Ty) {
    SameCode(ReadBack(cx, built, e), TypeOf(cx, vars, e), t)
  }

  ghost predicate SameCode(read: Ty, own: Ty, t: Ty) {
    forall x: Operand, n: nat ::
      Coerce(x, read, t, n).instrs == Coerce(x, own, t, n).instrs && Coerce(x, read, t, n).op == Coerce(x, own, t, n).op
  }

  ghost predicate RightExpr(cx: Ctx, vars: seq<VarEntry>, built: seq<VarEntry>, e: Expr)
    decreases e
  {
    match e
    case Unary(p, e1) => RightExpr(cx, vars, built, e1) && (p.LogicalNot? || Own(cx, vars, built, e1))
    case Binary(_, l, r) =>
      && RightExpr(cx, vars, built, l) && Own(cx, vars, built, l)
      && RightExpr(cx, vars, built, r) && Own(cx, vars, built, r)
    case CallFn(fn, args) => RightArgs(cx, vars, built, args, SigOf(cx, fn).params)
    case _ => true
  }

  ghost predicate RightArgs(cx: Ctx, vars: seq<VarEntry>, built: seq<VarEntry>, args: Exprs, params: seq<IntTy>)
    decreases args
  {
    match args
    case NoExprs => true
    case MoreExprs(e, rest) =>
      && RightExpr(cx, vars, built, e)
      && (if params == [] then Own(cx, vars, built, e) else Brought(cx, vars, built, e, params[0]))
      && RightArgs(cx, vars, built, rest, if params == [] then [] else params[1..])
  }

  ghost predicate RightEffect(cx: Ctx, vars: seq<VarEntry>, built: seq<VarEntry>, eff: Effect) {
    match eff
    case Assign(x, e) =>
      && RightExpr(cx, vars, built, e)
      && (VarLookup(built, x).Some? ==> Brought(cx, vars, built, e, AssignType(cx, built, x)))
    case Compound(_, x, e) =>
      && (VarLookup(built, x).None? ==> Own(cx, vars, built, Var(x)))
      && RightExpr(cx, vars, built, e) && Brought(cx, vars, built, e, AssignType(cx, built, x))
    case Increment(x) => Own(cx, vars, built, Var(x))
    case Decrement(x) => Own(cx, vars, built, Var(x))
    case Eval(e) => RightExpr(cx, vars, built, e)
  }

  ghost predicate RightTest(cx: Ctx, vars: seq<VarEntry>, built: seq<VarEntry>, e: Expr) {
    RightExpr(cx, vars, built, e) && Brought(cx, vars, built, e, I1)
  }

  ghost predicate RightStmt(cx: Ctx, vars: seq<VarEntry>, built: seq<VarEntry>, s: Stmt)
    decreases s, 0
  {
    match s
    case Decl(_, ty, init, _) =>
      init.Some? ==>
        && RightExpr(cx, vars, built, init.value)
        && if ty.Some? then Brought(cx, vars, built, init.value, ty.value) else Own(cx, vars, built, init.value)
    case Do(eff) => RightEffect(cx, vars, built, eff)
    case Return(val) =>
      val.Some? && cx.ret.Some? ==>
        RightExpr(cx, vars, built, val.value) && Brought(cx, vars, built, val.value, cx.ret.value)
    case If(c, thn, els) =>
      && RightTest(cx, vars, built, c) && RightAll(cx, vars, built, thn)
      && (els.Some? ==> RightStmt(cx, vars, built, els.value))
    case While(c, body) => RightTest(cx, vars, built, c) && RightAll(cx, vars, built, body)
    case DoWhile(body, c) => RightTest(cx, vars, built, c) && RightAll(cx, vars, built, body)
    case ForC(first, test, step, body) =>
      var v, r := FirstVars(cx, vars, first), FirstRead(cx, built, first);
      && (first.Some? ==> RightStmt(cx, vars, built, first.value)) && (test.Some? ==> RightTest(cx, v, r, test.value))
      && (step.Some? ==> RightEffect(cx, v, r, step.value)) && RightAll(cx, v, r, body)
    case Match(e, arms) =>
      RightExpr(cx, vars, built, e) && Own(cx, vars, built, e) && RightArms(cx, vars, built, arms)
    case Scope(body) => RightAll(cx, vars, built, body)
    case _ => true
  }

  ghost predicate RightAll(cx: Ctx, vars: seq<VarEntry>, built: seq<VarEntry>, ss: Stmts)
    decreases ss, 0
  {
    match ss
    case NoStmts => true
    case MoreStmts(s, rest) =>
      RightStmt(cx, vars, built, s) && RightAll(cx, VarsAfter(cx, vars, s), ReadAfter(cx, built, s), rest)
  }

  ghost predicate RightArms(cx: Ctx, vars: seq<VarEntry>, built: seq<VarEntry>, arms: Arms)
    decreases arms, 0
  {
    match arms
    case NoArms => true
    case MoreArms(_, body, rest) => RightStmt(cx, vars, built, body) && RightArms(cx, vars, built, rest)
  }

  // ----- exactly then -----

  /** Any two types bring a value to `t` alike if and only if they are one type, or one is a pointer and the
      other is `t`. */
  lemma {:induction false} CoerceExact(read: Ty, own: IntTy, t: IntTy)
    ensures SameCode(read, own, t) <==> read == own || (read == Ptr && own == t)
  {
    hide TempName;
    if SameCode(read, own, t) {
      assert Coerce(Lit(0), read, t, 0).instrs == Coerce(Lit(0), own, t, 0).instrs;
    }
  }

  /** Tables alike but for the slots, all of integers. */
  predicate Alike(vars: seq<VarEntry>, built: seq<VarEntry>) {
    Integers(vars) && built == Bare(vars)
  }

  /** At each place: its type is read back, or it is lost. */
  lemma {:induction false} PlaceExact(cx: Ctx, vars: seq<VarEntry>, built: seq<VarEntry>, e: Expr)
    requires Alike(vars, built) && Kept(cx, vars, e)
    ensures Own(cx, vars, built, e) <==> !Lost(cx, vars, e)
    ensures forall t: IntTy :: Brought(cx, vars, built, e, t) <==> (Lost(cx, vars, e) ==> TypeOf(cx, vars, e) == t)
  {
    hide Kept, Lost, TypeOf, ReadBack, SameCode, Bare;
    BareRead(cx, vars, e);
    KeptRead(cx, vars, e);
    StaticInt(cx, vars, e);
    forall t: IntTy
      ensures Brought(cx, vars, built, e, t) <==> (Lost(cx, vars, e) ==> TypeOf(cx, vars, e) == t)
    {
      CoerceExact(ReadBack(cx, built, e), TypeOf(cx, vars, e), t);
    }
  }

  lemma {:induction false} ExprExact(cx: Ctx, vars: seq<VarEntry>, built: seq<VarEntry>, e: Expr)
    requires Alike(vars, built)
    ensures RightExpr(cx, vars, built, e) <==> Kept(cx, vars, e)
    decreases e, 0
  {
    hide Alike, Own, Lost;
    match e
    case Unary(_, e1) => OperandExact(cx, vars, built, e1);
    case Binary(_, l, r) =>
      OperandExact(cx, vars, built, l);
      OperandExact(cx, vars, built, r);
    case CallFn(fn, args) => ArgsExact(cx, vars, built, args, SigOf(cx, fn).params);
    case _ =>
  }

  lemma {:induction false} OperandExact(cx: Ctx, vars: seq<VarEntry>, built: seq<VarEntry>, e: Expr)
    requires Alike(vars, built)
    ensures RightExpr(cx, vars, built, e) <==> Kept(cx, vars, e)
    ensures RightExpr(cx, vars, built, e) && Own(cx, vars, built, e) <==> Typed(cx, vars, e)
    ensures
      forall t: IntTy :: RightExpr(cx, vars, built, e) && Brought(cx, vars, built, e, t) <==> Suits(cx, vars, e, t)
    decreases e, 1
  {
    hide Alike, Own, Lost, RightExpr, Kept, Brought;
    ExprExact(cx, vars, built, e);
    if Kept(cx, vars, e) { PlaceExact(cx, vars, built, e); }
  }

  lemma {:induction false} ArgsExact(cx: Ctx, vars: seq<VarEntry>, built: seq<VarEntry>, args: Exprs,
                                     params: seq<IntTy>)
    requires Alike(vars, built)
    ensures RightArgs(cx, vars, built, args, params) <==> KeptArgs(cx, vars, args, params)
    decreases args
  {
    hide Alike, Own, RightExpr, Brought, Typed, Suits;
    match args
    case NoExprs =>
    case MoreExprs(e, rest) =>
      OperandExact(cx, vars, built, e);
      ArgsExact(cx, vars, built, rest, if params == [] then [] else params[1..]);
  }

  /** No condition's type is lost. */
  lemma {:induction false} TestExact(cx: Ctx, vars: seq<VarEntry>, built: seq<VarEntry>, e: Expr)
    requires Alike(vars, built)
    ensures RightTest(cx, vars, built, e) <==> Typed(cx, vars, e)
  {
    hide Alike, RightExpr, Brought, Kept, Lost;
    OperandExact(cx, vars, built, e);
    LostWide(cx, vars, e);
  }

  lemma {:induction false} LostWide(cx: Ctx, vars: seq<VarEntry>, e: Expr)
    ensures Lost(cx, vars, e) ==> TypeOf(cx, vars, e) != I1
  {
  }

  /** What is assigned to has one type in both tables. */
  lemma {:induction false} TargetExact(cx: Ctx, vars: seq<VarEntry>, built: seq<VarEntry>, x: string)
    requires Alike(vars, built)
    ensures VarLookup(built, x) == VarLookup(vars, x) && TargetType(cx, vars, x) != Ptr
    ensures
      VarLookup(vars, x).Some? || Typed(cx, vars, Var(x)) ==> AssignType(cx, built, x) == TargetType(cx, vars, x)
  {
    hide Kept, Lost, ReadBack;
    BareLookup(vars, x);
    BareRead(cx, vars, Var(x));
    StaticInt(cx, vars, Var(x));
    if Typed(cx, vars, Var(x)) { KeptRead(cx, vars, Var(x)); }
  }

  lemma {:induction false} EffectExact(cx: Ctx, vars: seq<VarEntry>, built: seq<VarEntry>, eff: Effect)
    requires Alike(vars, built)
    ensures RightEffect(cx, vars, built, eff) <==> KeptEffect(cx, vars, eff)
  {
    hide Alike, Own, RightExpr, Brought, Typed, Suits, Kept, AssignType, TargetType;
    if !eff.Eval? {
      TargetExact(cx, vars, built, eff.x);
      NameExact(cx, vars, built, eff.x);
    }
    if eff.Assign? || eff.Compound? || eff.Eval? { OperandExact(cx, vars, built, eff.e); }
  }

  lemma {:induction false} NameExact(cx: Ctx, vars: seq<VarEntry>, built: seq<VarEntry>, x: string)
    requires Alike(vars, built)
    ensures Own(cx, vars, built, Var(x)) <==> Typed(cx, vars, Var(x))
  {
    hide Alike, Own, Lost;
    OperandExact(cx, vars, built, Var(x));
  }

  /** A right declaration keeps the tables alike. */
  lemma {:induction false} AfterAlike(cx: Ctx, vars: seq<VarEntry>, built: seq<VarEntry>, s: Stmt)
    requires Alike(vars, built) && RightStmt(cx, vars, built, s)
    ensures Alike(VarsAfter(cx, vars, s), ReadAfter(cx, built, s))
  {
    hide RightExpr, Brought, RightEffect, RightTest, ReadBack, TypeOf, SlotName, Bare;
    if s.Decl? && !Discarded(s.x, s.ty, s.init) {
      var t := if s.ty.Some? then s.ty.value else if s.init.None? then I32 else TypeOf(cx, vars, s.init.value);
      if s.init.Some? { StaticInt(cx, vars, s.init.value); }
      BareEnter(vars, VarEntry(s.x, t, SlotName(s.x)));
    }
  }

  lemma {:induction false} FirstAlike(cx: Ctx, vars: seq<VarEntry>, built: seq<VarEntry>, first: Option<Stmt>)
    requires Alike(vars, built) && (first.Some? ==> RightStmt(cx, vars, built, first.value))
    ensures Alike(FirstVars(cx, vars, first), FirstRead(cx, built, first))
  {
    hide RightStmt, Alike, VarsAfter, ReadAfter;
    if first.Some? { AfterAlike(cx, vars, built, first.value); }
  }

  lemma {:induction false} StmtExact(cx: Ctx, vars: seq<VarEntry>, built: seq<VarEntry>, s: Stmt)
    requires Alike(vars, built)
    ensures RightStmt(cx, vars, built, s) <==> KeptStmt(cx, vars, s)
    decreases s, 0
  {
    hide Alike, Own, RightExpr, Brought, Typed, Suits, RightEffect, KeptEffect, RightTest, Kept, FirstVars, FirstRead;
    match s
    case Decl(_, _, init, _) => if init.Some? { OperandExact(cx, vars, built, init.value); }
    case Do(eff) => EffectExact(cx, vars, built, eff);
    case Return(val) => if val.Some? { OperandExact(cx, vars, built, val.value); }
    case If(c, thn, els) =>
      TestExact(cx, vars, built, c);
      AllExact(cx, vars, built, thn);
      if els.Some? { StmtExact(cx, vars, built, els.value); }
    case While(c, body) =>
      TestExact(cx, vars, built, c);
      AllExact(cx, vars, built, body);
    case DoWhile(body, c) =>
      TestExact(cx, vars, built, c);
      AllExact(cx, vars, built, body);
    case ForC(_, _, _, _) => ForExact(cx, vars, built, s);
    case Match(e, arms) =>
      OperandExact(cx, vars, built, e);
      ArmsExact(cx, vars, built, arms);
    case Scope(body) => AllExact(cx, vars, built, body);
    case _ =>
  }

  lemma {:induction false} ForExact(cx: Ctx, vars: seq<VarEntry>, built: seq<VarEntry>, s: Stmt)
    requires Alike(vars, built) && s.ForC?
    ensures RightStmt(cx, vars, built, s) <==> KeptStmt(cx, vars, s)
    decreases s, 0, 0
  {
    hide Alike, Own, RightExpr, Brought, Typed, Suits, RightEffect, KeptEffect, RightTest, Kept, FirstVars, FirstRead;
    if s.first.Some? { StmtExact(cx, vars, built, s.first.value); }
    if s.first.None? || RightStmt(cx, vars, built, s.first.value) {
      FirstAlike(cx, vars, built, s.first);
      var v, r := FirstVars(cx, vars, s.first), FirstRead(cx, built, s.first);
      if s.test.Some? { TestExact(cx, v, r, s.test.value); }
      if s.step.Some? { EffectExact(cx, v, r, s.step.value); }
      AllExact(cx, v, r, s.body);
    }
  }

  lemma {:induction false} AllExact(cx: Ctx, vars: seq<VarEntry>, built: seq<VarEntry>, ss: Stmts)
    requires Alike(vars, built)
    ensures RightAll(cx, vars, built, ss) <==> KeptAll(cx, vars, ss)
    decreases ss, 0
  {
    hide Alike, RightStmt, KeptStmt, VarsAfter, ReadAfter;
    match ss
    case NoStmts =>
    case MoreStmts(s, rest) =>
      StmtExact(cx, vars, built, s);
      if RightStmt(cx, vars, built, s) {
        AfterAlike(cx, vars, built, s);
        AllExact(cx, VarsAfter(cx, vars, s), ReadAfter(cx, built, s), rest);
      }
  }

  lemma {:induction false} ArmsExact(cx: Ctx, vars: seq<VarEntry>, built: seq<VarEntry>, arms: Arms)
    requires Alike(vars, built)
    ensures RightArms(cx, vars, built, arms) <==> KeptArms(cx, vars, arms)
    decreases arms, 0
  {
    hide Alike, RightStmt, KeptStmt;
    match arms
    case NoArms =>
    case MoreArms(_, body, rest) =>
      StmtExact(cx, vars, built, body);
      ArmsExact(cx, vars, built, rest);
  }

  /** For every function: what is read back gives the right code wherever it is asked for, in the whole body, if
      and only if the body keeps its types. */
  lemma {:induction false} BodyExact(cx: Ctx, ps: seq<Param>, body: Stmts)
    ensures RightAll(cx, ParamVars(ps), Bare(ParamVars(ps)), body) <==> KeptAll(cx, ParamVars(ps), body)
  {
    hide *;
    ParamsAlike(ps);
    AllExact(cx, ParamVars(ps), Bare(ParamVars(ps)), body);
  }

  lemma {:induction false} ParamsAlike(ps: seq<Param>)
    ensures Alike(ParamVars(ps), Bare(ParamVars(ps)))
    decreases |ps|
  {
    hide SlotName, ArgName, Emit;
    if ps != [] { ParamsAlike(ps[..|ps| - 1]); }
  }
}
