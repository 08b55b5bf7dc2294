/** What becomes of a sum whose left operand's type is lost, and of a discarded value that is read: the code
    that is built runs, and reads zero. */
module Losses {
  import opened Words
  import opened Decimal
  import opened Fir
  import opened Source
  import opened Lower
  import opened LowerFn
  import opened LowerExpr
  import opened Typing
  import opened Limits
  import Check
  import LowerCorrect

  // ----- a lost operand -----

  /** For every sum or difference whose left operand's type is lost: the right operand is not built, the code
      leaves null, and that reads as the meaning's value if and only if the value is zero. */
  lemma {:induction false} LostSum(cx: Ctx, w: World, op: BinOp, l: Expr, r: Expr, env: Env, vars: seq<VarEntry>,
                                   tmp: nat, s: State)
      returns (s': State)
    requires Rel(cx, env, vars, s.mem) && (op == Add || op == Sub) && Kept(cx, vars, l) && Plain(l) && Lost(cx, vars, l)
    requires EvalExpr(cx, w, Binary(Arith(op), l, r), env, s.trace).Val?
    ensures
      var c, v := EmitExpr(cx, vars, Binary(Arith(op), l, r), tmp),
          EvalExpr(cx, w, Binary(Arith(op), l, r), env, s.trace);
      && c.instrs == EmitExpr(cx, vars, l, tmp).instrs && c.op == Null && c.ty == Ptr
      && ExecCode(c.instrs, w, s) == Some(s') && s'.mem == s.mem
      && (Read(c.op, v.ty, s'.temps) == Some(v.v) <==> v.v == 0)
  {
    hide *;
    BinaryValue(cx, w, Arith(op), l, r, env, s.trace);
    ReadType(cx, w, l, env, vars, s.mem, s.trace, tmp);
    s' := ExprSim(cx, w, l, env, vars, tmp, s);
    EvaluatedParts(EmitExpr(cx, vars, l, tmp), EvalExpr(cx, w, l, env, s.trace), w, s, s', tmp);
    RanParts(EmitExpr(cx, vars, l, tmp).instrs, w, s, s', tmp);
    StepCode(cx, vars, op, l, r, tmp);
    NullReads(EvalExpr(cx, w, Binary(Arith(op), l, r), env, s.trace).ty, s'.temps);
  }

  /** Any other operator builds both operands. */
  lemma {:induction false} LostOther(cx: Ctx, vars: seq<VarEntry>, op: Operator, l: Expr, r: Expr, tmp: nat)
    requires EmitExpr(cx, vars, l, tmp).ty == Ptr && op != Arith(Add) && op != Arith(Sub)
    ensures
      var a, c := EmitExpr(cx, vars, l, tmp), EmitExpr(cx, vars, Binary(op, l, r), tmp);
      var b := EmitExpr(cx, vars, r, a.tmp);
      a.instrs + b.instrs <= c.instrs && |c.instrs| > |a.instrs| + |b.instrs|
  {
    hide EmitExpr;
    BinaryCode(cx, vars, op, l, r, tmp);
  }

  lemma {:induction false} RanParts(code: seq<Instr>, w: World, s: State, s': State, tmp: nat)
    requires Ran(code, w, s, s', tmp)
    ensures ExecCode(code, w, s) == Some(s') && s'.mem == s.mem
  {
  }

  lemma {:induction false} StepCode(cx: Ctx, vars: seq<VarEntry>, op: BinOp, l: Expr, r: Expr, tmp: nat)
    requires EmitExpr(cx, vars, l, tmp).ty == Ptr && (op == Add || op == Sub)
    ensures
      var a := EmitExpr(cx, vars, l, tmp);
      EmitExpr(cx, vars, Binary(Arith(op), l, r), tmp) == Code(a.instrs, Null, Ptr, a.tmp)
  {
  }

  lemma {:induction false} NullReads(t: IntTy, temps: map<string, int>)
    ensures Read(Null, t, temps) == Some(0)
  {
  }

  // ----- a discarded value -----

  /** In every state that the table describes, after a value is discarded: the meaning of its name is the value;
      the code built for it reads the variable that the name had before, or zero. It gives the value if and only
      if that is the value there is. */
  lemma {:induction false} DiscardExact(cx: Ctx, w: World, env: Env, vars: seq<VarEntry>, t: IntTy, v: int, tmp: nat,
                                        s: State)
      returns (s': State)
    requires Rel(cx, env, vars, s.mem) && InRange(t, v) && ConstFrom(cx.comptime, DISCARD).None?
    ensures
      var c, k := EmitExpr(cx, vars, Var(DISCARD), tmp), Lookup(env, DISCARD);
      && EvalExpr(cx, w, Var(DISCARD), env + [Binding(DISCARD, t, v)], s.trace) == Val(t, v, s.trace)
      && ExecCode(c.instrs, w, s) == Some(s') && s'.mem == s.mem && s'.trace == s.trace
      && (Read(c.op, t, s'.temps) == Some(v) <==>
            if k.Some? then Wrap(t, env[k.value].v) == v else v == 0 && DISCARD !in cx.sigs)
  {
    hide Wrap, TempName, SlotName;
    SameLookup(env, vars, DISCARD);
    Innermost(env, Binding(DISCARD, t, v));
    assert Wrap(t, 0) == 0 by { WrapIdentity(t, 0); }
    if Lookup(env, DISCARD).Some? {
      s' := VarSim(cx, w, DISCARD, env, vars, tmp, s);
      var b := env[Lookup(env, DISCARD).value];
      var i := Load(TempName(tmp), b.ty, SlotName(b.name));
      ExecOne(i, w, s);
      assert ExecInstr(i, w, s) == Some(s.(temps := s.temps[TempName(tmp) := b.v]));
    } else {
      s' := s;
    }
  }

  lemma {:induction false} Innermost(env: Env, b: Binding)
    ensures Lookup(env + [b], b.name) == Some(|env|)
  {
  }

  // ----- both, in whole functions -----

  lemma {:induction false} Emitted(cx: Ctx, body: Stmts, code: seq<Instr>)
    requires
      var g := EmitStmts(cx, ScopePush(FnStart(0, 0)), body);
      |g.blocks| > 0 && g.blocks[0].instrs == code
    ensures
      var f := EmitFn(cx, [], body, 0, 0).blocks;
      |f| > 0 && code <= f[0].instrs
  {
    hide EmitFn, EmitStmts, Open, FallOff;
    FnFinal(cx, [], body, 0, 0);
    assert EmitParams(FnStart(0, 0), []) == FnStart(0, 0);
    assert FnBody(cx, [], body, 0, 0).blocks == EmitStmts(cx, ScopePush(FnStart(0, 0)), body).blocks;
  }

  /** short x = 1; return x + 1; */
  function ShortSum(): Stmts {
    MoreStmts(Decl("x", Some(I16), Some(IntLit(1)), true),
    MoreStmts(Return(Some(Binary(Arith(Add), Var("x"), IntLit(1)))), NoStmts))
  }

  lemma {:induction false} SumMeans(w: World)
    ensures EvalExpr(HidingCtx(), w, ShortSum().tail.head.val.value, [Binding("x", I16, 1)], []) == Val(I32, 2, [])
  {
    var b := Binding("x", I16, 1);
    assert Lookup([b], "x") == Some(0);
    assert EvalExpr(HidingCtx(), w, Var("x"), [b], []) == Val(I16, 1, []);
    assert Wrap(I32, 1) == 1 && Wrap(I32, 2) == 2;
  }

  lemma {:induction false} ShortMeans(w: World)
    ensures Apply(HidingCtx(), w, [], ShortSum(), [], 0) == Result(Some(2), [])
  {
    var cx, ss, b := HidingCtx(), ShortSum(), Binding("x", I16, 1);
    assert Exec(cx, w, ss.head, [], [], 0) == Normal([b], []);
    SumMeans(w);
    assert Wrap(I32, 2) == 2;
    hide EvalExpr, Wrap;
    assert Exec(cx, w, ss.tail.head, [b], [], 0) == Returned(Some(2), []);
    assert ExecStmts(cx, w, ss.tail, [b], [], 0) == Returned(Some(2), []);
    assert ExecStmts(cx, w, ss, [], [], 0) == Returned(Some(2), []);
  }

  function ShortCode(): seq<Instr> {
    [Alloca("var.x", I16), Conv(Trunc, TempName(0), I16, I32, Lit(1)), Fir.Store("var.x", I16, Reg(TempName(0))),
     Load(TempName(1), I16, "var.x"), Ret(I32, Null)]
  }

  lemma {:induction false} ShortDeclared(g: Gen)
    requires g == ScopePush(FnStart(0, 0))
    ensures
      var r := EmitStmt(HidingCtx(), g, ShortSum().head);
      && |r.blocks| == 1 && r.blocks[0].instrs == ShortCode()[..3] && r.tmp == 1
      && r.vars == [VarEntry("x", I16, "var.x")]
  {
    hide TempName;
    SlotOfX();
    var a, b, c := [Alloca("var.x", I16)], [Conv(Trunc, TempName(0), I16, I32, Lit(1))],
      [Fir.Store("var.x", I16, Reg(TempName(0)))];
    assert [] + (a + [] + b + c) == ShortCode()[..3];
  }

  lemma {:induction false} ShortReturned(g: Gen)
    requires |g.blocks| == 1 && g.vars == [VarEntry("x", I16, "var.x")] && g.tmp == 1
    ensures
      var r := EmitStmt(HidingCtx(), g, ShortSum().tail.head);
      |r.blocks| == 2 && r.blocks[0].instrs == g.blocks[0].instrs + ShortCode()[3..]
  {
    hide TempName, Label;
    assert VarLookup(g.vars, "x") == Some(0);
    var e := ShortSum().tail.head.val.value;
    var l := [Load(TempName(1), I16, "var.x")];
    assert EmitExpr(HidingCtx(), g.vars, Var("x"), 1) == Code(l, Reg(TempName(1)), Ptr, 2);
    StepCode(HidingCtx(), g.vars, Add, Var("x"), IntLit(1), 1);
    hide EmitExpr;
    assert l + [] + [Ret(I32, Null)] == ShortCode()[3..];
  }

  lemma {:induction false} ShortParts()
    ensures |ShortCode()| == 5 && ShortCode()[..3] + ShortCode()[3..] == ShortCode()
  {
    hide TempName;
  }

  lemma {:induction false} ShortEmits()
    ensures
      var f := EmitFn(HidingCtx(), [], ShortSum(), 0, 0).blocks;
      |f| > 0 && ShortCode() <= f[0].instrs
  {
    hide EmitFn, EmitStmts, EmitStmt, ShortCode;
    var cx, ss := HidingCtx(), ShortSum();
    var g0 := ScopePush(FnStart(0, 0));
    var g1 := EmitStmt(cx, g0, ss.head);
    ShortDeclared(g0);
    ShortReturned(g1);
    StmtsCode(cx, g0, ss.head, ss.tail);
    StmtsCode(cx, g1, ss.tail.head, NoStmts);
    StmtsCode(cx, EmitStmt(cx, g1, ss.tail.head), ss.tail.head, NoStmts);
    ShortParts();
    Emitted(cx, ss, ShortCode());
  }

  /** The variable is read, and null is returned. */
  lemma {:induction false} ShortEnds(f: seq<Block>, w: World, s: State) returns (s': State)
    requires |f| > 0 && ShortCode() <= f[0].instrs && "var.x" in s.mem && s.mem["var.x"] == Cell(I16, Some(1))
    ensures Run(f, w, Running(0, 3, s), 2) == Done(Some(0), s')
  {
    hide TempName, Run;
    var code := ShortCode();
    assert f[0].instrs[3] == code[3] && f[0].instrs[4] == code[4];
    s' := s.(temps := s.temps[TempName(1) := 1]);
    LowerCorrect.RunNone(f, w, Done(Some(0), s'));
    OneStep(f, w, 4, s', 0, Done(Some(0), s'));
    OneStep(f, w, 3, s, 1, Done(Some(0), s'));
  }

  /** The literal is cut and stored. */
  lemma {:induction false} ShortStores(f: seq<Block>, w: World, s: State) returns (s': State)
    requires |f| > 0 && ShortCode() <= f[0].instrs && "var.x" in s.mem && s.mem["var.x"] == Cell(I16, None)
    ensures Run(f, w, Running(0, 1, s), 4) == Done(Some(0), s')
  {
    hide TempName, Run;
    var t, code := TempName(0), ShortCode();
    assert f[0].instrs[1] == code[1] && f[0].instrs[2] == code[2];
    assert Wrap(I16, 1) == 1 && Wrap(I32, 1) == 1;
    hide Wrap;
    var s2 := s.(temps := s.temps[t := 1]);
    var s3 := s2.(mem := s2.mem["var.x" := Cell(I16, Some(1))]);
    s' := ShortEnds(f, w, s3);
    OneStep(f, w, 2, s2, 2, Done(Some(0), s'));
    OneStep(f, w, 1, s, 3, Done(Some(0), s'));
  }

  lemma {:induction false} ShortRuns(f: seq<Block>, w: World)
    requires |f| > 0 && ShortCode() <= f[0].instrs
    ensures Run(f, w, Start(map[]), 5).Done? && Run(f, w, Start(map[]), 5).ret == Some(0)
  {
    hide TempName, Run;
    assert f[0].instrs[0] == ShortCode()[0];
    var s0 := State(map[], map[], []);
    var s' := ShortStores(f, w, s0.(mem := s0.mem["var.x" := Cell(I16, None)]));
    OneStep(f, w, 0, s0, 4, Done(Some(0), s'));
  }

  /** The source returns 2, and the translation, which has lost the type of `x`, returns 0. */
  lemma {:induction false} ShortOperand(w: World)
    ensures Apply(HidingCtx(), w, [], ShortSum(), [], 0) == Result(Some(2), [])
    ensures
      var c := Run(EmitFn(HidingCtx(), [], ShortSum(), 0, 0).blocks, w, Start(map[]), 5);
      c.Done? && c.ret == Some(0)
    ensures !KeptAll(HidingCtx(), [], ShortSum())
  {
    hide *;
    ShortLost();
    ShortMeans(w);
    ShortEmits();
    ShortRuns(EmitFn(HidingCtx(), [], ShortSum(), 0, 0).blocks, w);
  }

  lemma {:induction false} ShortLost()
    ensures !KeptAll(HidingCtx(), [], ShortSum())
  {
    var cx, ss := HidingCtx(), ShortSum();
    var vars := VarsAfter(cx, [], ss.head);
    assert VarLookup(vars, "x") == Some(0);
    assert Lost(cx, vars, Var("x"));
    assert !KeptStmt(cx, vars, ss.tail.head);
    assert !KeptAll(cx, vars, ss.tail);
  }

  /** let _ = 5; return _; */
  function Discard(): Stmts {
    MoreStmts(Decl("_", None, Some(IntLit(5)), false), MoreStmts(Return(Some(Var("_"))), NoStmts))
  }

  lemma {:induction false} DiscardMeans(w: World)
    ensures Apply(HidingCtx(), w, [], Discard(), [], 0) == Result(Some(5), [])
  {
    var cx, ss, b := HidingCtx(), Discard(), Binding("_", I32, 5);
    assert Wrap(I32, 5) == 5;
    assert Exec(cx, w, ss.head, [], [], 0) == Normal([b], []);
    assert Lookup([b], "_") == Some(0);
    assert Exec(cx, w, ss.tail.head, [b], [], 0) == Returned(Some(5), []);
    assert ExecStmts(cx, w, ss.tail, [b], [], 0) == Returned(Some(5), []);
    assert ExecStmts(cx, w, ss, [], [], 0) == Returned(Some(5), []);
  }

  lemma {:induction false} DiscardPasses()
    ensures Check.CkStmts([[]], Discard())
  {
  }

  function DiscardCode(slot: string): seq<Instr> {
    [Alloca(slot, I32), Fir.Store(slot, I32, Lit(5)), Ret(I32, Lit(0))]
  }

  lemma {:induction false} DiscardDeclared(g: Gen)
    requires g == ScopePush(FnStart(0, 0))
    ensures
      var r := EmitStmt(HidingCtx(), g, Discard().head);
      && |r.blocks| == 1 && r.blocks[0].instrs == DiscardCode("var._." + Dec(0))[..2]
      && r.vars == []
  {
    hide Dec;
    var slot := "var._." + Dec(0);
    assert [] + ([] + [Alloca(slot, I32), Fir.Store(slot, I32, Lit(5))]) == DiscardCode(slot)[..2];
  }

  lemma {:induction false} DiscardReturned(g: Gen)
    requires |g.blocks| == 1 && g.vars == []
    ensures
      var r := EmitStmt(HidingCtx(), g, Discard().tail.head);
      |r.blocks| == 2 && r.blocks[0].instrs == g.blocks[0].instrs + [Ret(I32, Lit(0))]
  {
    hide Label;
    assert [] + [] + [Ret(I32, Lit(0))] == [Ret(I32, Lit(0))];
  }

  lemma {:induction false} DiscardEmits()
    ensures
      var f := EmitFn(HidingCtx(), [], Discard(), 0, 0).blocks;
      |f| > 0 && DiscardCode("var._." + Dec(0)) <= f[0].instrs
  {
    hide EmitFn, EmitStmts, EmitStmt, Dec;
    var cx, ss, slot := HidingCtx(), Discard(), "var._." + Dec(0);
    var g0 := ScopePush(FnStart(0, 0));
    var g1 := EmitStmt(cx, g0, ss.head);
    DiscardDeclared(g0);
    DiscardReturned(g1);
    StmtsCode(cx, g0, ss.head, ss.tail);
    StmtsCode(cx, g1, ss.tail.head, NoStmts);
    StmtsCode(cx, EmitStmt(cx, g1, ss.tail.head), ss.tail.head, NoStmts);
    assert DiscardCode(slot)[..2] + [Ret(I32, Lit(0))] == DiscardCode(slot);
    Emitted(cx, ss, DiscardCode(slot));
  }

  lemma {:induction false} DiscardRuns(f: seq<Block>, w: World, slot: string)
    requires |f| > 0 && DiscardCode(slot) <= f[0].instrs
    ensures Run(f, w, Start(map[]), 3).Done? && Run(f, w, Start(map[]), 3).ret == Some(0)
  {
    hide Run;
    var code := DiscardCode(slot);
    assert forall k :: 0 <= k < 3 ==> f[0].instrs[k] == code[k];
    assert Wrap(I32, 5) == 5 && Wrap(I32, 0) == 0;
    var s0 := State(map[], map[], []);
    var s1 := s0.(mem := s0.mem[slot := Cell(I32, None)]);
    var s2 := s1.(mem := s1.mem[slot := Cell(I32, Some(5))]);
    var c := Done(Some(0), s2);
    LowerCorrect.RunNone(f, w, c);
    OneStep(f, w, 2, s2, 0, c);
    OneStep(f, w, 1, s1, 1, c);
    OneStep(f, w, 0, s0, 2, c);
  }

  /** The checker accepts the body, by its scoping the source returns 5, and the translation returns 0. */
  lemma {:induction false} DiscardRead(w: World)
    ensures Check.CkStmts([[]], Discard()) && Apply(HidingCtx(), w, [], Discard(), [], 0) == Result(Some(5), [])
    ensures
      var c := Run(EmitFn(HidingCtx(), [], Discard(), 0, 0).blocks, w, Start(map[]), 3);
      c.Done? && c.ret == Some(0)
  {
    hide *;
    DiscardPasses();
    DiscardMeans(w);
    DiscardEmits();
    DiscardRuns(EmitFn(HidingCtx(), [], Discard(), 0, 0).blocks, w, "var._." + Dec(0));
  }
}
