/** Programs outside the conditions of the main theorem, and what becomes of them. */
module Limits {
  import opened Words
  import opened Fir
  import opened Source
  import opened Lower
  import opened LowerFn
  import opened LowerExpr
  import Folding
  import Passes
  import LowerCorrect

  // ----- a hidden variable shares the slot of the variable it hides -----

  /** int x = 1; { int x = 2; } return x; */
  function Hiding(): Stmts {
    MoreStmts(Decl("x", Some(I32), Some(IntLit(1)), true),
    MoreStmts(Scope(MoreStmts(Decl("x", Some(I32), Some(IntLit(2)), true), NoStmts)),
    MoreStmts(Return(Some(Var("x"))), NoStmts)))
  }

  function HidingCtx(): Ctx { Ctx([], map[], Some(I32)) }

  lemma HidingMeans(w: World)
    ensures Apply(HidingCtx(), w, [], Hiding(), [], 0) == Result(Some(1), [])
  {
    var cx := HidingCtx();
    var b1, b2 := Binding("x", I32, 1), Binding("x", I32, 2);
    var ss := Hiding();
    var inner := MoreStmts(Decl("x", Some(I32), Some(IntLit(2)), true), NoStmts);
    assert Exec(cx, w, ss.head, [], [], 0) == Normal([b1], []);
    assert Exec(cx, w, inner.head, [b1], [], 0) == Normal([b1, b2], []);
    assert ExecStmts(cx, w, inner, [b1], [], 0) == Normal([b1, b2], []);
    assert [b1, b2][..1] == [b1];
    assert Exec(cx, w, ss.tail.head, [b1], [], 0) == Normal([b1], []);
    assert Lookup([b1], "x") == Some(0);
    assert Exec(cx, w, ss.tail.tail.head, [b1], [], 0) == Returned(Some(1), []);
    assert ExecStmts(cx, w, ss.tail.tail, [b1], [], 0) == Returned(Some(1), []);
    assert ExecStmts(cx, w, ss.tail, [b1], [], 0) == Returned(Some(1), []);
    assert ExecStmts(cx, w, ss, [], [], 0) == Returned(Some(1), []);
  }

  function HidingCode(): seq<Instr> {
    [Alloca("var.x", I32), Fir.Store("var.x", I32, Lit(1)), Alloca("var.x", I32), Fir.Store("var.x", I32, Lit(2)),
     Load(TempName(0), I32, "var.x"), Ret(I32, Reg(TempName(0)))]
  }

  lemma SlotOfX()
    ensures SlotName("x") == "var.x"
  {
  }

  function X(): VarEntry { VarEntry("x", I32, "var.x") }

  function Declares(n: long): seq<Instr> { [Alloca("var.x", I32), Fir.Store("var.x", I32, Lit(n))] }

  lemma DeclCode(g: Gen, n: long)
    requires |g.blocks| == 1 && |g.vars| < 2
    ensures
      EmitStmt(HidingCtx(), g, Decl("x", Some(I32), Some(IntLit(n)), true))
      == g.(blocks := [g.blocks[0].(instrs := g.blocks[0].instrs + Declares(n))], vars := g.vars + [X()])
  {
    hide SlotName, TempName;
    SlotOfX();
    var e, st := [Alloca("var.x", I32)], [Fir.Store("var.x", I32, Lit(n))];
    assert e + [] + [] + st == Declares(n);
  }

  lemma ReturnCode(g: Gen)
    requires |g.blocks| == 1 && g.vars == [X()] && g.tmp == 0
    ensures
      var r := EmitStmt(HidingCtx(), g, Return(Some(Var("x"))));
      |r.blocks| == 2
          && r.blocks[0].instrs == g.blocks[0].instrs + [Load(TempName(0), I32, "var.x"), Ret(I32, Reg(TempName(0)))]
  {
    hide TempName, Label;
    assert VarLookup([X()], "x") == Some(0);
    var l, r := [Load(TempName(0), I32, "var.x")], [Ret(I32, Reg(TempName(0)))];
    assert l + [] + r == [Load(TempName(0), I32, "var.x"), Ret(I32, Reg(TempName(0)))];
  }

  lemma HidingBody() returns (g: Gen)
    ensures
      var r := EmitStmts(HidingCtx(), ScopePush(FnStart(0, 0)), Hiding());
      |r.blocks| == 2 && r.blocks[0].instrs == HidingCode()
  {
    hide EmitStmt, TempName;
    var cx, ss := HidingCtx(), Hiding();
    var inner := MoreStmts(Decl("x", Some(I32), Some(IntLit(2)), true), NoStmts);
    var g0 := ScopePush(FnStart(0, 0));
    var g1 := EmitStmt(cx, g0, ss.head);
    DeclCode(g0, 1);
    var p := ScopePush(g1);
    DeclCode(p, 2);
    var g2 := EmitStmt(cx, p, inner.head);
    StmtsCode(cx, p, inner.head, NoStmts);
    ScopeCode(g1, inner);
    var g3 := EmitStmt(cx, g1, ss.tail.head);
    PopX(g1, g2);
    ReturnCode(g3);
    StmtsCode(cx, g0, ss.head, ss.tail);
    StmtsCode(cx, g1, ss.tail.head, ss.tail.tail);
    StmtsCode(cx, g3, ss.tail.tail.head, NoStmts);
    g := g3;
    assert [] + Declares(1) + Declares(2) + [Load(TempName(0), I32, "var.x"), Ret(I32, Reg(TempName(0)))]
        == HidingCode();
  }

  lemma StmtsCode(cx: Ctx, g: Gen, s: Stmt, rest: Stmts)
    requires |g.blocks| > 0
    ensures EmitStmts(cx, g, MoreStmts(s, rest)) == EmitStmts(cx, EmitStmt(cx, g, s), rest)
    ensures EmitStmts(cx, g, NoStmts) == g
  {
    hide EmitStmt;
  }

  lemma ScopeCode(g: Gen, ss: Stmts)
    requires |g.blocks| > 0
    ensures EmitStmt(HidingCtx(), g, Scope(ss)) == ScopePop(EmitStmts(HidingCtx(), ScopePush(g), ss))
  {
    hide EmitStmts;
  }

  lemma PopX(g: Gen, r: Gen)
    requires g.vars == [X()] && r.vars == [X(), X()] && r.bases == g.bases + [1]
    ensures ScopePop(r).vars == [X()] && ScopePop(r).blocks == r.blocks && ScopePop(r).tmp == r.tmp
  {
    assert [X(), X()][..1] == [X()];
  }

  /** The first block of the emitted function. */
  lemma HidingEmits()
    ensures
      var f := EmitFn(HidingCtx(), [], Hiding(), 0, 0).blocks;
      |f| > 0 && HidingCode() <= f[0].instrs
  {
    hide EmitFn, EmitStmts, TempName, HidingCode, Hiding, Open, Within;
    var g := HidingBody();
    FnFinal(HidingCtx(), [], Hiding(), 0, 0);
    assert EmitParams(FnStart(0, 0), []) == FnStart(0, 0);
    assert FnBody(HidingCtx(), [], Hiding(), 0, 0).blocks
        == EmitStmts(HidingCtx(), ScopePush(FnStart(0, 0)), Hiding()).blocks;
  }

  lemma OneStep(f: seq<Block>, w: World, pc: nat, s: State, n: nat, c: Config)
    requires Run(f, w, Step(f, w, Running(0, pc, s)), n) == c
    ensures Run(f, w, Running(0, pc, s), n + 1) == c
  {
    hide Step;
  }

  lemma {:induction false} HidingEnds(f: seq<Block>, w: World, s: State) returns (s': State)
    requires |f| > 0 && HidingCode() <= f[0].instrs && "var.x" in s.mem && s.mem["var.x"] == Cell(I32, Some(2))
    ensures Run(f, w, Running(0, 4, s), 2) == Done(Some(2), s')
  {
    hide TempName, Run;
    var t, code := TempName(0), HidingCode();
    assert f[0].instrs[4] == code[4] && f[0].instrs[5] == code[5];
    s' := s.(temps := s.temps[t := 2]);
    var c := Done(Some(2), s');
    LowerCorrect.RunNone(f, w, c);
    OneStep(f, w, 5, s', 0, c);
    OneStep(f, w, 4, s, 1, c);
  }

  lemma {:induction false} HidingRuns(f: seq<Block>, w: World)
    requires |f| > 0 && HidingCode() <= f[0].instrs
    ensures Run(f, w, Start(map[]), 6).Done? && Run(f, w, Start(map[]), 6).ret == Some(2)
  {
    hide TempName, Run;
    var code := HidingCode();
    assert forall k :: 0 <= k < 4 ==> f[0].instrs[k] == code[k];
    assert Wrap(I32, 1) == 1 && Wrap(I32, 2) == 2;
    hide Wrap;
    var s0 := State(map[], map[], []);
    var s1 := s0.(mem := s0.mem["var.x" := Cell(I32, None)]);
    var s2 := s1.(mem := s1.mem["var.x" := Cell(I32, Some(1))]);
    var s3 := s2.(mem := s2.mem["var.x" := Cell(I32, None)]);
    var s4 := s3.(mem := s3.mem["var.x" := Cell(I32, Some(2))]);
    var s5 := HidingEnds(f, w, s4);
    var c := Done(Some(2), s5);
    OneStep(f, w, 3, s3, 2, c);
    OneStep(f, w, 2, s2, 3, c);
    OneStep(f, w, 1, s1, 4, c);
    OneStep(f, w, 0, s0, 5, c);
  }

  /** The source returns 1 and the translation 2: a live name must not be declared again. */
  lemma {:induction false} HidingDiffers(w: World)
    ensures Apply(HidingCtx(), w, [], Hiding(), [], 0) == Result(Some(1), [])
    ensures
      var c := Run(EmitFn(HidingCtx(), [], Hiding(), 0, 0).blocks, w, Start(map[]), 6);
      c.Done? && c.ret == Some(2)
  {
    hide *;
    HidingMeans(w);
    HidingEmits();
    HidingRuns(EmitFn(HidingCtx(), [], Hiding(), 0, 0).blocks, w);
  }

  /** The condition on names is exact at every state: when a live variable's name is declared again, the
      table still describes memory, once that declaration is out of scope, if and only if type and value
      are the ones the variable has. */
  lemma {:induction false} RedeclareExact(cx: Ctx, w: World, s: State, env: Env, vars: seq<VarEntry>, i: nat, t: IntTy,
                                          n: long)
    requires Rel(cx, env, vars, s.mem) && i < |vars|
    ensures
      var r := ExecCode([Alloca(vars[i].slot, t), Fir.Store(vars[i].slot, t, Lit(n))], w, s);
      r.Some? && (Rel(cx, env, vars, r.value.mem) <==> t == env[i].ty && Wrap(t, n) == env[i].v)
  {
    var slot := vars[i].slot;
    var m1 := s.mem[slot := Cell(t, None)];
    var m2 := m1[slot := Cell(t, Some(Wrap(t, n)))];
    var code := [Alloca(slot, t), Fir.Store(slot, t, Lit(n))];
    var s1, s2 := s.(mem := m1), s.(mem := m2);
    assert ExecInstr(code[0], w, s) == Some(s1) && ExecInstr(code[1], w, s1) == Some(s2);
    ExecOne(code[1], w, s1);
    assert code[1..] == [code[1]];
    assert ExecCode(code, w, s) == Some(s.(mem := m2));
  }

  // ----- `true` widened -----

  /** return true; in a function that returns an int. */
  function Widening(): Stmts { MoreStmts(Return(Some(BoolLit(true))), NoStmts) }

  lemma WideningMeans(w: World)
    ensures Apply(HidingCtx(), w, [], Widening(), [], 0) == Result(Some(-1), [])
  {
    var cx, s := HidingCtx(), Return(Some(BoolLit(true)));
    assert Wrap(I32, -1) == -1;
    assert Exec(cx, w, s, [], [], 0) == Returned(Some(-1), []);
    assert ExecStmts(cx, w, Widening(), [], [], 0) == Returned(Some(-1), []);
  }

  function WideningCode(): seq<Instr> {
    [Conv(Sext, TempName(0), I32, I1, Lit(1)), Ret(I32, Reg(TempName(0)))]
  }

  lemma WideningEmits()
    ensures
      var f := EmitFn(HidingCtx(), [], Widening(), 0, 0).blocks;
      |f| > 0 && f[0].instrs == WideningCode()
  {
    hide TempName, Label, Open, Within;
    var cx, s := HidingCtx(), Return(Some(BoolLit(true)));
    var g0 := ScopePush(FnStart(0, 0));
    var g1 := EmitStmt(cx, g0, s);
    assert [] + [] + WideningCode() == WideningCode();
    assert |g1.blocks| == 2 && g1.blocks[0].instrs == WideningCode();
    StmtsCode(cx, g0, s, NoStmts);
    StmtsCode(cx, g1, s, NoStmts);
    FnFinal(cx, [], Widening(), 0, 0);
    assert EmitParams(FnStart(0, 0), []) == FnStart(0, 0);
    assert FnBody(cx, [], Widening(), 0, 0).blocks == g1.blocks;
  }

  /** The peephole pass turns the extension into a copy of the literal. */
  lemma WideningOptimised(f: seq<Block>)
    requires |f| > 0 && f[0].instrs == WideningCode()
    ensures
      var o := Passes.Optimize(f);
      o[0].instrs == [Folding.Copy(TempName(0), I32, Lit(1)), Ret(I32, Reg(TempName(0)))]
  {
    hide TempName;
    Passes.EntryReachable(Passes.TrimAll(f));
    var t := Passes.TrimAll(f);
    assert Passes.FirstTerm(WideningCode()) == 1;
    assert t[0].instrs == WideningCode();
    var m := Passes.Mark(t);
    assert !m[0].dead && m[0].instrs == WideningCode();
    var d := Passes.FoldLive(m);
    assert d[0].instrs == Folding.FoldBlock(WideningCode());
    assert d[0].instrs[0] == WideningCode()[0] && d[0].instrs[1] == WideningCode()[1];
    assert d[0].instrs == WideningCode() && !d[0].dead;
    var q := Passes.PeepLive(d);
    var code := [Folding.Copy(TempName(0), I32, Lit(1)), Ret(I32, Reg(TempName(0)))];
    assert q[0].instrs == Passes.PeepBlock(WideningCode()) == code && !q[0].dead;
    var r := Passes.ResolveLive(q);
    assert code[1 := code[1]] == code;
    assert r[0].instrs == Passes.ResolveTail(code) == code;
  }

  lemma {:induction false} WideningRuns(f: seq<Block>, w: World)
    requires |f| > 0 && f[0].instrs == [Folding.Copy(TempName(0), I32, Lit(1)), Ret(I32, Reg(TempName(0)))]
    ensures Run(f, w, Start(map[]), 2).Done? && Run(f, w, Start(map[]), 2).ret == Some(1)
  {
    hide TempName, Run;
    var t := TempName(0);
    var s0 := State(map[], map[], []);
    var s1 := s0.(temps := s0.temps[t := 1]);
    assert Wrap(I32, 1) == 1 && Wrap(I32, 0) == 0;
    assert Step(f, w, Running(0, 0, s0)) == Running(0, 1, s1);
    var c := Done(Some(1), s1);
    assert Step(f, w, Running(0, 1, s1)) == c;
    LowerCorrect.RunNone(f, w, c);
    OneStep(f, w, 1, s1, 0, c);
    OneStep(f, w, 0, s0, 1, c);
  }

  /** The source returns -1 and the optimised translation 1: `true` must not be widened. */
  lemma {:induction false} WideningDiffers(w: World)
    ensures Apply(HidingCtx(), w, [], Widening(), [], 0) == Result(Some(-1), [])
    ensures
      var f := Passes.Optimize(EmitFn(HidingCtx(), [], Widening(), 0, 0).blocks);
      Run(f, w, Start(map[]), 2).Done? && Run(f, w, Start(map[]), 2).ret == Some(1)
  {
    hide *;
    WideningMeans(w);
    WideningEmits();
    WideningOptimised(EmitFn(HidingCtx(), [], Widening(), 0, 0).blocks);
    WideningRuns(Passes.Optimize(EmitFn(HidingCtx(), [], Widening(), 0, 0).blocks), w);
  }
}
