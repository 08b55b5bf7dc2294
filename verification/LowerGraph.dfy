/** The blocks that lowering builds form a well-formed graph: names are distinct, every jump leads to a
    block of the same function, and every block but the current one has a terminator. */
module LowerGraph {
  import opened Words
  import opened Decimal
  import opened Fir
  import opened Source
  import opened Lower
  import opened LowerDefs

  // ----- invariant -----

  ghost function Labels(bs: seq<Block>): set<string> {
    set i | 0 <= i < |bs| :: bs[i].name
  }

  function TargetSet(i: Instr): set<string> {
    match i
    case Br(l) => {l}
    case BrCond(_, t, e) => {t, e}
    case _ => {}
  }

  predicate Plain(code: seq<Instr>) {
    forall k :: 0 <= k < |code| ==> !IsTerm(code[k])
  }

  predicate HasTerm(code: seq<Instr>) {
    exists k :: 0 <= k < |code| && IsTerm(code[k])
  }

  predicate CodeTargets(code: seq<Instr>, s: set<string>) {
    forall k :: 0 <= k < |code| ==> TargetSet(code[k]) <= s
  }

  predicate DistinctBlocks(bs: seq<Block>) {
    forall i, j :: 0 <= i < j < |bs| ==> bs[i].name != bs[j].name
  }

  /** Labels in `pend` may be jumped to although their blocks are not built yet. */
  ghost predicate Good(g: Gen, pend: set<string>) {
    && |g.blocks| > 0
    && DistinctBlocks(g.blocks)
    && (forall i :: 0 <= i < |g.blocks| ==> Num(g.blocks[i].name) < g.lbl && !g.blocks[i].dead)
    && (forall i :: 0 <= i < |g.blocks| - 1 ==> HasTerm(g.blocks[i].instrs))
    && (forall i :: 0 <= i < |g.blocks| ==> CodeTargets(g.blocks[i].instrs, pend + Labels(g.blocks)))
    && (g.brk.Some? ==> g.brk.value in pend + Labels(g.blocks))
    && (g.cont.Some? ==> g.cont.value in pend + Labels(g.blocks))
  }

  /** The labels `r` has beyond those of `g` carry counters from `floor` on. */
  ghost predicate NewFrom(g: Gen, r: Gen, floor: int) {
    Labels(g.blocks) <= Labels(r.blocks) &&
    forall l :: l in Labels(r.blocks) && l !in Labels(g.blocks) ==> Num(l) >= floor
  }

  lemma GoodWeaken(g: Gen, p: set<string>, q: set<string>)
    requires Good(g, p) && p <= q
    ensures Good(g, q)
  {
  }

  // ----- building steps -----

  lemma EmitGood(g: Gen, code: seq<Instr>, pend: set<string>)
    requires Good(g, pend) && CodeTargets(code, pend + Labels(g.blocks))
    ensures
      var r := Emit(g, code);
      && Good(r, pend) && Continues(g, r) && Labels(r.blocks) == Labels(g.blocks)
      && Last(r) == Last(g) + code
  {
    var r := Emit(g, code);
    assert forall i :: 0 <= i < |g.blocks| ==> r.blocks[i].name == g.blocks[i].name;
    assert Labels(r.blocks) == Labels(g.blocks) by {
      forall l | l in Labels(g.blocks)
        ensures l in Labels(r.blocks)
      {
        var i :| 0 <= i < |g.blocks| && g.blocks[i].name == l;
        assert r.blocks[i].name == l;
      }
    }
  }

  lemma PlaceLabels(g: Gen, l: string)
    ensures Labels(Place(g, l).blocks) == Labels(g.blocks) + {l}
  {
    var r := Place(g, l);
    var n := |g.blocks|;
    assert r.blocks[n].name == l;
    forall k | k in Labels(g.blocks)
      ensures k in Labels(r.blocks)
    {
      var i :| 0 <= i < n && g.blocks[i].name == k;
      assert r.blocks[i].name == k;
    }
  }

  lemma PlaceGood(g: Gen, l: string, pend: set<string>)
    requires Good(g, pend + {l}) && l !in Labels(g.blocks) && Num(l) < g.lbl && HasTerm(Last(g))
    ensures
      var r := Place(g, l);
      Good(r, pend) && Open(r) && Continues(g, r) && Labels(r.blocks) == Labels(g.blocks) + {l}
  {
    hide Num, HasTerm, CodeTargets, DistinctBlocks;
    var r, n := Place(g, l), |g.blocks|;
    PlaceLabels(g, l);
    PlaceDistinct(g, l);
    assert pend + {l} + Labels(g.blocks) == pend + Labels(r.blocks);
    hide Labels;
    assert forall i :: 0 <= i < n ==> r.blocks[i] == g.blocks[i];
    assert r.blocks[n] == Block(l, [], false);
    NoTargets(pend + Labels(r.blocks));
  }

  lemma PlaceDistinct(g: Gen, l: string)
    requires DistinctBlocks(g.blocks) && l !in Labels(g.blocks)
    ensures DistinctBlocks(Place(g, l).blocks)
  {
    assert forall i :: 0 <= i < |g.blocks| ==> g.blocks[i].name in Labels(g.blocks);
  }

  lemma NoTargets(s: set<string>)
    ensures CodeTargets([], s)
  {
  }

  lemma BrToGood(g: Gen, l: string, pend: set<string>)
    requires Good(g, pend) && l in pend + Labels(g.blocks)
    ensures
      var r := BrTo(g, l);
      Good(r, pend) && Continues(g, r) && Labels(r.blocks) == Labels(g.blocks) && HasTerm(Last(r))
  {
    if Open(g) {
      EmitGood(g, [Br(l)], pend);
      assert Last(BrTo(g, l))[|Last(g)|] == Br(l);
    } else {
      assert IsTerm(Last(g)[|Last(g)| - 1]);
    }
  }

  // ----- expression code -----

  lemma PlainTargets(code: seq<Instr>, s: set<string>)
    requires Plain(code)
    ensures CodeTargets(code, s)
  {
  }

  lemma {:induction false} CoerceArgsPlain(args: seq<Arg>, params: seq<Ty>, tmp: nat)
    ensures Plain(CoerceArgs(args, params, tmp).instrs)
  {
    if args != [] && params != [] {
      var c := Coerce(args[0].val, args[0].ty, params[0], tmp);
      CoerceArgsPlain(args[1..], params[1..], c.tmp);
    }
  }

  lemma {:induction false} ExprPlain(cx: Ctx, vars: seq<VarEntry>, e: Expr, tmp: nat)
    ensures Plain(EmitExpr(cx, vars, e, tmp).instrs)
    decreases e
  {
    hide TempName, VarLookup, ConstFrom, SlotName, BoolText;
    match e
    case Unary(p, e1) => ExprPlain(cx, vars, e1, tmp);
    case Binary(op, e1, e2) => BinaryPlain(cx, vars, op, e1, e2, tmp);
    case CallFn(fn, args) => CallPlain(cx, vars, fn, args, tmp);
    case _ =>
  }

  lemma {:induction false} BinaryPlain(cx: Ctx, vars: seq<VarEntry>, op: Operator, e1: Expr, e2: Expr, tmp: nat)
    ensures Plain(EmitExpr(cx, vars, Binary(op, e1, e2), tmp).instrs)
    decreases Binary(op, e1, e2), 0
  {
    hide Plain, Coerce, EmitOperator, CommonType;
    var a := EmitExpr(cx, vars, e1, tmp);
    var b := EmitExpr(cx, vars, e2, a.tmp);
    ExprPlain(cx, vars, e1, tmp);
    ExprPlain(cx, vars, e2, a.tmp);
    var t := CommonType(a.ty, b.ty);
    var x := Coerce(a.op, a.ty, t, b.tmp);
    var y := Coerce(b.op, b.ty, t, x.tmp);
    StepPlain(op, a.op, a.ty, t, t, x.op, y.op, b.tmp);
    StepPlain(op, b.op, b.ty, t, t, x.op, y.op, x.tmp);
    StepPlain(op, a.op, a.ty, t, t, x.op, y.op, y.tmp);
    PlainThen(a.instrs, b.instrs);
    PlainThen(a.instrs + b.instrs, x.instrs);
    PlainThen(a.instrs + b.instrs + x.instrs, y.instrs);
    PlainThen(a.instrs + b.instrs + x.instrs + y.instrs, EmitOperator(op, t, x.op, y.op, y.tmp).instrs);
  }

  lemma {:induction false} StepPlain(op: Operator, a: Operand, from: Ty, to: Ty, t: Ty, x: Operand, y: Operand,
                                     tmp: nat)
    ensures Plain(Coerce(a, from, to, tmp).instrs) && Plain(EmitOperator(op, t, x, y, tmp).instrs)
  {
    hide TempName;
  }

  lemma {:induction false} PlainThen(a: seq<Instr>, b: seq<Instr>)
    requires Plain(a) && Plain(b)
    ensures Plain(a + b)
  {
  }

  lemma {:induction false} CallPlain(cx: Ctx, vars: seq<VarEntry>, fn: string, args: Exprs, tmp: nat)
    ensures Plain(EmitExpr(cx, vars, CallFn(fn, args), tmp).instrs)
    decreases CallFn(fn, args), 0
  {
    hide TempName, SigOf, CoerceArgs;
    ArgsPlain(cx, vars, args, tmp, MAX_ARGS);
    var a := EmitArgs(cx, vars, args, tmp, MAX_ARGS);
    CoerceArgsPlain(a.args, SigOf(cx, fn).params, a.tmp);
  }

  lemma {:induction false} ArgsPlain(cx: Ctx, vars: seq<VarEntry>, args: Exprs, tmp: nat, room: nat)
    ensures Plain(EmitArgs(cx, vars, args, tmp, room).instrs)
    decreases args
  {
    match args
    case NoExprs =>
    case MoreExprs(e, rest) =>
      if room > 0 {
        ExprPlain(cx, vars, e, tmp);
        ArgsPlain(cx, vars, rest, EmitExpr(cx, vars, e, tmp).tmp, room - 1);
      }
  }

  lemma EffectPlain(cx: Ctx, vars: seq<VarEntry>, eff: Effect, tmp: nat)
    ensures Plain(EmitEffect(cx, vars, eff, tmp).instrs)
  {
    hide EmitExpr, VarLookup, TempName, SlotName;
    match eff
    case Assign(x, e) => ExprPlain(cx, vars, e, tmp);
    case Compound(op, x, e) =>
      ExprPlain(cx, vars, Var(x), tmp);
      ExprPlain(cx, vars, e, EmitTarget(cx, vars, x, tmp).tmp);
    case Increment(x) => ExprPlain(cx, vars, Var(x), tmp);
    case Decrement(x) => ExprPlain(cx, vars, Var(x), tmp);
    case Eval(e) => ExprPlain(cx, vars, e, tmp);
  }

  /** Appending straight-line code keeps the graph good and the current block open. */
  lemma StraightGood(g: Gen, c: Code, pend: set<string>)
    requires |g.blocks| > 0 && Good(g, pend) && Open(g) && Plain(c.instrs) && c.tmp >= g.tmp
    ensures
      var r := Straight(g, c);
      Good(r, pend) && Open(r) && Continues(g, r) && Labels(r.blocks) == Labels(g.blocks)
  {
    PlainTargets(c.instrs, pend + Labels(g.blocks));
    EmitGood(g, c.instrs, pend);
  }

  /** Code that ends in a terminator leading to known labels. */
  lemma ClosingGood(g: Gen, c: Code, t: Instr, pend: set<string>)
    requires Good(g, pend) && Plain(c.instrs) && c.tmp >= g.tmp
    requires IsTerm(t) && TargetSet(t) <= pend + Labels(g.blocks)
    ensures
      var r := Straight(g, c.(instrs := c.instrs + [t]));
      Good(r, pend) && Continues(g, r) && Labels(r.blocks) == Labels(g.blocks) && HasTerm(Last(r))
  {
    PlainTargets(c.instrs, pend + Labels(g.blocks));
    var code := c.instrs + [t];
    EmitGood(g, code, pend);
    var r := Emit(g, code);
    assert Last(r)[|Last(r)| - 1] == t;
  }

  lemma BranchGood(cx: Ctx, g: Gen, c: Expr, thn: string, els: string, pend: set<string>)
    requires Good(g, pend) && thn in pend + Labels(g.blocks) && els in pend + Labels(g.blocks)
    ensures
      var r := EmitBranch(cx, g, c, thn, els);
      Good(r, pend) && Continues(g, r) && Labels(r.blocks) == Labels(g.blocks) && HasTerm(Last(r))
  {
    hide Good, EmitExpr, TempName, Labels, HasTerm, Within;
    ExprPlain(cx, g.vars, c, g.tmp);
    var v := EmitTest(cx, g.vars, c, g.tmp);
    ClosingGood(g, v, BrCond(v.op, thn, els), pend);
  }

  // ----- statements -----

  /** What building a statement does: the graph stays good, and new labels are fresh. */
  ghost predicate Built(g: Gen, r: Gen, pend: set<string>, floor: int) {
    Good(r, pend) && Continues(g, r) && NewFrom(g, r, floor)
  }

  lemma ContinuesTrans(a: Gen, b: Gen, c: Gen)
    requires Continues(a, b) && Continues(b, c)
    ensures Continues(a, c)
  {
    WithinTrans(a.blocks, b.blocks, c.blocks);
  }

  /** Steps compose; the second step's new labels may be compared with a lower floor. */
  lemma BuiltThen(a: Gen, b: Gen, c: Gen, p: set<string>, q: set<string>, floor: int, floor': int)
    requires Built(a, b, p, floor) && Built(b, c, q, floor') && floor <= floor'
    ensures Built(a, c, q, floor)
  {
    ContinuesTrans(a, b, c);
  }

  lemma LblGood(g: Gen, n: nat, pend: set<string>)
    requires Good(g, pend) && n >= g.lbl
    ensures Good(g.(lbl := n), pend)
  {
  }

  /** A label whose counter has not been used names no block yet. */
  lemma NotYet(g: Gen, l: string, pend: set<string>)
    requires Good(g, pend) && Num(l) >= g.lbl
    ensures l !in Labels(g.blocks)
  {
  }

  /** Placing a label set aside earlier. */
  lemma PlaceBuilt(g: Gen, l: string, pend: set<string>, floor: int)
    requires Good(g, pend + {l}) && l !in Labels(g.blocks) && floor <= Num(l) < g.lbl && HasTerm(Last(g))
    ensures Built(g, Place(g, l), pend, floor) && Open(Place(g, l))
    ensures Labels(Place(g, l).blocks) == Labels(g.blocks) + {l}
  {
    PlaceGood(g, l, pend);
  }

  /** Variables and scope marks play no part in the graph. */
  lemma SameGraph(g: Gen, h: Gen, pend: set<string>)
    requires g.blocks == h.blocks && g.lbl == h.lbl && g.brk == h.brk && g.cont == h.cont
    ensures Good(g, pend) <==> Good(h, pend)
    ensures |g.blocks| > 0 ==> (Open(g) <==> Open(h))
  {
  }

  lemma ScopeGood(cx: Ctx, g: Gen, ss: Stmts, pend: set<string>)
    requires |g.blocks| > 0 && Good(g, pend) && Open(g)
    ensures Built(g, EmitScope(cx, g, ss), pend, g.lbl) && Open(EmitScope(cx, g, ss))
    decreases ss, 1
  {
    hide Good, Within, Labels, HasTerm, EmitStmts;
    var h := ScopePush(g);
    SameGraph(g, h, pend);
    StmtsGood(cx, h, ss, pend);
    var r := EmitStmts(cx, h, ss);
    assert h.bases[..|g.bases|] == g.bases;
    SameGraph(r, ScopePop(r), pend);
  }

  lemma StmtsGood(cx: Ctx, g: Gen, ss: Stmts, pend: set<string>)
    requires |g.blocks| > 0 && Good(g, pend) && Open(g)
    ensures Built(g, EmitStmts(cx, g, ss), pend, g.lbl) && Open(EmitStmts(cx, g, ss))
    decreases ss, 0
  {
    match ss
    case NoStmts =>
    case MoreStmts(s, rest) =>
      var h := EmitStmt(cx, g, s);
      StmtGood(cx, g, s, pend);
      StmtsGood(cx, h, rest, pend);
      BuiltThen(g, h, EmitStmts(cx, h, rest), pend, pend, g.lbl, h.lbl);
  }

  lemma {:induction false} StmtGood(cx: Ctx, g: Gen, s: Stmt, pend: set<string>)
    requires |g.blocks| > 0 && Good(g, pend) && Open(g)
    ensures Built(g, EmitStmt(cx, g, s), pend, g.lbl) && Open(EmitStmt(cx, g, s))
    decreases s, 1
  {
    hide *;
    StmtDefs(cx, g, s);
    match s
    case Decl(x, ty, init, _) => DeclGood(cx, g, x, ty, init, pend);
    case Do(eff) =>
      EffectPlain(cx, g.vars, eff, g.tmp);
      StraightBuilt(g, EmitEffect(cx, g.vars, eff, g.tmp), pend);
    case Return(val) => ReturnGood(cx, g, val, pend);
    case If(_, _, _) => IfGood(cx, g, s, pend);
    case While(_, _) => WhileGood(cx, g, s, pend);
    case DoWhile(_, _) => DoWhileGood(cx, g, s, pend);
    case ForC(_, _, _, _) => ForGood(cx, g, s, pend);
    case Match(e, arms) => MatchGood(cx, g, e, arms, pend);
    case Break => LoopLabels(g, pend); LeaveGood(g, g.brk, Brkd, pend);
    case Continue => LoopLabels(g, pend); LeaveGood(g, g.cont, Cntd, pend);
    case Scope(body) => ScopeGood(cx, g, body, pend);
  }

  lemma LoopLabels(g: Gen, pend: set<string>)
    requires Good(g, pend)
    ensures g.brk.Some? ==> g.brk.value in pend + Labels(g.blocks)
    ensures g.cont.Some? ==> g.cont.value in pend + Labels(g.blocks)
  {
  }

  lemma StraightBuilt(g: Gen, c: Code, pend: set<string>)
    requires |g.blocks| > 0 && Good(g, pend) && Open(g) && Plain(c.instrs) && c.tmp >= g.tmp
    ensures Built(g, Straight(g, c), pend, g.lbl) && Open(Straight(g, c))
  {
    StraightGood(g, c, pend);
  }

  lemma {:induction false} DeclPlain(cx: Ctx, vars: seq<VarEntry>, x: string, ty: Option<Ty>, init: Option<Expr>,
                                     tmp: nat)
    ensures Plain(DeclCode(cx, vars, x, ty, init, tmp).instrs)
  {
    hide EmitExpr, TempName, DeclSlot;
    if init.Some? {
      ExprPlain(cx, vars, init.value, tmp);
      ExprPlain(cx, vars, init.value, DeclTmp(x, tmp));
    }
  }

  lemma DeclGood(cx: Ctx, g: Gen, x: string, ty: Option<Ty>, init: Option<Expr>, pend: set<string>)
    requires |g.blocks| > 0 && Good(g, pend) && Open(g)
    ensures Built(g, EmitDecl(cx, g, x, ty, init), pend, g.lbl) && Open(EmitDecl(cx, g, x, ty, init))
  {
    hide Good, Within, Labels, HasTerm, Open, DeclCode, DeclEntry;
    DeclPlain(cx, g.vars, x, ty, init, g.tmp);
    DeclBuilt(g, EmitDecl(cx, g, x, ty, init), DeclCode(cx, g.vars, x, ty, init, g.tmp), pend);
  }

  lemma DeclBuilt(g: Gen, r: Gen, c: Code, pend: set<string>)
    requires |g.blocks| > 0 && Good(g, pend) && Open(g) && Plain(c.instrs) && c.tmp >= g.tmp
    requires r == Straight(g, c).(vars := r.vars)
    ensures Built(g, r, pend, g.lbl) && Open(r)
  {
    hide Good, Within, Labels, HasTerm;
    StraightGood(g, c, pend);
    SameGraph(Straight(g, c), r, pend);
  }

  /** A jump away, then a fresh block that nothing leads to. */
  lemma AwayGood(g: Gen, h: Gen, p: Kind, pend: set<string>)
    requires Built(g, h, pend, g.lbl) && h.lbl == g.lbl && HasTerm(Last(h))
    ensures
      var r := Place(h, Label(p, g.lbl)).(lbl := g.lbl + 1);
      Built(g, r, pend, g.lbl) && Open(r)
  {
    hide Good, Within, Labels, HasTerm, Open, Label, Num;
    var l := Label(p, g.lbl);
    var h' := h.(lbl := g.lbl + 1);
    NotYet(h, l, pend);
    LblGood(h, g.lbl + 1, pend);
    GoodWeaken(h', pend, pend + {l});
    PlaceBuilt(h', l, pend, g.lbl);
    ContinuesTrans(g, h', Place(h', l));
    assert Place(h, l).(lbl := g.lbl + 1) == Place(h', l);
  }

  lemma ReturnGood(cx: Ctx, g: Gen, val: Option<Expr>, pend: set<string>)
    requires Good(g, pend)
    ensures Built(g, EmitReturn(cx, g, val), pend, g.lbl) && Open(EmitReturn(cx, g, val))
  {
    hide Good, Within, Labels, HasTerm, Open, EmitExpr, TempName, Label, Num, Place;
    if val.None? || cx.ret.None? {
      ClosingGood(g, Code([], Lit(0), I32, g.tmp), RetVoid, pend);
      assert [] + [RetVoid] == [RetVoid];
      AwayGood(g, Emit(g, [RetVoid]), Dead, pend);
    } else {
      ExprPlain(cx, g.vars, val.value, g.tmp);
      var v := EmitExpr(cx, g.vars, val.value, g.tmp);
      var c := Coerce(v.op, v.ty, cx.ret.value, v.tmp);
      var t := Ret(cx.ret.value, c.op);
      ClosingGood(g, c.(instrs := v.instrs + c.instrs), t, pend);
      AwayGood(g, Straight(g, c.(instrs := v.instrs + c.instrs + [t])), Dead, pend);
    }
  }

  lemma LeaveGood(g: Gen, target: Option<string>, p: Kind, pend: set<string>)
    requires Good(g, pend)
    requires target.Some? ==> target.value in pend + Labels(g.blocks)
    ensures Built(g, EmitLeave(g, target, p), pend, g.lbl) && Open(EmitLeave(g, target, p))
  {
    hide Good, Within, Labels, HasTerm, Open, Label, Num, Place;
    var t := if target.Some? then Br(target.value) else Unreachable;
    ClosingGood(g, Code([], Lit(0), I32, g.tmp), t, pend);
    assert [] + [t] == [t];
    AwayGood(g, Emit(g, [t]), p, pend);
  }

  // ----- branching and looping statements -----

  /** Mid-construction: `r` is built from `g`; the labels in `avail`, made between counters `n` and `m`,
      may be jumped to but have not been placed. */
  ghost predicate Track(g: Gen, r: Gen, pend: set<string>, n: nat, m: nat, avail: set<string>) {
    && Good(r, pend + avail) && Within(g.blocks, r.blocks) && g.tmp <= r.tmp && g.lbl <= r.lbl && r.bases == g.bases
    && NewFrom(g, r, n) && n <= m <= r.lbl
    && forall l :: l in avail ==> l !in Labels(r.blocks) && n <= Num(l) < m
  }

  lemma TrackGood(g: Gen, r: Gen, pend: set<string>, n: nat, m: nat, avail: set<string>)
    requires Track(g, r, pend, n, m, avail)
    ensures Good(r, pend + avail) && |r.blocks| > 0
  {
  }

  lemma TrackStart(g: Gen, h: Gen, pend: set<string>, m: nat, avail: set<string>)
    requires Good(g, pend) && g.lbl <= m
    requires h == g.(lbl := m, brk := h.brk, cont := h.cont)
    requires h.brk.Some? ==> h.brk.value in pend + avail + Labels(g.blocks)
    requires h.cont.Some? ==> h.cont.value in pend + avail + Labels(g.blocks)
    requires forall l :: l in avail ==> g.lbl <= Num(l) < m
    ensures Track(g, h, pend, g.lbl, m, avail)
    ensures Open(g) ==> Open(h)
  {
    hide HasTerm, Num;
  }

  lemma TrackPlace(g: Gen, r: Gen, pend: set<string>, n: nat, m: nat, avail: set<string>, l: string)
    requires Track(g, r, pend, n, m, avail + {l}) && l !in avail && HasTerm(Last(r))
    ensures
      var k := Place(r, l);
      && Track(g, k, pend, n, m, avail) && Open(k)
      && Labels(k.blocks) == Labels(r.blocks) + {l} && k.brk == r.brk && k.cont == r.cont
  {
    hide Labels, Within, HasTerm, Num, Good;
    GoodWeaken(r, pend + (avail + {l}), (pend + avail) + {l});
    PlaceGood(r, l, pend + avail);
    WithinTrans(g.blocks, r.blocks, Place(r, l).blocks);
  }

  /** A nested construction keeps the labels set aside free. */
  lemma TrackInner(g: Gen, r: Gen, k: Gen, pend: set<string>, n: nat, m: nat, avail: set<string>)
    requires Track(g, r, pend, n, m, avail) && Built(r, k, pend + avail, r.lbl)
    ensures Track(g, k, pend, n, m, avail) && Labels(r.blocks) <= Labels(k.blocks)
    ensures k.brk == r.brk && k.cont == r.cont
  {
    hide Labels, Within, HasTerm, Num, Good;
    WithinTrans(g.blocks, r.blocks, k.blocks);
  }

  lemma TrackBr(g: Gen, r: Gen, l: string, pend: set<string>, n: nat, m: nat, avail: set<string>)
    requires Track(g, r, pend, n, m, avail) && l in pend + avail + Labels(r.blocks)
    ensures
      var k := BrTo(r, l);
      && Track(g, k, pend, n, m, avail) && HasTerm(Last(k)) && Labels(k.blocks) == Labels(r.blocks)
      && k.brk == r.brk && k.cont == r.cont
  {
    hide Labels, Within, HasTerm, Num, Good;
    BrToGood(r, l, pend + avail);
    WithinTrans(g.blocks, r.blocks, BrTo(r, l).blocks);
  }

  lemma TrackBranch(cx: Ctx, g: Gen, r: Gen, c: Expr, t: string, e: string, pend: set<string>, n: nat, m: nat,
                    avail: set<string>)
    requires Track(g, r, pend, n, m, avail)
    requires t in pend + avail + Labels(r.blocks) && e in pend + avail + Labels(r.blocks)
    ensures
      var k := EmitBranch(cx, r, c, t, e);
      && Track(g, k, pend, n, m, avail) && HasTerm(Last(k)) && Labels(k.blocks) == Labels(r.blocks)
      && k.brk == r.brk && k.cont == r.cont
  {
    TrackGood(g, r, pend, n, m, avail);
    hide Labels, Within, HasTerm, Num, Good, EmitBranch, Last, CodeTargets, Open;
    BranchGood(cx, r, c, t, e, pend + avail);
    WithinTrans(g.blocks, r.blocks, EmitBranch(cx, r, c, t, e).blocks);
  }

  /** All labels placed: the construction is built. */
  lemma TrackEnd(g: Gen, r: Gen, k: Gen, pend: set<string>, m: nat)
    requires Track(g, r, pend, g.lbl, m, {}) && Good(g, pend)
    requires k == r.(brk := g.brk, cont := g.cont)
    ensures Built(g, k, pend, g.lbl) && (Open(r) ==> Open(k))
  {
    hide HasTerm, Num;
    GoodWeaken(r, pend + {}, pend);
    LoopLabels(g, pend);
    assert Labels(g.blocks) <= Labels(r.blocks);
  }

  /** A block at label `l` holding a scope, then a jump to `t`. */
  lemma TrackBody(cx: Ctx, g: Gen, r: Gen, l: string, body: Stmts, t: string, pend: set<string>, n: nat, m: nat,
                  avail: set<string>)
    requires Track(g, r, pend, n, m, avail + {l}) && l !in avail && HasTerm(Last(r))
    requires t in pend + avail + {l} + Labels(r.blocks)
    ensures
      var k := BrTo(EmitScope(cx, Place(r, l), body), t);
      && Track(g, k, pend, n, m, avail) && HasTerm(Last(k)) && Labels(r.blocks) + {l} <= Labels(k.blocks)
      && k.brk == r.brk && k.cont == r.cont
    decreases body, 2
  {
    hide Labels, Within, HasTerm, Num, Good, Place, BrTo, EmitScope, Track;
    TrackPlace(g, r, pend, n, m, avail, l);
    var t0 := Place(r, l);
    TrackGood(g, t0, pend, n, m, avail);
    ScopeGood(cx, t0, body, pend + avail);
    var t1 := EmitScope(cx, t0, body);
    TrackInner(g, t0, t1, pend, n, m, avail);
    TrackBr(g, t1, t, pend, n, m, avail);
  }

  lemma TrackElse(cx: Ctx, g: Gen, r: Gen, l: string, s: Stmt, t: string, pend: set<string>, n: nat, m: nat,
                  avail: set<string>)
    requires Track(g, r, pend, n, m, avail + {l}) && l !in avail && HasTerm(Last(r))
    requires t in pend + avail + {l} + Labels(r.blocks)
    ensures
      var k := BrTo(EmitStmt(cx, Place(r, l), s), t);
      && Track(g, k, pend, n, m, avail) && HasTerm(Last(k))
      && k.brk == r.brk && k.cont == r.cont
    decreases s, 2
  {
    hide Labels, Within, HasTerm, Num, Good, Place, BrTo, EmitStmt, Track;
    TrackPlace(g, r, pend, n, m, avail, l);
    var t0 := Place(r, l);
    TrackGood(g, t0, pend, n, m, avail);
    StmtGood(cx, t0, s, pend + avail);
    var t1 := EmitStmt(cx, t0, s);
    TrackInner(g, t0, t1, pend, n, m, avail);
    TrackBr(g, t1, t, pend, n, m, avail);
  }

  lemma IfGood(cx: Ctx, g: Gen, s: Stmt, pend: set<string>)
    requires |g.blocks| > 0 && Good(g, pend) && Open(g) && s.If?
    ensures Built(g, EmitIf(cx, g, s), pend, g.lbl) && Open(EmitIf(cx, g, s))
    decreases s, 0
  {
    hide *;
    var ml := Label(IfM, g.lbl + 2);
    IfDefs(cx, g, s);
    IfElseGood(cx, g, s, pend);
    var h := IfElse(cx, g, s);
    TrackPlace(g, h, pend, g.lbl, g.lbl + 3, {}, ml);
    TrackEnd(g, Place(h, ml), EmitIf(cx, g, s), pend, g.lbl + 3);
  }

  lemma IfElseGood(cx: Ctx, g: Gen, s: Stmt, pend: set<string>)
    requires |g.blocks| > 0 && Good(g, pend) && Open(g) && s.If?
    ensures
      var h := IfElse(cx, g, s);
      && Track(g, h, pend, g.lbl, g.lbl + 3, {} + {Label(IfM, g.lbl + 2)}) && HasTerm(Last(h))
      && h.brk == g.brk && h.cont == g.cont
    decreases s, 0, 1
  {
    hide *;
    var fl, ml := Label(IfF, g.lbl + 1), Label(IfM, g.lbl + 2);
    IfDefs(cx, g, s);
    IfThenGood(cx, g, s, pend);
    if s.els.Some? {
      TrackElse(cx, g, IfThen(cx, g, s), fl, s.els.value, ml, pend, g.lbl, g.lbl + 3, {} + {ml});
    }
  }

  lemma IfThenGood(cx: Ctx, g: Gen, s: Stmt, pend: set<string>)
    requires |g.blocks| > 0 && Good(g, pend) && Open(g) && s.If?
    ensures
      var h, ml := IfThen(cx, g, s), Label(IfM, g.lbl + 2);
      && Track(g, h, pend, g.lbl, g.lbl + 3, if s.els.Some? then {} + {ml} + {Label(IfF, g.lbl + 1)} else {} + {ml})
      && HasTerm(Last(h)) && h.brk == g.brk && h.cont == g.cont
    decreases s, 0, 0
  {
    hide *;
    IfDefs(cx, g, s);
    var n, m := g.lbl, g.lbl + 3;
    var tl, fl, ml := Label(IfT, n), Label(IfF, n + 1), Label(IfM, n + 2);
    var avail := if s.els.Some? then {} + {ml} + {fl} else {} + {ml};
    var h := g.(lbl := m);
    LoopLabels(g, pend);
    TrackStart(g, h, pend, m, avail + {tl});
    TrackBranch(cx, g, h, s.cond, tl, if s.els.Some? then fl else ml, pend, n, m, avail + {tl});
    TrackBody(cx, g, IfTest(cx, g, s), tl, s.thn, ml, pend, n, m, avail);
  }

  // While.

  lemma WhileHeadGood(cx: Ctx, g: Gen, s: Stmt, pend: set<string>)
    requires |g.blocks| > 0 && Good(g, pend) && Open(g) && s.While?
    ensures
      var h, bl, el := WhileHead(g), Label(Wb, g.lbl + 1), Label(We, g.lbl + 2);
      && Track(g, h, pend, g.lbl, g.lbl + 3, {} + {el} + {bl}) && Label(Wh, g.lbl) in Labels(h.blocks)
  {
    hide *;
    var n, m := g.lbl, g.lbl + 3;
    var hl, bl, el := Label(Wh, n), Label(Wb, n + 1), Label(We, n + 2);
    WhileDefs(cx, g, s);
    var h := g.(lbl := m, brk := Some(el), cont := Some(hl));
    TrackStart(g, h, pend, m, {} + {el} + {bl} + {hl});
    TrackBr(g, h, hl, pend, n, m, {} + {el} + {bl} + {hl});
    TrackPlace(g, BrTo(h, hl), pend, n, m, {} + {el} + {bl}, hl);
  }

  lemma WhileBodyGood(cx: Ctx, g: Gen, s: Stmt, pend: set<string>)
    requires |g.blocks| > 0 && Good(g, pend) && Open(g) && s.While?
    ensures
      var h := WhileBody(cx, g, s);
      Track(g, h, pend, g.lbl, g.lbl + 3, {} + {Label(We, g.lbl + 2)}) && HasTerm(Last(h))
    decreases s, 0, 0
  {
    hide *;
    var n, m := g.lbl, g.lbl + 3;
    var hl, bl, el := Label(Wh, n), Label(Wb, n + 1), Label(We, n + 2);
    WhileDefs(cx, g, s);
    WhileHeadGood(cx, g, s, pend);
    TrackBranch(cx, g, WhileHead(g), s.cond, bl, el, pend, n, m, {} + {el} + {bl});
    TrackBody(cx, g, WhileTest(cx, g, s), bl, s.body, hl, pend, n, m, {} + {el});
  }

  lemma WhileGood(cx: Ctx, g: Gen, s: Stmt, pend: set<string>)
    requires |g.blocks| > 0 && Good(g, pend) && Open(g) && s.While?
    ensures Built(g, EmitWhile(cx, g, s), pend, g.lbl) && Open(EmitWhile(cx, g, s))
    decreases s, 0, 1
  {
    hide *;
    var el, h := Label(We, g.lbl + 2), WhileBody(cx, g, s);
    WhileDefs(cx, g, s);
    WhileBodyGood(cx, g, s, pend);
    TrackPlace(g, h, pend, g.lbl, g.lbl + 3, {}, el);
    TrackEnd(g, Place(h, el), EmitWhile(cx, g, s), pend, g.lbl + 3);
  }

  // Do-while.

  lemma DoBodyGood(cx: Ctx, g: Gen, s: Stmt, pend: set<string>)
    requires |g.blocks| > 0 && Good(g, pend) && Open(g) && s.DoWhile?
    ensures
      var h, bl, hl, el := DoBody(cx, g, s), Label(Dw, g.lbl), Label(Dwh, g.lbl + 1), Label(Dwe, g.lbl + 2);
      && Track(g, h, pend, g.lbl, g.lbl + 3, {} + {el} + {hl}) && HasTerm(Last(h))
      && bl in Labels(h.blocks)
    decreases s, 0, 0
  {
    hide *;
    var n, m := g.lbl, g.lbl + 3;
    var bl, hl, el := Label(Dw, n), Label(Dwh, n + 1), Label(Dwe, n + 2);
    DoDefs(cx, g, s);
    var h := g.(lbl := m, brk := Some(el), cont := Some(hl));
    TrackStart(g, h, pend, m, {} + {el} + {hl} + {bl});
    TrackBr(g, h, bl, pend, n, m, {} + {el} + {hl} + {bl});
    TrackBody(cx, g, DoStart(g), bl, s.body, hl, pend, n, m, {} + {el} + {hl});
  }

  lemma DoWhileGood(cx: Ctx, g: Gen, s: Stmt, pend: set<string>)
    requires |g.blocks| > 0 && Good(g, pend) && Open(g) && s.DoWhile?
    ensures Built(g, EmitDoWhile(cx, g, s), pend, g.lbl) && Open(EmitDoWhile(cx, g, s))
    decreases s, 0, 1
  {
    hide *;
    var n, m := g.lbl, g.lbl + 3;
    var bl, hl, el := Label(Dw, n), Label(Dwh, n + 1), Label(Dwe, n + 2);
    DoDefs(cx, g, s);
    DoBodyGood(cx, g, s, pend);
    var b := DoBody(cx, g, s);
    TrackPlace(g, b, pend, n, m, {} + {el}, hl);
    TrackBranch(cx, g, Place(b, hl), s.cond, bl, el, pend, n, m, {} + {el});
    TrackPlace(g, DoTest(cx, g, s), pend, n, m, {}, el);
    TrackEnd(g, Place(DoTest(cx, g, s), el), EmitDoWhile(cx, g, s), pend, m);
  }

  // C-style for. The loop's scope is entered before anything is built, so its graph is tracked from the
  // state after that.

  lemma TrackStraight(g: Gen, r: Gen, c: Code, pend: set<string>, n: nat, m: nat, avail: set<string>)
    requires |r.blocks| > 0 && Track(g, r, pend, n, m, avail) && Open(r) && Plain(c.instrs) && c.tmp >= r.tmp
    ensures
      var k := Straight(r, c);
      && Track(g, k, pend, n, m, avail) && Open(k) && Labels(k.blocks) == Labels(r.blocks)
      && k.brk == r.brk && k.cont == r.cont
  {
    hide Labels, Within, HasTerm, Num, Good;
    StraightGood(r, c, pend + avail);
    WithinTrans(g.blocks, r.blocks, Straight(r, c).blocks);
  }

  lemma ForFirstGood(cx: Ctx, g: Gen, s: Stmt, pend: set<string>)
    requires |g.blocks| > 0 && Good(g, pend) && Open(g) && s.ForC?
    ensures
      var n, h := g.lbl, ForFirst(cx, g, s);
      && Track(ScopePush(g), h, pend, n, n + 4,
               {} + {Label(Fe, n + 3)} + {Label(Fs, n + 2)} + {Label(Fb, n + 1)} + {Label(Fh, n)})
      && Open(h)
    decreases s, 0, 0
  {
    hide *;
    var n, m, e := g.lbl, g.lbl + 4, ScopePush(g);
    var avail := {} + {Label(Fe, n + 3)} + {Label(Fs, n + 2)} + {Label(Fb, n + 1)} + {Label(Fh, n)};
    ForDefs(cx, g, s);
    ScopeDefs(g);
    SameGraph(g, e, pend);
    var h := ForEnter(g);
    TrackStart(e, h, pend, m, avail);
    if s.first.Some? {
      TrackGood(e, h, pend, n, m, avail);
      StmtGood(cx, h, s.first.value, pend + avail);
      TrackInner(e, h, EmitStmt(cx, h, s.first.value), pend, n, m, avail);
    }
  }

  lemma ForTestGood(cx: Ctx, g: Gen, s: Stmt, pend: set<string>)
    requires |g.blocks| > 0 && Good(g, pend) && Open(g) && s.ForC?
    ensures
      var n, h := g.lbl, ForTest(cx, g, s);
      && Track(ScopePush(g), h, pend, n, n + 4, {} + {Label(Fe, n + 3)} + {Label(Fs, n + 2)} + {Label(Fb, n + 1)})
      && HasTerm(Last(h)) && Label(Fh, n) in Labels(h.blocks)
    decreases s, 0, 1
  {
    hide *;
    var n, m, e := g.lbl, g.lbl + 4, ScopePush(g);
    var hl, bl, el := Label(Fh, n), Label(Fb, n + 1), Label(Fe, n + 3);
    var avail := {} + {el} + {Label(Fs, n + 2)} + {bl};
    ForDefs(cx, g, s);
    ForFirstGood(cx, g, s, pend);
    var f := ForFirst(cx, g, s);
    TrackBr(e, f, hl, pend, n, m, avail + {hl});
    TrackPlace(e, BrTo(f, hl), pend, n, m, avail, hl);
    var h := ForHead(cx, g, s);
    if s.test.Some? {
      TrackBranch(cx, e, h, s.test.value, bl, el, pend, n, m, avail);
    } else {
      TrackBr(e, h, bl, pend, n, m, avail);
      OpenBr(h, bl);
    }
  }

  lemma OpenBr(g: Gen, l: string)
    requires |g.blocks| > 0 && Open(g)
    ensures BrTo(g, l) == Emit(g, [Br(l)])
  {
  }

  lemma ForStepGood(cx: Ctx, g: Gen, s: Stmt, pend: set<string>)
    requires |g.blocks| > 0 && Good(g, pend) && Open(g) && s.ForC?
    ensures
      var n, h := g.lbl, ForStep(cx, g, s);
      && Track(ScopePush(g), h, pend, n, n + 4, {} + {Label(Fe, n + 3)})
      && Open(h) && Label(Fh, n) in Labels(h.blocks)
    decreases s, 0, 2
  {
    hide *;
    var n, m, e := g.lbl, g.lbl + 4, ScopePush(g);
    var bl, sl, el := Label(Fb, n + 1), Label(Fs, n + 2), Label(Fe, n + 3);
    ForDefs(cx, g, s);
    ForTestGood(cx, g, s, pend);
    TrackBody(cx, e, ForTest(cx, g, s), bl, s.body, sl, pend, n, m, {} + {el} + {sl});
    TrackPlace(e, ForBody(cx, g, s), pend, n, m, {} + {el}, sl);
    var h := Place(ForBody(cx, g, s), sl);
    if s.step.Some? {
      EffectPlain(cx, h.vars, s.step.value, h.tmp);
      TrackStraight(e, h, EmitEffect(cx, h.vars, s.step.value, h.tmp), pend, n, m, {} + {el});
    }
  }

  lemma ForGood(cx: Ctx, g: Gen, s: Stmt, pend: set<string>)
    requires |g.blocks| > 0 && Good(g, pend) && Open(g) && s.ForC?
    ensures Built(g, EmitFor(cx, g, s), pend, g.lbl) && Open(EmitFor(cx, g, s))
    decreases s, 0, 3
  {
    hide *;
    var n, m, e := g.lbl, g.lbl + 4, ScopePush(g);
    var hl, el := Label(Fh, n), Label(Fe, n + 3);
    ForDefs(cx, g, s);
    ForStepGood(cx, g, s, pend);
    var f := ForStep(cx, g, s);
    TrackBr(e, f, hl, pend, n, m, {} + {el});
    TrackPlace(e, BrTo(f, hl), pend, n, m, {}, el);
    var p := Place(BrTo(f, hl), el);
    ScopeDefs(g);
    SameGraph(g, e, pend);
    var q := p.(brk := g.brk, cont := g.cont);
    TrackEnd(e, p, q, pend, m);
    BuiltBases(e, q, pend);
    ScopeDefs(p);
    LeaveScope(g, q, EmitFor(cx, g, s), pend);
  }

  lemma BuiltBases(g: Gen, r: Gen, pend: set<string>)
    requires Built(g, r, pend, g.lbl)
    ensures r.bases == g.bases && |r.blocks| > 0
  {
  }

  lemma LeaveScope(g: Gen, p: Gen, r: Gen, pend: set<string>)
    requires Built(ScopePush(g), p, pend, g.lbl) && Open(p)
    requires r == p.(vars := r.vars, bases := r.bases) && r.bases == p.bases[..|p.bases| - 1]
    ensures Built(g, r, pend, g.lbl) && Open(r)
  {
    hide Labels, HasTerm, Good, Within;
    SameGraph(p, r, pend);
    assert ScopePush(g).bases[..|g.bases|] == g.bases;
  }

  // Match.

  ghost function ArmLabels(first: nat, n: nat): set<string> {
    set k: nat | first <= k < first + n :: Label(Marm, k)
  }

  lemma ArmLabelsCons(first: nat, n: nat)
    requires n > 0
    ensures ArmLabels(first, n) == ArmLabels(first + 1, n - 1) + {Label(Marm, first)}
    ensures Label(Marm, first) !in ArmLabels(first + 1, n - 1)
    ensures ArmLabels(first, 0) == {}
  {
  }

  lemma PatternPlain(p: Pattern, x: Operand, t: Ty, tmp: nat)
    requires !p.Wildcard?
    ensures Plain(EmitPattern(p, x, t, tmp).instrs)
  {
    hide TempName;
  }

  /** An arm's block: its body in a scope of its own, then a jump past the match. */
  lemma TrackArm(cx: Ctx, g: Gen, r: Gen, l: string, body: Stmt, el: string, pend: set<string>, n: nat, m: nat,
                 avail: set<string>)
    requires |r.blocks| > 0 && Track(g, r, pend, n, m, avail + {l}) && l !in avail && HasTerm(Last(r))
    requires el in pend + avail + Labels(r.blocks)
    ensures
      var k := EmitArm(cx, r, l, body, el);
      && Track(g, k, pend, n, m, avail) && HasTerm(Last(k)) && Labels(r.blocks) <= Labels(k.blocks)
      && k.brk == r.brk && k.cont == r.cont
    decreases body, 2
  {
    hide *;
    ArmDef(cx, r, l, body, el);
    TrackPlace(g, r, pend, n, m, avail, l);
    var t0 := Place(r, l);
    TrackGood(g, t0, pend, n, m, avail);
    ScopeDefs(t0);
    SameGraph(t0, ScopePush(t0), pend + avail);
    StmtGood(cx, ScopePush(t0), body, pend + avail);
    var t1 := EmitStmt(cx, ScopePush(t0), body);
    BuiltBases(ScopePush(t0), t1, pend + avail);
    ScopeDefs(t1);
    LeaveScope(t0, t1, ScopePop(t1), pend + avail);
    TrackInner(g, t0, ScopePop(t1), pend, n, m, avail);
    TrackBr(g, ScopePop(t1), el, pend, n, m, avail);
  }

  /** A label made during construction may be added to those set aside. */
  lemma TrackMore(g: Gen, r: Gen, pend: set<string>, n: nat, m: nat, avail: set<string>, l: string)
    requires Track(g, r, pend, n, m, avail) && Num(l) == r.lbl
    ensures Track(g, r.(lbl := r.lbl + 1), pend, n, r.lbl + 1, avail + {l}) && l !in avail
  {
    hide HasTerm, Within;
    NotYet(r, l, pend + avail);
    LblGood(r, r.lbl + 1, pend + avail);
    GoodWeaken(r.(lbl := r.lbl + 1), pend + avail, pend + (avail + {l}));
  }

  lemma TrackClosing(g: Gen, r: Gen, c: Code, t: Instr, pend: set<string>, n: nat, m: nat, avail: set<string>)
    requires Track(g, r, pend, n, m, avail) && |r.blocks| > 0 && Plain(c.instrs) && c.tmp >= r.tmp
    requires IsTerm(t) && TargetSet(t) <= pend + avail + Labels(r.blocks)
    ensures
      var k := Straight(r, c.(instrs := c.instrs + [t]));
      && Track(g, k, pend, n, m, avail) && HasTerm(Last(k)) && Labels(k.blocks) == Labels(r.blocks)
      && k.brk == r.brk && k.cont == r.cont
  {
    hide Labels, Within, HasTerm, Num, Good;
    ClosingGood(r, c, t, pend + avail);
    WithinTrans(g.blocks, r.blocks, Straight(r, c.(instrs := c.instrs + [t])).blocks);
  }

  lemma TestedGood(cx: Ctx, g: Gen, r: Gen, x: Operand, t: Ty, p: Pattern, body: Stmt, l: string, el: string,
                   pend: set<string>, n: nat, m: nat, avail: set<string>)
    requires |r.blocks| > 0 && Track(g, r, pend, n, m, avail + {l}) && l !in avail && !p.Wildcard?
    requires el in pend + avail + Labels(r.blocks)
    ensures
      var k := EmitTested(cx, r, x, t, p, body, l, el);
      && Track(g, k, pend, n, r.lbl + 1, avail) && Labels(r.blocks) <= Labels(k.blocks)
      && k.brk == r.brk && k.cont == r.cont
    decreases body, 3
  {
    hide *;
    var nl := Label(Mcnext, r.lbl);
    var c := EmitPattern(p, x, t, r.tmp);
    TestedDef(cx, r, x, t, p, body, l, el);
    PatternPlain(p, x, t, r.tmp);
    TrackMore(g, r, pend, n, m, avail + {l}, nl);
    var r' := r.(lbl := r.lbl + 1);
    assert avail + {l} + {nl} == avail + {nl} + {l};
    TestTargets(c.op, l, nl);
    TrackClosing(g, r', c, BrCond(c.op, l, nl), pend, n, r.lbl + 1, avail + {nl} + {l});
    var a := ArmTest(r, x, t, p, l);
    TrackArm(cx, g, a, l, body, el, pend, n, r.lbl + 1, avail + {nl});
    TrackPlace(g, EmitArm(cx, a, l, body, el), pend, n, r.lbl + 1, avail, nl);
  }

  lemma TestTargets(c: Operand, l: string, nl: string)
    ensures TargetSet(BrCond(c, l, nl)) == {l, nl} && TargetSet(Br(l)) == {l}
    ensures IsTerm(BrCond(c, l, nl)) && IsTerm(Br(l))
  {
  }

  lemma WildDef(r: Gen, l: string)
    requires |r.blocks| > 0
    ensures Plain([])
    ensures Emit(r, [Br(l)]) == Straight(r, Code([] + [Br(l)], Lit(0), I32, r.tmp))
  {
    assert [] + [Br(l)] == [Br(l)];
  }

  lemma WildGood(cx: Ctx, g: Gen, r: Gen, body: Stmt, l: string, el: string,
                 pend: set<string>, n: nat, m: nat, avail: set<string>)
    requires |r.blocks| > 0 && Track(g, r, pend, n, m, avail + {l}) && l !in avail
    requires el in pend + avail + Labels(r.blocks)
    ensures
      var k := EmitArm(cx, Emit(r, [Br(l)]), l, body, el);
      && Track(g, k, pend, n, m, avail) && Labels(r.blocks) <= Labels(k.blocks)
      && k.brk == r.brk && k.cont == r.cont
    decreases body, 3
  {
    hide *;
    WildDef(r, l);
    TestTargets(Lit(0), l, l);
    TrackClosing(g, r, Code([], Lit(0), I32, r.tmp), Br(l), pend, n, m, avail + {l});
    TrackArm(cx, g, Emit(r, [Br(l)]), l, body, el, pend, n, m, avail);
  }

  lemma ArmsGood(cx: Ctx, g: Gen, r: Gen, x: Operand, t: Ty, arms: Arms, first: nat, el: string,
                 pend: set<string>, n: nat, m: nat, avail: set<string>)
    requires |r.blocks| > 0 && Track(g, r, pend, n, m, avail + ArmLabels(first, ArmCount(arms)))
    requires el in avail && avail !! ArmLabels(first, ArmCount(arms))
    ensures
      var k := EmitArms(cx, r, x, t, arms, first, el);
      && Track(g, k, pend, n, k.lbl, avail) && k.brk == r.brk && k.cont == r.cont
    decreases arms, 0
  {
    hide *;
    ArmsDef(cx, r, x, t, arms, first, el);
    match arms
    case NoArms =>
      ArmLabelsCons(first, 1);
      assert avail + {} == avail;
      TrackWider(g, r, pend, n, m, avail);
    case MoreArms(p, body, rest) =>
      var l, c := Label(Marm, first), ArmCount(rest);
      ArmLabelsCons(first, c + 1);
      var keep := avail + ArmLabels(first + 1, c);
      assert keep + {l} == avail + ArmLabels(first, c + 1);
      if p.Wildcard? {
        WildGood(cx, g, r, body, l, el, pend, n, m, keep);
        ArmsGood(cx, g, EmitArm(cx, Emit(r, [Br(l)]), l, body, el), x, t, rest, first + 1, el, pend, n, m, avail);
      } else {
        TestedGood(cx, g, r, x, t, p, body, l, el, pend, n, m, keep);
        var k := EmitTested(cx, r, x, t, p, body, l, el);
        ArmsGood(cx, g, k, x, t, rest, first + 1, el, pend, n, r.lbl + 1, avail);
      }
  }

  lemma TrackWider(g: Gen, r: Gen, pend: set<string>, n: nat, m: nat, avail: set<string>)
    requires Track(g, r, pend, n, m, avail)
    ensures Track(g, r, pend, n, r.lbl, avail)
  {
  }

  lemma MatchGood(cx: Ctx, g: Gen, e: Expr, arms: Arms, pend: set<string>)
    requires |g.blocks| > 0 && Good(g, pend) && Open(g)
    ensures Built(g, EmitMatch(cx, g, e, arms), pend, g.lbl) && Open(EmitMatch(cx, g, e, arms))
    decreases arms, 1
  {
    hide *;
    var n, c := g.lbl, ArmCount(arms);
    var m, el := n + 1 + c, Label(Mend, n);
    var v := EmitExpr(cx, g.vars, e, g.tmp);
    var avail := {} + {el};
    MatchDefs(cx, g, e, arms);
    ArmLabelsRange(n + 1, c);
    LoopLabels(g, pend);
    var h := g.(lbl := m);
    TrackStart(g, h, pend, m, avail + ArmLabels(n + 1, c));
    ExprPlain(cx, g.vars, e, g.tmp);
    TrackStraight(g, h, v, pend, n, m, avail + ArmLabels(n + 1, c));
    var r := MatchStart(cx, g, e, arms);
    ArmsGood(cx, g, r, v.op, v.ty, arms, n + 1, el, pend, n, m, avail);
    var k := EmitArms(cx, r, v.op, v.ty, arms, n + 1, el);
    TrackBr(g, k, el, pend, n, k.lbl, avail);
    TrackPlace(g, BrTo(k, el), pend, n, k.lbl, {}, el);
    TrackEnd(g, Place(BrTo(k, el), el), EmitMatch(cx, g, e, arms), pend, k.lbl);
  }

  lemma ArmLabelsRange(first: nat, n: nat)
    ensures forall l :: l in ArmLabels(first, n) ==> first <= Num(l) < first + n
  {
    hide Num, Label;
  }
}
