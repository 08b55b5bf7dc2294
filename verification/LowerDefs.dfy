/** The stages in which statements are built, spelled out one equation at a time. */
module LowerDefs {
  import opened Words
  import opened Fir
  import opened Source
  import opened Lower

  lemma WithinTrans(a: seq<Block>, b: seq<Block>, c: seq<Block>)
    requires Within(a, b) && Within(b, c)
    ensures Within(a, c)
  {
  }

  lemma StmtDefs(cx: Ctx, g: Gen, s: Stmt)
    requires |g.blocks| > 0
    ensures
      EmitStmt(cx, g, s) ==
      match s
      case Decl(x, ty, init, _) => EmitDecl(cx, g, x, ty, init)
      case Do(eff) => Straight(g, EmitEffect(cx, g.vars, eff, g.tmp))
      case Return(val) => EmitReturn(cx, g, val)
      case If(_, _, _) => EmitIf(cx, g, s)
      case While(_, _) => EmitWhile(cx, g, s)
      case DoWhile(_, _) => EmitDoWhile(cx, g, s)
      case ForC(_, _, _, _) => EmitFor(cx, g, s)
      case Match(e, arms) => EmitMatch(cx, g, e, arms)
      case Break => EmitLeave(g, g.brk, Brkd)
      case Continue => EmitLeave(g, g.cont, Cntd)
      case Scope(body) => EmitScope(cx, g, body)
  {
    hide EmitDecl, Straight, EmitEffect, EmitReturn, EmitIf, EmitWhile, EmitDoWhile, EmitFor, EmitMatch, EmitLeave,
        EmitScope;
  }

  lemma IfDefs(cx: Ctx, g: Gen, s: Stmt)
    requires |g.blocks| > 0 && s.If?
    ensures
      var tl, fl, ml := Label(IfT, g.lbl), Label(IfF, g.lbl + 1), Label(IfM, g.lbl + 2);
      && IfTest(cx, g, s) == EmitBranch(cx, g.(lbl := g.lbl + 3), s.cond, tl, if s.els.Some? then fl else ml)
      && IfThen(cx, g, s) == BrTo(EmitScope(cx, Place(IfTest(cx, g, s), tl), s.thn), ml)
      && (s.els.Some? ==> IfElse(cx, g, s) == BrTo(EmitStmt(cx, Place(IfThen(cx, g, s), fl), s.els.value), ml))
      && (s.els.None? ==> IfElse(cx, g, s) == IfThen(cx, g, s))
      && EmitIf(cx, g, s) == Place(IfElse(cx, g, s), ml)
  {
    hide Label, EmitBranch, EmitScope, EmitStmt, Place, BrTo;
  }

  lemma WhileDefs(cx: Ctx, g: Gen, s: Stmt)
    requires |g.blocks| > 0 && s.While?
    ensures
      var hl, bl, el := Label(Wh, g.lbl), Label(Wb, g.lbl + 1), Label(We, g.lbl + 2);
      && WhileHead(g) == Place(BrTo(g.(lbl := g.lbl + 3, brk := Some(el), cont := Some(hl)), hl), hl)
      && WhileTest(cx, g, s) == EmitBranch(cx, WhileHead(g), s.cond, bl, el)
      && WhileBody(cx, g, s) == BrTo(EmitScope(cx, Place(WhileTest(cx, g, s), bl), s.body), hl)
      && EmitWhile(cx, g, s) == Place(WhileBody(cx, g, s), el).(brk := g.brk, cont := g.cont)
  {
    hide Label, EmitBranch, EmitScope, Place, BrTo;
  }

  lemma DoDefs(cx: Ctx, g: Gen, s: Stmt)
    requires |g.blocks| > 0 && s.DoWhile?
    ensures
      var bl, hl, el := Label(Dw, g.lbl), Label(Dwh, g.lbl + 1), Label(Dwe, g.lbl + 2);
      && DoStart(g) == BrTo(g.(lbl := g.lbl + 3, brk := Some(el), cont := Some(hl)), bl)
      && DoBody(cx, g, s) == BrTo(EmitScope(cx, Place(DoStart(g), bl), s.body), hl)
      && DoTest(cx, g, s) == EmitBranch(cx, Place(DoBody(cx, g, s), hl), s.cond, bl, el)
      && EmitDoWhile(cx, g, s) == Place(DoTest(cx, g, s), el).(brk := g.brk, cont := g.cont)
  {
    hide Label, EmitBranch, EmitScope, Place, BrTo;
  }

  lemma ForDefs(cx: Ctx, g: Gen, s: Stmt)
    requires |g.blocks| > 0 && s.ForC?
    ensures
      var hl, bl, sl, el := Label(Fh, g.lbl), Label(Fb, g.lbl + 1), Label(Fs, g.lbl + 2), Label(Fe, g.lbl + 3);
      && ForEnter(g) == ScopePush(g).(lbl := g.lbl + 4, brk := Some(el), cont := Some(sl))
      && ForFirst(cx, g, s) == (if s.first.Some? then EmitStmt(cx, ForEnter(g), s.first.value) else ForEnter(g))
      && ForHead(cx, g, s) == Place(BrTo(ForFirst(cx, g, s), hl), hl)
      && (s.test.Some? ==> ForTest(cx, g, s) == EmitBranch(cx, ForHead(cx, g, s), s.test.value, bl, el))
      && (s.test.None? ==> ForTest(cx, g, s) == Emit(ForHead(cx, g, s), [Br(bl)]))
      && ForBody(cx, g, s) == BrTo(EmitScope(cx, Place(ForTest(cx, g, s), bl), s.body), sl)
      && EmitFor(cx, g, s)
           == ScopePop(Place(BrTo(ForStep(cx, g, s), hl), el)).(brk := g.brk, cont := g.cont)
    ensures
      var h := Place(ForBody(cx, g, s), Label(Fs, g.lbl + 2));
      ForStep(cx, g, s) == if s.step.Some? then Straight(h, EmitEffect(cx, h.vars, s.step.value, h.tmp)) else h
  {
    hide Label, EmitBranch, EmitScope, EmitStmt, Place, BrTo, EmitEffect, Straight, Emit;
  }

  lemma ScopeDefs(g: Gen)
    ensures ScopePush(g) == g.(bases := g.bases + [|g.vars|])
    ensures ScopePop(g).blocks == g.blocks && ScopePop(g) == g.(vars := ScopePop(g).vars, bases := ScopePop(g).bases)
    ensures |g.bases| > 0 ==> ScopePop(g).bases == g.bases[..|g.bases| - 1]
  {
  }

  lemma ArmDef(cx: Ctx, r: Gen, l: string, body: Stmt, el: string)
    requires |r.blocks| > 0
    ensures EmitArm(cx, r, l, body, el) == BrTo(ScopePop(EmitStmt(cx, ScopePush(Place(r, l)), body)), el)
  {
  }

  lemma TestedDef(cx: Ctx, r: Gen, x: Operand, t: Ty, p: Pattern, body: Stmt, l: string, el: string)
    requires |r.blocks| > 0 && !p.Wildcard?
    ensures
      var c, nl := EmitPattern(p, x, t, r.tmp), Label(Mcnext, r.lbl);
      && ArmTest(r, x, t, p, l) == Straight(r.(lbl := r.lbl + 1), c.(instrs := c.instrs + [BrCond(c.op, l, nl)]))
      && EmitTested(cx, r, x, t, p, body, l, el) == Place(EmitArm(cx, ArmTest(r, x, t, p, l), l, body, el), nl)
  {
    hide Label, EmitPattern;
  }

  /** The state after the first arm. */
  function ArmNext(cx: Ctx, r: Gen, x: Operand, t: Ty, arms: Arms, first: nat, el: string): (h: Gen)
    requires |r.blocks| > 0 && arms.MoreArms?
    ensures |h.blocks| >= |r.blocks|
  {
    var l := Label(Marm, first);
    if arms.pat.Wildcard? then EmitArm(cx, Emit(r, [Br(l)]), l, arms.body, el)
    else EmitTested(cx, r, x, t, arms.pat, arms.body, l, el)
  }

  lemma ArmsDef(cx: Ctx, r: Gen, x: Operand, t: Ty, arms: Arms, first: nat, el: string)
    requires |r.blocks| > 0
    ensures arms.NoArms? ==> EmitArms(cx, r, x, t, arms, first, el) == r && ArmCount(arms) == 0
    ensures
      arms.MoreArms? ==>
        && ArmNext(cx, r, x, t, arms, first, el)
             == (if arms.pat.Wildcard?
                 then EmitArm(cx, Emit(r, [Br(Label(Marm, first))]), Label(Marm, first), arms.body, el)
                 else EmitTested(cx, r, x, t, arms.pat, arms.body, Label(Marm, first), el))
        && ArmCount(arms) == ArmCount(arms.rest) + 1
        && EmitArms(cx, r, x, t, arms, first, el)
             == EmitArms(cx, ArmNext(cx, r, x, t, arms, first, el), x, t, arms.rest, first + 1, el)
  {
    hide Label, EmitArm, EmitTested, Emit;
  }

  lemma MatchDefs(cx: Ctx, g: Gen, e: Expr, arms: Arms)
    requires |g.blocks| > 0
    ensures
      var v, el := EmitExpr(cx, g.vars, e, g.tmp), Label(Mend, g.lbl);
      var r := MatchStart(cx, g, e, arms);
      && r == Straight(g.(lbl := g.lbl + 1 + ArmCount(arms)), v)
      && MatchArms(cx, g, e, arms) == BrTo(EmitArms(cx, r, v.op, v.ty, arms, g.lbl + 1, el), el)
      && EmitMatch(cx, g, e, arms) == Place(MatchArms(cx, g, e, arms), el)
  {
    hide Label, EmitExpr, EmitArms, Place, BrTo, Straight, ArmCount;
    LblApart(g, g.lbl + 1 + ArmCount(arms), EmitExpr(cx, g.vars, e, g.tmp));
  }

  /** Straight-line code has nothing to do with labels. */
  lemma LblApart(g: Gen, n: nat, c: Code)
    requires |g.blocks| > 0 && c.tmp >= g.tmp
    ensures Straight(g.(lbl := n), c) == Straight(g, c).(lbl := n)
  {
  }
}
