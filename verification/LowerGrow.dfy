/** Building only appends: every block built so far stays, under its name, as a beginning of what it
    becomes; temps only count up; and a statement leaves the variable table as its scoping promises. */
module LowerGrow {
  import opened Words
  import opened Fir
  import opened Source
  import opened Lower
  import opened LowerDefs
  import LowerGraph

  predicate Appends(g: Gen, r: Gen) {
    Within(g.blocks, r.blocks) && g.tmp <= r.tmp
  }

  /** What a whole statement leaves as it was. */
  predicate Grows(g: Gen, r: Gen) {
    Appends(g, r) && g.vars <= r.vars && r.bases == g.bases && r.brk == g.brk && r.cont == g.cont
  }

  lemma AppendsTrans(a: Gen, b: Gen, c: Gen)
    requires Appends(a, b) && Appends(b, c)
    ensures Appends(a, c)
  {
    hide Within;
    WithinTrans(a.blocks, b.blocks, c.blocks);
  }

  lemma GrowsTrans(a: Gen, b: Gen, c: Gen)
    requires Grows(a, b) && Grows(b, c)
    ensures Grows(a, c)
  {
    hide Within;
    AppendsTrans(a, b, c);
  }

  lemma GrowsDef(g: Gen, r: Gen)
    ensures
      Grows(g, r)
      <==> Appends(g, r) && g.vars <= r.vars && r.bases == g.bases && r.brk == g.brk && r.cont == g.cont
  {
  }

  /** The loop labels, the marks, the variables and the label counter play no part. */
  lemma AppendsOnly(g: Gen, g': Gen, r: Gen, r': Gen)
    requires Appends(g, r) && g'.blocks == g.blocks && g'.tmp == g.tmp && r'.blocks == r.blocks && r'.tmp == r.tmp
    ensures Appends(g', r')
  {
  }

  lemma AppendsSelf(g: Gen)
    ensures Appends(g, g) && Grows(g, g)
  {
  }

  // ----- building steps -----

  lemma EmitGrows(g: Gen, code: seq<Instr>)
    requires |g.blocks| > 0
    ensures Grows(g, Emit(g, code)) && Last(Emit(g, code)) == Last(g) + code
    ensures Emit(g, code) == g.(blocks := Emit(g, code).blocks)
  {
  }

  lemma PlaceGrows(g: Gen, l: string)
    ensures Grows(g, Place(g, l)) && Open(Place(g, l)) && Last(Place(g, l)) == []
    ensures Place(g, l).vars == g.vars && Place(g, l).tmp == g.tmp && Place(g, l).blocks[|g.blocks|].name == l
  {
  }

  lemma BrToGrows(g: Gen, l: string)
    requires |g.blocks| > 0
    ensures Grows(g, BrTo(g, l)) && BrTo(g, l).vars == g.vars && BrTo(g, l).tmp == g.tmp
    ensures Open(g) ==> BrTo(g, l) == Emit(g, [Br(l)])
  {
    EmitGrows(g, [Br(l)]);
  }

  lemma StraightGrows(g: Gen, c: Code)
    requires |g.blocks| > 0 && c.tmp >= g.tmp
    ensures Grows(g, Straight(g, c)) && Straight(g, c).vars == g.vars && Straight(g, c).lbl == g.lbl
    ensures Straight(g, c).tmp == c.tmp
    ensures LowerGraph.Plain(c.instrs) && Open(g) ==> Open(Straight(g, c))
  {
    EmitGrows(g, c.instrs);
  }

  lemma BranchGrows(cx: Ctx, g: Gen, c: Expr, t: string, e: string)
    requires |g.blocks| > 0
    ensures Grows(g, EmitBranch(cx, g, c, t, e)) && EmitBranch(cx, g, c, t, e).vars == g.vars
  {
    hide Within, Emit, EmitTest, Grows;
    var v := EmitTest(cx, g.vars, c, g.tmp);
    StraightGrows(g, v.(instrs := v.instrs + [BrCond(v.op, t, e)]));
  }

  // ----- simple statements -----

  lemma DeclGrows(cx: Ctx, g: Gen, x: string, ty: Option<Ty>, init: Option<Expr>)
    requires |g.blocks| > 0 && Open(g)
    ensures Grows(g, EmitDecl(cx, g, x, ty, init)) && Open(EmitDecl(cx, g, x, ty, init))
  {
    hide DeclCode, DeclEntry, Grows, Straight, Enter, Open;
    LowerGraph.DeclPlain(cx, g.vars, x, ty, init, g.tmp);
    var h, r := Straight(g, DeclCode(cx, g.vars, x, ty, init, g.tmp)), EmitDecl(cx, g, x, ty, init);
    StraightGrows(g, DeclCode(cx, g.vars, x, ty, init, g.tmp));
    EnterMore(g.vars, DeclEntry(cx, g.vars, x, ty, init, g.tmp));
    MoreVars(g, h, r);
  }

  lemma EnterMore(vars: seq<VarEntry>, e: VarEntry)
    ensures vars <= Enter(vars, e)
  {
  }

  lemma MoreVars(g: Gen, h: Gen, r: Gen)
    requires Grows(g, h) && |h.blocks| > 0 && r == h.(vars := r.vars) && g.vars <= r.vars
    ensures Grows(g, r) && (Open(h) ==> Open(r))
  {
    hide Within;
  }

  /** A jump away and a fresh block. */
  lemma AwayGrows(g: Gen, h: Gen, l: string, n: nat)
    requires Grows(g, h)
    ensures
      var r := Place(h, l).(lbl := n);
      Grows(g, r) && Open(r) && r.vars == h.vars
  {
    hide Within, Place;
    PlaceGrows(h, l);
    WithinTrans(g.blocks, h.blocks, Place(h, l).blocks);
  }

  lemma ReturnGrows(cx: Ctx, g: Gen, val: Option<Expr>)
    requires |g.blocks| > 0
    ensures Grows(g, EmitReturn(cx, g, val)) && Open(EmitReturn(cx, g, val)) && EmitReturn(cx, g, val).vars == g.vars
  {
    hide Grows, Emit, EmitExpr, Label, Place, Open, Coerce, Straight;
    if val.None? || cx.ret.None? {
      EmitGrows(g, [RetVoid]);
      AwayGrows(g, Emit(g, [RetVoid]), Label(Dead, g.lbl), g.lbl + 1);
    } else {
      var v := EmitExpr(cx, g.vars, val.value, g.tmp);
      var c := Coerce(v.op, v.ty, cx.ret.value, v.tmp);
      var c' := c.(instrs := v.instrs + c.instrs + [Ret(cx.ret.value, c.op)]);
      StraightGrows(g, c');
      AwayGrows(g, Straight(g, c'), Label(Dead, g.lbl), g.lbl + 1);
    }
  }

  lemma LeaveGrows(g: Gen, target: Option<string>, k: Kind)
    requires |g.blocks| > 0
    ensures Grows(g, EmitLeave(g, target, k)) && Open(EmitLeave(g, target, k)) && EmitLeave(g, target, k).vars == g.vars
  {
    hide Grows, Emit, Label, Place, Open;
    var t := if target.Some? then Br(target.value) else Unreachable;
    EmitGrows(g, [t]);
    AwayGrows(g, Emit(g, [t]), Label(k, g.lbl), g.lbl + 1);
  }

  lemma EffectGrows(cx: Ctx, g: Gen, eff: Effect)
    requires |g.blocks| > 0 && Open(g)
    ensures
      var r := Straight(g, EmitEffect(cx, g.vars, eff, g.tmp));
      Grows(g, r) && Open(r) && r.vars == g.vars
  {
    hide *;
    LowerGraph.EffectPlain(cx, g.vars, eff, g.tmp);
    StraightGrows(g, EmitEffect(cx, g.vars, eff, g.tmp));
  }

  // ----- all statements -----

  /** Else branches are blocks or further ifs, and a for starts with a declaration or an effect, as the
      parser builds them. */
  predicate Shaped(s: Stmt) {
    match s
    case If(_, _, els) => els.Some? ==> (els.value.If? || els.value.Scope?) && Shaped(els.value)
    case ForC(first, _, _, _) => first.Some? ==> first.value.Decl? || first.value.Do?
    case _ => true
  }

  lemma ShapedElse(s: Stmt)
    requires s.If? && Shaped(s) && s.els.Some?
    ensures Shaped(s.els.value) && !s.els.value.Decl?
  {
  }

  lemma SamePosition(g: Gen, h: Gen)
    requires g.blocks == h.blocks && |g.blocks| > 0
    ensures Open(g) <==> Open(h)
  {
  }

  /** Entering and leaving a scope around a construction restores the table. */
  lemma ScopeAround(g: Gen, r: Gen)
    requires Grows(ScopePush(g), r) && |r.blocks| > 0
    ensures Grows(g, ScopePop(r)) && ScopePop(r).vars == g.vars && (Open(ScopePop(r)) <==> Open(r))
  {
    hide Within;
    assert ScopePush(g).bases[..|g.bases|] == g.bases;
  }

  lemma ScopeGrows(cx: Ctx, g: Gen, ss: Stmts)
    requires |g.blocks| > 0 && Open(g)
    ensures
      var r := EmitScope(cx, g, ss);
      Grows(g, r) && Open(r) && r.vars == g.vars
    decreases ss, 1
  {
    hide Grows, Open, EmitStmts;
    SamePosition(g, ScopePush(g));
    StmtsGrow(cx, ScopePush(g), ss);
    ScopeAround(g, EmitStmts(cx, ScopePush(g), ss));
  }

  lemma StmtsGrow(cx: Ctx, g: Gen, ss: Stmts)
    requires |g.blocks| > 0 && Open(g)
    ensures Grows(g, EmitStmts(cx, g, ss)) && Open(EmitStmts(cx, g, ss))
    decreases ss, 0
  {
    match ss
    case NoStmts =>
    case MoreStmts(s, rest) =>
      hide Grows, Open, EmitStmt;
      var h := EmitStmt(cx, g, s);
      StmtGrows(cx, g, s);
      StmtsGrow(cx, h, rest);
      GrowsTrans(g, h, EmitStmts(cx, h, rest));
  }

  lemma StmtGrows(cx: Ctx, g: Gen, s: Stmt)
    requires |g.blocks| > 0 && Open(g)
    ensures
      var r := EmitStmt(cx, g, s);
      Grows(g, r) && Open(r) && (Shaped(s) && !s.Decl? ==> r.vars == g.vars)
    decreases s, 1
  {
    hide *;
    StmtDefs(cx, g, s);
    match s
    case Decl(x, ty, init, _) => DeclGrows(cx, g, x, ty, init);
    case Do(eff) => EffectGrows(cx, g, eff);
    case Return(val) => ReturnGrows(cx, g, val);
    case If(_, _, _) => IfGrows(cx, g, s);
    case While(_, _) => WhileGrows(cx, g, s);
    case DoWhile(_, _) => DoGrows(cx, g, s);
    case ForC(_, _, _, _) => ForGrows(cx, g, s);
    case Match(e, arms) => MatchGrows(cx, g, e, arms);
    case Break => LeaveGrows(g, g.brk, Brkd);
    case Continue => LeaveGrows(g, g.cont, Cntd);
    case Scope(body) => ScopeGrows(cx, g, body);
  }

  /** A labelled block holding a scope, then a jump. */
  lemma BodyGrows(cx: Ctx, r: Gen, l: string, body: Stmts, t: string)
    ensures
      var p := Place(r, l);
      var e := EmitScope(cx, p, body);
      var k := BrTo(e, t);
      && Grows(r, k) && Appends(p, k) && Appends(e, k) && Open(e) && k.vars == r.vars && e.vars == r.vars
    decreases body, 2
  {
    hide *;
    var p := Place(r, l);
    PlaceGrows(r, l);
    ScopeGrows(cx, p, body);
    var e := EmitScope(cx, p, body);
    BrToGrows(e, t);
    GrowsTrans(r, p, e);
    GrowsTrans(r, e, BrTo(e, t));
    GrowsDef(p, e);
    GrowsDef(e, BrTo(e, t));
    AppendsTrans(p, e, BrTo(e, t));
  }

  /** Every stage of an if is a beginning of the whole. */
  lemma IfGrows(cx: Ctx, g: Gen, s: Stmt)
    requires |g.blocks| > 0 && s.If?
    ensures
      var r := EmitIf(cx, g, s);
      && Grows(g, r) && Open(r) && (Shaped(s) ==> r.vars == g.vars)
      && Appends(IfTest(cx, g, s), r) && Appends(IfThen(cx, g, s), r) && Appends(IfElse(cx, g, s), r)
      && IfTest(cx, g, s).vars == g.vars && IfThen(cx, g, s).vars == g.vars
      && Grows(g, IfTest(cx, g, s)) && Grows(g, IfThen(cx, g, s))
    ensures
      s.els.Some? ==>
        var r, p := EmitIf(cx, g, s), Place(IfThen(cx, g, s), Label(IfF, g.lbl + 1));
        var e := EmitStmt(cx, p, s.els.value);
        Appends(p, r) && Appends(e, r) && Open(e) && (Shaped(s) ==> e.vars == g.vars)
    decreases s, 0
  {
    hide *;
    var tl, fl, ml := Label(IfT, g.lbl), Label(IfF, g.lbl + 1), Label(IfM, g.lbl + 2);
    IfDefs(cx, g, s);
    var a, b, c := IfTest(cx, g, s), IfThen(cx, g, s), IfElse(cx, g, s);
    LblGrows(g, g.lbl + 3);
    BranchGrows(cx, g.(lbl := g.lbl + 3), s.cond, tl, if s.els.Some? then fl else ml);
    GrowsTrans(g, g.(lbl := g.lbl + 3), a);
    BodyGrows(cx, a, tl, s.thn, ml);
    GrowsTrans(g, a, b);
    if s.els.Some? {
      PlaceGrows(b, fl);
      var p := Place(b, fl);
      StmtGrows(cx, p, s.els.value);
      if Shaped(s) { ShapedElse(s); }
      GrowsTrans(b, p, EmitStmt(cx, p, s.els.value));
      BrToGrows(EmitStmt(cx, p, s.els.value), ml);
      GrowsTrans(b, EmitStmt(cx, p, s.els.value), c);
    } else {
      AppendsSelf(b);
    }
    PlaceGrows(c, ml);
    GrowsTrans(b, c, EmitIf(cx, g, s));
    GrowsTrans(g, b, EmitIf(cx, g, s));
    GrowsTrans(a, b, EmitIf(cx, g, s));
    GrowsDef(a, EmitIf(cx, g, s));
    GrowsDef(b, EmitIf(cx, g, s));
    GrowsDef(c, EmitIf(cx, g, s));
    if s.els.Some? {
      var p := Place(b, fl);
      var e := EmitStmt(cx, p, s.els.value);
      GrowsTrans(p, e, c);
      GrowsTrans(e, c, EmitIf(cx, g, s));
      GrowsTrans(p, c, EmitIf(cx, g, s));
      GrowsDef(p, EmitIf(cx, g, s));
      GrowsDef(e, EmitIf(cx, g, s));
    }
  }

  lemma LblGrows(g: Gen, n: nat)
    ensures Grows(g, g.(lbl := n))
  {
  }

  lemma WhileGrows(cx: Ctx, g: Gen, s: Stmt)
    requires |g.blocks| > 0 && s.While?
    ensures
      var r := EmitWhile(cx, g, s);
      && Grows(g, r) && Open(r) && r.vars == g.vars
      && Appends(WhileHead(g), r) && Appends(WhileTest(cx, g, s), r) && Appends(WhileBody(cx, g, s), r)
      && WhileHead(g).vars == g.vars && WhileTest(cx, g, s).vars == g.vars
      && WhileTest(cx, g, s).brk == Some(Label(We, g.lbl + 2)) && WhileTest(cx, g, s).cont == Some(Label(Wh, g.lbl))
    decreases s, 0
  {
    hide *;
    var hl, bl, el := Label(Wh, g.lbl), Label(Wb, g.lbl + 1), Label(We, g.lbl + 2);
    WhileDefs(cx, g, s);
    var a, b, c, r := WhileHead(g), WhileTest(cx, g, s), WhileBody(cx, g, s), EmitWhile(cx, g, s);
    var h := g.(lbl := g.lbl + 3, brk := Some(el), cont := Some(hl));
    BrToGrows(h, hl);
    PlaceGrows(BrTo(h, hl), hl);
    GrowsTrans(h, BrTo(h, hl), a);
    BranchGrows(cx, a, s.cond, bl, el);
    BodyGrows(cx, b, bl, s.body, hl);
    PlaceGrows(c, el);
    var q := Place(c, el);
    GrowsTrans(b, c, q);
    GrowsTrans(a, b, q);
    GrowsTrans(h, a, q);
    Restored(g, h, a, q, r);
    Restored(g, h, b, q, r);
    Restored(g, h, c, q, r);
  }

  /** The loop labels are put back at the end. */
  lemma Restored(g: Gen, h: Gen, a: Gen, q: Gen, r: Gen)
    requires h == g.(lbl := h.lbl, brk := h.brk, cont := h.cont) && r == q.(brk := g.brk, cont := g.cont)
    requires Grows(h, q) && Grows(a, q)
    ensures Grows(g, r) && Appends(a, r) && r.vars == q.vars && h.vars == g.vars
    ensures a.brk == h.brk && a.cont == h.cont
    ensures |q.blocks| > 0 && Open(q) ==> Open(r)
  {
    hide Within;
  }

  lemma DoGrows(cx: Ctx, g: Gen, s: Stmt)
    requires |g.blocks| > 0 && s.DoWhile?
    ensures
      var r := EmitDoWhile(cx, g, s);
      && Grows(g, r) && Open(r) && r.vars == g.vars
      && Appends(DoStart(g), r) && Appends(DoBody(cx, g, s), r) && Appends(DoTest(cx, g, s), r)
      && DoStart(g).vars == g.vars && DoBody(cx, g, s).vars == g.vars
      && DoStart(g).brk == Some(Label(Dwe, g.lbl + 2)) && DoStart(g).cont == Some(Label(Dwh, g.lbl + 1))
    decreases s, 0
  {
    hide *;
    var bl, hl, el := Label(Dw, g.lbl), Label(Dwh, g.lbl + 1), Label(Dwe, g.lbl + 2);
    DoDefs(cx, g, s);
    var a, b, c, r := DoStart(g), DoBody(cx, g, s), DoTest(cx, g, s), EmitDoWhile(cx, g, s);
    var h := g.(lbl := g.lbl + 3, brk := Some(el), cont := Some(hl));
    BrToGrows(h, bl);
    BodyGrows(cx, a, bl, s.body, hl);
    PlaceGrows(b, hl);
    BranchGrows(cx, Place(b, hl), s.cond, bl, el);
    GrowsTrans(b, Place(b, hl), c);
    PlaceGrows(c, el);
    var q := Place(c, el);
    GrowsTrans(b, c, q);
    GrowsTrans(a, b, q);
    GrowsTrans(h, a, q);
    Restored(g, h, a, q, r);
    Restored(g, h, b, q, r);
    Restored(g, h, c, q, r);
  }

  lemma ForGrows(cx: Ctx, g: Gen, s: Stmt)
    requires |g.blocks| > 0 && s.ForC? && Open(g)
    ensures
      var r := EmitFor(cx, g, s);
      && Grows(g, r) && Open(r) && r.vars == g.vars
      && Appends(ForFirst(cx, g, s), r) && Appends(ForHead(cx, g, s), r) && Appends(ForTest(cx, g, s), r)
      && Appends(ForBody(cx, g, s), r) && Appends(ForStep(cx, g, s), r)
      && var v := ForFirst(cx, g, s).vars;
      && g.vars <= v && ForHead(cx, g, s).vars == v && ForTest(cx, g, s).vars == v && ForBody(cx, g, s).vars == v
      && ForStep(cx, g, s).vars == v && Open(ForFirst(cx, g, s)) && Open(ForStep(cx, g, s))
      && ForTest(cx, g, s).brk == Some(Label(Fe, g.lbl + 3)) && ForTest(cx, g, s).cont == Some(Label(Fs, g.lbl + 2))
    decreases s, 0
  {
    hide *;
    var hl, bl, sl, el := Label(Fh, g.lbl), Label(Fb, g.lbl + 1), Label(Fs, g.lbl + 2), Label(Fe, g.lbl + 3);
    ForDefs(cx, g, s);
    ScopeDefs(g);
    var h, i, a, b, c, d, r := ForEnter(g), ForFirst(cx, g, s), ForHead(cx, g, s), ForTest(cx, g, s), ForBody(cx, g, s),
        ForStep(cx, g, s), EmitFor(cx, g, s);
    SamePosition(g, h);
    if s.first.Some? { StmtGrows(cx, h, s.first.value); } else { AppendsSelf(h); }
    BrToGrows(i, hl);
    PlaceGrows(BrTo(i, hl), hl);
    GrowsTrans(i, BrTo(i, hl), a);
    if s.test.Some? { BranchGrows(cx, a, s.test.value, bl, el); } else { EmitGrows(a, [Br(bl)]); }
    BodyGrows(cx, b, bl, s.body, sl);
    PlaceGrows(c, sl);
    if s.step.Some? { EffectGrows(cx, Place(c, sl), s.step.value); } else { AppendsSelf(Place(c, sl)); }
    GrowsTrans(c, Place(c, sl), d);
    BrToGrows(d, hl);
    PlaceGrows(BrTo(d, hl), el);
    var q := Place(BrTo(d, hl), el);
    GrowsTrans(d, BrTo(d, hl), q);
    GrowsTrans(c, d, q);
    GrowsTrans(b, c, q);
    GrowsTrans(a, b, q);
    GrowsTrans(i, a, q);
    GrowsTrans(h, i, q);
    GrowsDef(h, q);
    GrowsDef(h, i);
    GrowsDef(a, b);
    GrowsDef(i, a);
    ForRestored(g, h, d, q, r);
    ForRestored(g, h, c, q, r);
    ForRestored(g, h, b, q, r);
    ForRestored(g, h, a, q, r);
    ForRestored(g, h, i, q, r);
  }

  lemma ForRestored(g: Gen, h: Gen, a: Gen, q: Gen, r: Gen)
    requires h == ScopePush(g).(lbl := h.lbl, brk := h.brk, cont := h.cont)
    requires r == ScopePop(q).(brk := g.brk, cont := g.cont)
    requires Grows(h, q) && Grows(a, q)
    ensures Grows(g, r) && Appends(a, r) && r.vars == g.vars && a.brk == h.brk && a.cont == h.cont
    ensures |q.blocks| > 0 && Open(q) ==> Open(r)
  {
    hide Within;
    assert (g.bases + [|g.vars|])[..|g.bases|] == g.bases;
  }

  lemma ArmGrows(cx: Ctx, r: Gen, l: string, body: Stmt, el: string)
    requires |r.blocks| > 0
    ensures
      var p := ScopePush(Place(r, l));
      var e := ScopePop(EmitStmt(cx, p, body));
      var k := EmitArm(cx, r, l, body, el);
      && Grows(r, k) && k.vars == r.vars && k == BrTo(e, el) && Open(e) && e.vars == r.vars
      && Appends(Place(r, l), k) && Appends(EmitStmt(cx, p, body), k) && Appends(e, k)
    decreases body, 2
  {
    hide *;
    ArmDef(cx, r, l, body, el);
    PlaceGrows(r, l);
    var p := ScopePush(Place(r, l));
    ScopeDefs(Place(r, l));
    SamePosition(Place(r, l), p);
    StmtGrows(cx, p, body);
    var i := EmitStmt(cx, p, body);
    ScopeAround(Place(r, l), i);
    ScopeDefs(i);
    GrowsTrans(r, Place(r, l), ScopePop(i));
    var k := EmitArm(cx, r, l, body, el);
    BrToGrows(ScopePop(i), el);
    GrowsTrans(r, ScopePop(i), k);
    GrowsTrans(Place(r, l), ScopePop(i), k);
    GrowsDef(Place(r, l), k);
    GrowsDef(ScopePop(i), k);
    PopTmp(i);
    AppendsOnly(ScopePop(i), i, k, k);
  }

  lemma PopTmp(g: Gen)
    ensures ScopePop(g).tmp == g.tmp
  {
  }

  /** The next arm starts from a later state of the same table. */
  lemma ArmNextGrows(cx: Ctx, r: Gen, x: Operand, t: Ty, arms: Arms, first: nat, el: string)
    requires |r.blocks| > 0 && arms.MoreArms?
    ensures
      var h, l := ArmNext(cx, r, x, t, arms, first, el), Label(Marm, first);
      && Grows(r, h) && h.vars == r.vars
      && (arms.pat.Wildcard? ==>
            && h == EmitArm(cx, Emit(r, [Br(l)]), l, arms.body, el)
            && Appends(Emit(r, [Br(l)]), h) && Emit(r, [Br(l)]).vars == r.vars)
      && (!arms.pat.Wildcard? ==>
            var a := ArmTest(r, x, t, arms.pat, l);
            var e := EmitArm(cx, a, l, arms.body, el);
            && Appends(a, h) && Appends(e, h) && h == Place(e, Label(Mcnext, r.lbl)) && a.vars == r.vars && Grows(r, a))
    decreases arms, 0
  {
    hide *;
    ArmsDef(cx, r, x, t, arms, first, el);
    var l := Label(Marm, first);
    if arms.pat.Wildcard? {
      EmitGrows(r, [Br(l)]);
      ArmGrows(cx, Emit(r, [Br(l)]), l, arms.body, el);
      GrowsTrans(r, Emit(r, [Br(l)]), EmitArm(cx, Emit(r, [Br(l)]), l, arms.body, el));
      GrowsDef(Emit(r, [Br(l)]), EmitArm(cx, Emit(r, [Br(l)]), l, arms.body, el));
    } else {
      TestedDef(cx, r, x, t, arms.pat, arms.body, l, el);
      var c, nl := EmitPattern(arms.pat, x, t, r.tmp), Label(Mcnext, r.lbl);
      var a := ArmTest(r, x, t, arms.pat, l);
      LblGrows(r, r.lbl + 1);
      StraightGrows(r.(lbl := r.lbl + 1), c.(instrs := c.instrs + [BrCond(c.op, l, nl)]));
      GrowsTrans(r, r.(lbl := r.lbl + 1), a);
      ArmGrows(cx, a, l, arms.body, el);
      var e := EmitArm(cx, a, l, arms.body, el);
      GrowsTrans(r, a, e);
      PlaceGrows(e, nl);
      GrowsTrans(r, e, Place(e, nl));
      GrowsTrans(a, e, Place(e, nl));
      GrowsDef(a, Place(e, nl));
      GrowsDef(e, Place(e, nl));
    }
  }

  lemma ArmsGrow(cx: Ctx, r: Gen, x: Operand, t: Ty, arms: Arms, first: nat, el: string)
    requires |r.blocks| > 0
    ensures
      var k := EmitArms(cx, r, x, t, arms, first, el);
      && Grows(r, k) && k.vars == r.vars
      && (arms.MoreArms? ==> Appends(ArmNext(cx, r, x, t, arms, first, el), k))
    decreases arms, 1
  {
    hide *;
    ArmsDef(cx, r, x, t, arms, first, el);
    AppendsSelf(r);
    match arms
    case NoArms =>
    case MoreArms(_, _, rest) =>
      var h := ArmNext(cx, r, x, t, arms, first, el);
      ArmNextGrows(cx, r, x, t, arms, first, el);
      ArmsGrow(cx, h, x, t, rest, first + 1, el);
      GrowsTrans(r, h, EmitArms(cx, h, x, t, rest, first + 1, el));
      GrowsDef(h, EmitArms(cx, h, x, t, rest, first + 1, el));
  }

  lemma MatchGrows(cx: Ctx, g: Gen, e: Expr, arms: Arms)
    requires |g.blocks| > 0
    ensures
      var v, el := EmitExpr(cx, g.vars, e, g.tmp), Label(Mend, g.lbl);
      var a, r := MatchStart(cx, g, e, arms), EmitMatch(cx, g, e, arms);
      var b := EmitArms(cx, a, v.op, v.ty, arms, g.lbl + 1, el);
      && Grows(g, r) && Open(r) && r.vars == g.vars && Grows(g, a) && a.vars == g.vars && a.tmp == v.tmp
      && Appends(a, r) && Appends(b, r) && Appends(MatchArms(cx, g, e, arms), r) && b.vars == g.vars
    decreases arms, 2
  {
    hide *;
    var v, el := EmitExpr(cx, g.vars, e, g.tmp), Label(Mend, g.lbl);
    MatchDefs(cx, g, e, arms);
    var a, c, r := MatchStart(cx, g, e, arms), MatchArms(cx, g, e, arms), EmitMatch(cx, g, e, arms);
    var g' := g.(lbl := g.lbl + 1 + ArmCount(arms));
    LblGrows(g, g'.lbl);
    StraightGrows(g', v);
    GrowsTrans(g, g', a);
    ArmsGrow(cx, a, v.op, v.ty, arms, g.lbl + 1, el);
    var b := EmitArms(cx, a, v.op, v.ty, arms, g.lbl + 1, el);
    BrToGrows(b, el);
    PlaceGrows(c, el);
    GrowsTrans(b, c, r);
    GrowsTrans(a, b, r);
    GrowsTrans(g, a, r);
    GrowsDef(a, r);
    GrowsDef(b, r);
    GrowsDef(c, r);
  }
}
