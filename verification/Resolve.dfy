/** The checker and the generator resolve names alike: along both traversals of a function's body, at every
    name that they look up, the nested scopes and the flat table give the same declaration. */
module Resolve {
  import opened Words
  import opened Fir
  import opened Source
  import opened Sema
  import opened Check
  import opened Lower
  import opened LowerGrow
  import opened LowerFn

  // ----- room in the table -----

  /** The name `_` is declared with the type of its initialiser. */
  predicate Drops(s: Stmt) { s.Decl? && Discarded(s.x, s.ty, s.init) }

  /** At each declaration fewer than 256 variables are live, and none is of that kind. */
  predicate Fits(s: Stmt, n: nat)
    decreases s, 0
  {
    Shaped(s) &&
    match s
    case Decl(_, _, _, _) => n < MAX_VARS && !Drops(s)
    case If(_, thn, els) => AllFit(thn, n) && (els.Some? ==> Fits(els.value, n))
    case While(_, body) => AllFit(body, n)
    case DoWhile(body, _) => AllFit(body, n)
    case ForC(first, _, _, body) => (first.Some? ==> Fits(first.value, n)) && AllFit(body, FirstCount(first, n))
    case Match(_, arms) => ArmsFit(arms, n)
    case Scope(body) => AllFit(body, n)
    case _ => true
  }

  function CountAfter(s: Stmt, n: nat): nat { if s.Decl? then n + 1 else n }

  function FirstCount(first: Option<Stmt>, n: nat): nat {
    if first.Some? then CountAfter(first.value, n) else n
  }

  predicate AllFit(ss: Stmts, n: nat)
    decreases ss, 0
  {
    match ss
    case NoStmts => true
    case MoreStmts(s, rest) => Fits(s, n) && AllFit(rest, CountAfter(s, n))
  }

  predicate ArmsFit(arms: Arms, n: nat)
    decreases arms, 0
  {
    match arms
    case NoArms => true
    case MoreArms(_, body, rest) => Fits(body, n) && ArmsFit(rest, n)
  }

  // ----- both traversals, side by side -----

  /** Every name in an expression, callees included. */
  ghost predicate ExprAgrees(scs: Scopes, hidden: nat, vars: seq<VarEntry>, e: Expr)
    decreases e
  {
    match e
    case Var(x) => SameDecl(scs, hidden, vars, x)
    case Unary(_, e1) => ExprAgrees(scs, hidden, vars, e1)
    case Binary(_, l, r) => ExprAgrees(scs, hidden, vars, l) && ExprAgrees(scs, hidden, vars, r)
    case CallFn(fn, args) => SameDecl(scs, hidden, vars, fn) && ArgsAgree(scs, hidden, vars, args)
    case _ => true
  }

  ghost predicate ArgsAgree(scs: Scopes, hidden: nat, vars: seq<VarEntry>, es: Exprs)
    decreases es
  {
    match es
    case NoExprs => true
    case MoreExprs(e, rest) => ExprAgrees(scs, hidden, vars, e) && ArgsAgree(scs, hidden, vars, rest)
  }

  ghost predicate EffectAgrees(scs: Scopes, hidden: nat, vars: seq<VarEntry>, eff: Effect) {
    match eff
    case Assign(x, e) => SameDecl(scs, hidden, vars, x) && ExprAgrees(scs, hidden, vars, e)
    case Compound(_, x, e) => SameDecl(scs, hidden, vars, x) && ExprAgrees(scs, hidden, vars, e)
    case Increment(x) => SameDecl(scs, hidden, vars, x)
    case Decrement(x) => SameDecl(scs, hidden, vars, x)
    case Eval(e) => ExprAgrees(scs, hidden, vars, e)
  }

  /** The checker meets each name in the scopes on the left, the generator in the table of the stage at
      which it emits that part. */
  ghost predicate StmtAgrees(cx: Ctx, scs: Scopes, hidden: nat, g: Gen, s: Stmt)
    requires |g.blocks| > 0
    decreases s, 0
  {
    match s
    case Decl(_, _, init, _) => init.Some? ==> ExprAgrees(scs, hidden, g.vars, init.value)
    case Do(eff) => EffectAgrees(scs, hidden, g.vars, eff)
    case Return(val) => val.Some? ==> ExprAgrees(scs, hidden, g.vars, val.value)
    case If(c, thn, els) =>
      && ExprAgrees(scs, hidden, g.vars, c) && BlockAgrees(cx, scs, hidden, ThenStart(cx, g, s), thn)
      && (els.Some? ==> StmtAgrees(cx, scs, hidden, ElseStart(cx, g, s), els.value))
    case While(c, body) =>
      ExprAgrees(scs, hidden, WhileHead(g).vars, c) && BlockAgrees(cx, scs, hidden, WhileStart(cx, g, s), body)
    case DoWhile(body, c) =>
      && BlockAgrees(cx, scs, hidden, Place(DoStart(g), Label(Dw, g.lbl)), body)
      && ExprAgrees(scs, hidden, Place(DoBody(cx, g, s), Label(Dwh, g.lbl + 1)).vars, c)
    case ForC(first, test, step, body) =>
      var inner := FirstScopes(ScPush(scs), first);
      && (first.Some? ==> StmtAgrees(cx, ScPush(scs), hidden, ForEnter(g), first.value))
      && (test.Some? ==> ExprAgrees(inner, hidden, ForHead(cx, g, s).vars, test.value))
      && BlockAgrees(cx, inner, hidden, ForStart(cx, g, s), body)
      && (step.Some? ==> EffectAgrees(inner, hidden, Place(ForBody(cx, g, s), Label(Fs, g.lbl + 2)).vars, step.value))
    case Match(e, arms) =>
      var v := EmitExpr(cx, g.vars, e, g.tmp);
      && ExprAgrees(scs, hidden, g.vars, e)
      && ArmsAgree(cx, scs, hidden, MatchStart(cx, g, e, arms), v.op, v.ty, arms, g.lbl + 1, Label(Mend, g.lbl))
    case Scope(body) => BlockAgrees(cx, scs, hidden, g, body)
    case _ => true
  }

  ghost predicate BlockAgrees(cx: Ctx, scs: Scopes, hidden: nat, g: Gen, ss: Stmts)
    requires |g.blocks| > 0
    decreases ss, 1
  {
    AllAgree(cx, ScPush(scs), hidden, ScopePush(g), ss)
  }

  ghost predicate AllAgree(cx: Ctx, scs: Scopes, hidden: nat, g: Gen, ss: Stmts)
    requires |g.blocks| > 0
    decreases ss, 0
  {
    match ss
    case NoStmts => true
    case MoreStmts(s, rest) =>
      StmtAgrees(cx, scs, hidden, g, s) && AllAgree(cx, ScAfter(scs, s), hidden, EmitStmt(cx, g, s), rest)
  }

  ghost predicate ArmsAgree(cx: Ctx, scs: Scopes, hidden: nat, g: Gen, x: Operand, t: Ty, arms: Arms, first: nat,
                            el: string)
    requires |g.blocks| > 0
    decreases arms, 0
  {
    match arms
    case NoArms => true
    case MoreArms(p, body, rest) =>
      && StmtAgrees(cx, ScPush(scs), hidden, ScopePush(ArmStart(g, x, t, p, first)), body)
      && ArmsAgree(cx, scs, hidden, ArmEnd(cx, g, x, t, p, body, first, el), x, t, rest, first + 1, el)
  }

  // Where the parts of a statement start.

  function ThenStart(cx: Ctx, g: Gen, s: Stmt): (r: Gen)
    requires |g.blocks| > 0 && s.If?
    ensures |r.blocks| > 0
  {
    Place(IfTest(cx, g, s), Label(IfT, g.lbl))
  }

  function ElseStart(cx: Ctx, g: Gen, s: Stmt): (r: Gen)
    requires |g.blocks| > 0 && s.If?
    ensures |r.blocks| > 0
  {
    Place(IfThen(cx, g, s), Label(IfF, g.lbl + 1))
  }

  function WhileStart(cx: Ctx, g: Gen, s: Stmt): (r: Gen)
    requires |g.blocks| > 0 && s.While?
    ensures |r.blocks| > 0
  {
    Place(WhileTest(cx, g, s), Label(Wb, g.lbl + 1))
  }

  function ForStart(cx: Ctx, g: Gen, s: Stmt): (r: Gen)
    requires |g.blocks| > 0 && s.ForC?
    ensures |r.blocks| > 0
  {
    Place(ForTest(cx, g, s), Label(Fb, g.lbl + 1))
  }

  function ArmStart(g: Gen, x: Operand, t: Ty, p: Pattern, first: nat): (r: Gen)
    requires |g.blocks| > 0
    ensures |r.blocks| > 0
  {
    var l := Label(Marm, first);
    Place(if p.Wildcard? then Emit(g, [Br(l)]) else ArmTest(g, x, t, p, l), l)
  }

  function ArmEnd(cx: Ctx, g: Gen, x: Operand, t: Ty, p: Pattern, body: Stmt, first: nat, el: string): (r: Gen)
    requires |g.blocks| > 0
    ensures |r.blocks| > 0
  {
    var l := Label(Marm, first);
    if p.Wildcard? then EmitArm(cx, Emit(g, [Br(l)]), l, body, el) else EmitTested(cx, g, x, t, p, body, l, el)
  }

  // ----- building steps leave the table alone -----

  /** The same table and marks. */
  predicate Kept(g: Gen, r: Gen) {
    r.vars == g.vars && r.bases == g.bases
  }

  lemma {:induction false} StepsKeep(g: Gen, l: string, code: seq<Instr>)
    requires |g.blocks| > 0
    ensures Kept(g, Place(g, l)) && Open(Place(g, l)) && |Place(g, l).blocks| > 0
    ensures Kept(g, BrTo(g, l)) && Kept(g, Emit(g, code))
  {
  }

  lemma {:induction false} BranchKeeps(cx: Ctx, g: Gen, c: Expr, thn: string, els: string)
    requires |g.blocks| > 0
    ensures Kept(g, EmitBranch(cx, g, c, thn, els))
  {
    hide EmitTest;
  }

  lemma {:induction false} BlockKeeps(cx: Ctx, g: Gen, ss: Stmts)
    requires |g.blocks| > 0 && Open(g)
    ensures Kept(g, EmitScope(cx, g, ss)) && Open(EmitScope(cx, g, ss))
  {
    hide Open, EmitScope;
    ScopeGrows(cx, g, ss);
  }

  /** After every statement that does not find the table full: the table holds what the scopes hold if and only
      if the statement does not discard a value whose type is not written. */
  lemma {:induction false} StmtTracks(cx: Ctx, scs: Scopes, hidden: nat, g: Gen, s: Stmt)
    requires |g.blocks| > 0 && Open(g) && Tracks(scs, hidden, g) && Shaped(s) && (s.Decl? ==> |g.vars| < MAX_VARS)
    ensures Tracks(ScAfter(scs, s), hidden, EmitStmt(cx, g, s)) <==> !Drops(s)
    ensures Open(EmitStmt(cx, g, s)) && (!Drops(s) ==> |EmitStmt(cx, g, s).vars| == CountAfter(s, |g.vars|))
  {
    hide Tracks, Open, EmitStmt, SlotName, DeclEntry, Enter, Discarded;
    var r := EmitStmt(cx, g, s);
    StmtGrows(cx, g, s);
    if Drops(s) {
      DeclTable(cx, g, s);
      OneBehind(scs, hidden, g, r, Sym(s.x, s.mut));
    } else if s.Decl? {
      var e := DeclEntry(cx, g.vars, s.x, s.ty, s.init, g.tmp);
      DeclTable(cx, g, s);
      DefineTracks(scs, hidden, g, Sym(s.x, s.mut), e);
      SameTable(ScAfter(scs, s), hidden, g.(vars := Enter(g.vars, e)), r);
      OneMore(g.vars, e);
    } else {
      SameTable(scs, hidden, g, r);
    }
  }

  lemma {:induction false} FitsParts(s: Stmt, n: nat)
    requires Fits(s, n)
    ensures Shaped(s) && !Drops(s) && (s.Decl? ==> n < MAX_VARS)
  {
    hide AllFit, ArmsFit, Discarded;
  }

  lemma {:induction false} DeclTable(cx: Ctx, g: Gen, s: Stmt)
    requires |g.blocks| > 0 && s.Decl?
    ensures
      var r, e := EmitStmt(cx, g, s), DeclEntry(cx, g.vars, s.x, s.ty, s.init, g.tmp);
      r.bases == g.bases && e.name == s.x && r.vars == if Drops(s) then g.vars else Enter(g.vars, e)
  {
    hide DeclCode, EmitExpr, Enter, DeclSlot;
  }

  /** A declaration that only the checker enters. */
  lemma {:induction false} OneBehind(scs: Scopes, hidden: nat, g: Gen, r: Gen, s: Sym)
    requires Tracks(scs, hidden, g) && r.vars == g.vars
    ensures !Tracks(ScDef(scs, s), hidden, r)
  {
    FlatSteps(scs, s);
  }

  lemma {:induction false} OneMore(vars: seq<VarEntry>, e: VarEntry)
    requires |vars| < MAX_VARS
    ensures |Enter(vars, e)| == |vars| + 1
  {
  }

  // ----- every name along the way -----

  lemma {:induction false} ExprResolves(scs: Scopes, hidden: nat, g: Gen, e: Expr)
    requires Tracks(scs, hidden, g)
    ensures ExprAgrees(scs, hidden, g.vars, e)
    decreases e
  {
    hide Tracks, SameDecl;
    match e
    case Var(x) => LookupsAgree(scs, hidden, g, x);
    case Unary(_, e1) => ExprResolves(scs, hidden, g, e1);
    case Binary(_, l, r) =>
      ExprResolves(scs, hidden, g, l);
      ExprResolves(scs, hidden, g, r);
    case CallFn(fn, args) =>
      LookupsAgree(scs, hidden, g, fn);
      ArgsResolve(scs, hidden, g, args);
    case _ =>
  }

  lemma {:induction false} ArgsResolve(scs: Scopes, hidden: nat, g: Gen, es: Exprs)
    requires Tracks(scs, hidden, g)
    ensures ArgsAgree(scs, hidden, g.vars, es)
    decreases es
  {
    hide Tracks;
    match es
    case NoExprs =>
    case MoreExprs(e, rest) =>
      ExprResolves(scs, hidden, g, e);
      ArgsResolve(scs, hidden, g, rest);
  }

  lemma {:induction false} EffectResolves(scs: Scopes, hidden: nat, g: Gen, eff: Effect)
    requires Tracks(scs, hidden, g)
    ensures EffectAgrees(scs, hidden, g.vars, eff)
  {
    hide Tracks, SameDecl;
    if !eff.Eval? { LookupsAgree(scs, hidden, g, eff.x); }
    if eff.Assign? || eff.Compound? || eff.Eval? { ExprResolves(scs, hidden, g, eff.e); }
  }

  /** For every statement that fits the table, from every pair of tables in step: at every name that the two
      traversals look up inside it they find the same declaration. */
  lemma {:induction false} StmtResolves(cx: Ctx, scs: Scopes, hidden: nat, g: Gen, s: Stmt)
    requires |g.blocks| > 0 && Open(g) && Tracks(scs, hidden, g) && Fits(s, |g.vars|)
    ensures StmtAgrees(cx, scs, hidden, g, s)
    decreases s, 1
  {
    hide Tracks, Open, ExprAgrees, EffectAgrees;
    match s
    case Decl(_, _, init, _) => if init.Some? { ExprResolves(scs, hidden, g, init.value); }
    case Do(eff) => EffectResolves(scs, hidden, g, eff);
    case Return(val) => if val.Some? { ExprResolves(scs, hidden, g, val.value); }
    case If(_, _, _) => IfResolves(cx, scs, hidden, g, s);
    case While(_, _) => WhileResolves(cx, scs, hidden, g, s);
    case DoWhile(_, _) => DoResolves(cx, scs, hidden, g, s);
    case ForC(_, _, _, _) => ForResolves(cx, scs, hidden, g, s);
    case Match(e, arms) => MatchResolves(cx, scs, hidden, g, e, arms);
    case Scope(body) => BlockResolves(cx, scs, hidden, g, body);
    case _ =>
  }

  lemma {:induction false} BlockResolves(cx: Ctx, scs: Scopes, hidden: nat, g: Gen, ss: Stmts)
    requires |g.blocks| > 0 && Open(g) && Tracks(scs, hidden, g) && AllFit(ss, |g.vars|)
    ensures BlockAgrees(cx, scs, hidden, g, ss)
    decreases ss, 2
  {
    hide Tracks;
    EnterTracks(scs, hidden, g);
    AllResolve(cx, ScPush(scs), hidden, ScopePush(g), ss);
  }

  lemma {:induction false} AllResolve(cx: Ctx, scs: Scopes, hidden: nat, g: Gen, ss: Stmts)
    requires |g.blocks| > 0 && Open(g) && Tracks(scs, hidden, g) && AllFit(ss, |g.vars|)
    ensures AllAgree(cx, scs, hidden, g, ss)
    decreases ss, 1
  {
    hide Tracks, Open, EmitStmt, StmtAgrees, Fits, Drops;
    match ss
    case NoStmts =>
    case MoreStmts(s, rest) =>
      StmtResolves(cx, scs, hidden, g, s);
      FitsParts(s, |g.vars|);
      StmtTracks(cx, scs, hidden, g, s);
      AllResolve(cx, ScAfter(scs, s), hidden, EmitStmt(cx, g, s), rest);
  }

  lemma {:induction false} IfResolves(cx: Ctx, scs: Scopes, hidden: nat, g: Gen, s: Stmt)
    requires |g.blocks| > 0 && Open(g) && Tracks(scs, hidden, g) && s.If? && Fits(s, |g.vars|)
    ensures StmtAgrees(cx, scs, hidden, g, s)
    decreases s, 0
  {
    hide Tracks, Open, ExprAgrees, EmitBranch, EmitScope, Place, BrTo, Label;
    ExprResolves(scs, hidden, g, s.cond);
    var tl, fl, ml := Label(IfT, g.lbl), Label(IfF, g.lbl + 1), Label(IfM, g.lbl + 2);
    var a, b := IfTest(cx, g, s), ThenStart(cx, g, s);
    BranchKeeps(cx, g.(lbl := g.lbl + 3), s.cond, tl, if s.els.Some? then fl else ml);
    StepsKeep(a, tl, []);
    SameTable(scs, hidden, g, b);
    BlockResolves(cx, scs, hidden, b, s.thn);
    if s.els.Some? {
      BlockKeeps(cx, b, s.thn);
      StepsKeep(EmitScope(cx, b, s.thn), ml, []);
      StepsKeep(IfThen(cx, g, s), fl, []);
      SameTable(scs, hidden, g, ElseStart(cx, g, s));
      StmtResolves(cx, scs, hidden, ElseStart(cx, g, s), s.els.value);
    }
  }

  lemma {:induction false} WhileResolves(cx: Ctx, scs: Scopes, hidden: nat, g: Gen, s: Stmt)
    requires |g.blocks| > 0 && Open(g) && Tracks(scs, hidden, g) && s.While? && Fits(s, |g.vars|)
    ensures StmtAgrees(cx, scs, hidden, g, s)
    decreases s, 0
  {
    hide Tracks, Open, ExprAgrees, EmitBranch, EmitScope, Place, BrTo, Label;
    var hl, bl, el := Label(Wh, g.lbl), Label(Wb, g.lbl + 1), Label(We, g.lbl + 2);
    var h := SetLoop(g.(lbl := g.lbl + 3), Some(el), Some(hl));
    var a, b := WhileHead(g), WhileStart(cx, g, s);
    StepsKeep(h, hl, []);
    StepsKeep(BrTo(h, hl), hl, []);
    BranchKeeps(cx, a, s.cond, bl, el);
    StepsKeep(WhileTest(cx, g, s), bl, []);
    SameTable(scs, hidden, g, a);
    SameTable(scs, hidden, g, b);
    ExprResolves(scs, hidden, a, s.cond);
    BlockResolves(cx, scs, hidden, b, s.body);
  }

  lemma {:induction false} DoResolves(cx: Ctx, scs: Scopes, hidden: nat, g: Gen, s: Stmt)
    requires |g.blocks| > 0 && Open(g) && Tracks(scs, hidden, g) && s.DoWhile? && Fits(s, |g.vars|)
    ensures StmtAgrees(cx, scs, hidden, g, s)
    decreases s, 0
  {
    hide Tracks, Open, ExprAgrees, EmitBranch, EmitScope, Place, BrTo, Label;
    var dl, hl, el := Label(Dw, g.lbl), Label(Dwh, g.lbl + 1), Label(Dwe, g.lbl + 2);
    var a := Place(DoStart(g), dl);
    StepsKeep(SetLoop(g.(lbl := g.lbl + 3), Some(el), Some(hl)), dl, []);
    StepsKeep(DoStart(g), dl, []);
    SameTable(scs, hidden, g, a);
    BlockResolves(cx, scs, hidden, a, s.body);
    BlockKeeps(cx, a, s.body);
    StepsKeep(EmitScope(cx, a, s.body), hl, []);
    var b := Place(DoBody(cx, g, s), hl);
    StepsKeep(DoBody(cx, g, s), hl, []);
    SameTable(scs, hidden, g, b);
    ExprResolves(scs, hidden, b, s.cond);
  }

  lemma {:induction false} ForResolves(cx: Ctx, scs: Scopes, hidden: nat, g: Gen, s: Stmt)
    requires |g.blocks| > 0 && Open(g) && Tracks(scs, hidden, g) && s.ForC? && Fits(s, |g.vars|)
    ensures StmtAgrees(cx, scs, hidden, g, s)
    decreases s, 0
  {
    hide Tracks, Open, ExprAgrees, EffectAgrees, EmitStmt, EmitBranch, EmitScope, Place, BrTo, Label;
    var fh, fb, fe := Label(Fh, g.lbl), Label(Fb, g.lbl + 1), Label(Fe, g.lbl + 3);
    var inner, a := FirstScopes(ScPush(scs), s.first), ForFirst(cx, g, s);
    ForEnters(cx, scs, hidden, g, s);
    if s.first.Some? { StmtResolves(cx, ScPush(scs), hidden, ForEnter(g), s.first.value); }
    StepsKeep(a, fh, []);
    StepsKeep(BrTo(a, fh), fh, []);
    var h := ForHead(cx, g, s);
    SameTable(inner, hidden, a, h);
    if s.test.Some? {
      ExprResolves(inner, hidden, h, s.test.value);
      BranchKeeps(cx, h, s.test.value, fb, fe);
    } else {
      StepsKeep(h, fb, [Br(fb)]);
    }
    StepsKeep(ForTest(cx, g, s), fb, []);
    SameTable(inner, hidden, h, ForStart(cx, g, s));
    ForBodyResolves(cx, inner, hidden, g, s);
  }

  lemma {:induction false} ForBodyResolves(cx: Ctx, inner: Scopes, hidden: nat, g: Gen, s: Stmt)
    requires |g.blocks| > 0 && s.ForC?
    requires
      var b := ForStart(cx, g, s);
      Open(b) && Tracks(inner, hidden, b) && AllFit(s.body, |b.vars|)
    ensures BlockAgrees(cx, inner, hidden, ForStart(cx, g, s), s.body)
    ensures
      var c := Place(ForBody(cx, g, s), Label(Fs, g.lbl + 2));
      s.step.Some? ==> EffectAgrees(inner, hidden, c.vars, s.step.value)
    decreases s, 0, 0
  {
    hide Tracks, Open, EffectAgrees, ForTest, EmitScope, Place, BrTo, Label, BlockAgrees;
    var fs, b := Label(Fs, g.lbl + 2), ForStart(cx, g, s);
    BlockResolves(cx, inner, hidden, b, s.body);
    BlockKeeps(cx, b, s.body);
    StepsKeep(EmitScope(cx, b, s.body), fs, []);
    var c := Place(ForBody(cx, g, s), fs);
    StepsKeep(ForBody(cx, g, s), fs, []);
    SameTable(inner, hidden, b, c);
    if s.step.Some? { EffectResolves(inner, hidden, c, s.step.value); }
  }

  /** The loop's own scope, with its variable if it declares one. */
  lemma {:induction false} ForEnters(cx: Ctx, scs: Scopes, hidden: nat, g: Gen, s: Stmt)
    requires |g.blocks| > 0 && Open(g) && Tracks(scs, hidden, g) && s.ForC? && Fits(s, |g.vars|)
    ensures
      var e, a := ForEnter(g), ForFirst(cx, g, s);
      && Tracks(ScPush(scs), hidden, e) && Open(e) && |e.vars| == |g.vars|
      && Tracks(FirstScopes(ScPush(scs), s.first), hidden, a) && |a.vars| == FirstCount(s.first, |g.vars|)
  {
    hide Tracks, EmitStmt, Label, ScAfter, Drops;
    EnterTracks(scs, hidden, g);
    SameTable(ScPush(scs), hidden, ScopePush(g), ForEnter(g));
    if s.first.Some? {
      FitsParts(s.first.value, |g.vars|);
      StmtTracks(cx, ScPush(scs), hidden, ForEnter(g), s.first.value);
    }
  }

  lemma {:induction false} MatchResolves(cx: Ctx, scs: Scopes, hidden: nat, g: Gen, e: Expr, arms: Arms)
    requires |g.blocks| > 0 && Open(g) && Tracks(scs, hidden, g) && Fits(Match(e, arms), |g.vars|)
    ensures StmtAgrees(cx, scs, hidden, g, Match(e, arms))
    decreases arms, 2
  {
    hide Tracks, ExprAgrees, EmitExpr, Label;
    ExprResolves(scs, hidden, g, e);
    var v, a := EmitExpr(cx, g.vars, e, g.tmp), MatchStart(cx, g, e, arms);
    SameTable(scs, hidden, g, a);
    ArmsResolve(cx, scs, hidden, a, v.op, v.ty, arms, g.lbl + 1, Label(Mend, g.lbl));
  }

  lemma {:induction false} ArmsResolve(cx: Ctx, scs: Scopes, hidden: nat, g: Gen, x: Operand, t: Ty, arms: Arms,
                                       first: nat, el: string)
    requires |g.blocks| > 0 && Tracks(scs, hidden, g) && ArmsFit(arms, |g.vars|)
    ensures ArmsAgree(cx, scs, hidden, g, x, t, arms, first, el)
    decreases arms, 1
  {
    hide Tracks, Open, EmitStmt, StmtAgrees, Fits, ArmStart, ArmEnd;
    match arms
    case NoArms =>
    case MoreArms(p, body, rest) =>
      var a := ArmStart(g, x, t, p, first);
      ArmKeeps(cx, g, x, t, p, body, first, el);
      SameTable(scs, hidden, g, a);
      EnterTracks(scs, hidden, a);
      SamePosition(a, ScopePush(a));
      StmtResolves(cx, ScPush(scs), hidden, ScopePush(a), body);
      var r := ArmEnd(cx, g, x, t, p, body, first, el);
      SameTable(scs, hidden, g, r);
      ArmsResolve(cx, scs, hidden, r, x, t, rest, first + 1, el);
  }

  lemma {:induction false} ArmKeeps(cx: Ctx, g: Gen, x: Operand, t: Ty, p: Pattern, body: Stmt, first: nat, el: string)
    requires |g.blocks| > 0
    ensures
      var a := ArmStart(g, x, t, p, first);
      Kept(g, a) && Open(a) && Kept(g, ArmEnd(cx, g, x, t, p, body, first, el))
  {
    hide Open, EmitStmt, EmitPattern, Place, BrTo, Label;
    var l := Label(Marm, first);
    var h := if p.Wildcard? then Emit(g, [Br(l)]) else ArmTest(g, x, t, p, l);
    var a := ArmStart(g, x, t, p, first);
    StepsKeep(h, l, []);
    SamePosition(a, ScopePush(a));
    StmtGrows(cx, ScopePush(a), body);
    var r := EmitStmt(cx, ScopePush(a), body);
    ScopeAround(a, r);
    StepsKeep(ScopePop(r), el, []);
    assert EmitArm(cx, h, l, body, el) == BrTo(ScopePop(r), el);
    StepsKeep(BrTo(ScopePop(r), el), Label(Mcnext, g.lbl), []);
    StepsKeep(g, l, [Br(l)]);
  }

  // ----- functions -----

  function ParamSyms(ps: seq<Param>, muts: seq<bool>): seq<Sym>
    requires |ps| == |muts|
  {
    seq(|ps|, i requires 0 <= i < |ps| => Sym(ps[i].name, muts[i]))
  }

  /** The scope that the checker opens for a function: `self`, then the parameters. */
  function FnScopes(outer: Scopes, ps: seq<Param>, muts: seq<bool>): Scopes
    requires |ps| == |muts|
  {
    outer + [[Sym("self", false)] + ParamSyms(ps, muts)]
  }

  lemma {:induction false} OneParam(outer: Scopes, ps: seq<Param>, muts: seq<bool>)
    requires |ps| == |muts| && ps != []
    ensures
      var k := |ps| - 1;
      ScDef(FnScopes(outer, ps[..k], muts[..k]), Sym(ps[k].name, muts[k])) == FnScopes(outer, ps, muts)
  {
    var k, self := |ps| - 1, [Sym("self", false)];
    var before, syms := FnScopes(outer, ps[..k], muts[..k]), ParamSyms(ps[..k], muts[..k]);
    assert ParamSyms(ps, muts) == syms + [Sym(ps[k].name, muts[k])];
    assert before[|outer|] + [Sym(ps[k].name, muts[k])] == self + ParamSyms(ps, muts);
    assert ScDef(before, Sym(ps[k].name, muts[k])) == FnScopes(outer, ps, muts);
  }

  lemma {:induction false} SelfTracks(outer: Scopes, tmp: nat, lbl: nat)
    ensures Tracks(FnScopes(outer, [], []), |Flat(outer)| + 1, FnStart(tmp, lbl)) && Open(FnStart(tmp, lbl))
  {
    var scs := FnScopes(outer, [], []);
    assert scs[..|outer|] == outer;
  }

  lemma {:induction false} ParamsTrack(outer: Scopes, ps: seq<Param>, muts: seq<bool>, tmp: nat, lbl: nat)
    requires |ps| == |muts| && |ps| <= MAX_VARS
    ensures
      var g := EmitParams(FnStart(tmp, lbl), ps);
      Tracks(FnScopes(outer, ps, muts), |Flat(outer)| + 1, g) && Open(g) && |g.vars| == |ps|
    decreases |ps|
  {
    hide SlotName, ArgName, Tracks, FnScopes, ScDef, Flat;
    if ps == [] {
      assert muts == [];
      SelfTracks(outer, tmp, lbl);
    } else {
      var k := |ps| - 1;
      var g0 := EmitParams(FnStart(tmp, lbl), ps[..k]);
      ParamsTrack(outer, ps[..k], muts[..k], tmp, lbl);
      var before, s := FnScopes(outer, ps[..k], muts[..k]), Sym(ps[k].name, muts[k]);
      DefineTracks(before, |Flat(outer)| + 1, g0, s, VarEntry(s.name, ps[k].ty, SlotName(s.name)));
      OneParam(outer, ps, muts);
      var g := EmitParams(FnStart(tmp, lbl), ps);
      SameTable(ScDef(before, s), |Flat(outer)| + 1, g0.(vars := VarDef(g0.vars, s.name, ps[k].ty)), g);
    }
  }

  /** For every function within 256 live variables, under whatever is declared outside it: every name in its
      body means the same to the checker and to the generator. */
  lemma {:induction false} FnResolves(cx: Ctx, outer: Scopes, ps: seq<Param>, muts: seq<bool>, body: Stmts, tmp: nat,
                                      lbl: nat)
    requires |ps| == |muts| && |ps| <= MAX_VARS && AllFit(body, |ps|)
    ensures BlockAgrees(cx, FnScopes(outer, ps, muts), |Flat(outer)| + 1, EmitParams(FnStart(tmp, lbl), ps), body)
  {
    hide *;
    ParamsTrack(outer, ps, muts, tmp, lbl);
    BlockResolves(cx, FnScopes(outer, ps, muts), |Flat(outer)| + 1, EmitParams(FnStart(tmp, lbl), ps), body);
  }
}
