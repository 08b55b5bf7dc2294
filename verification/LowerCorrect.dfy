/** Every statement, by induction on the statement and the fuel. */
module LowerCorrect {
  import opened Words
  import opened Bits
  import opened Decimal
  import opened Fir
  import opened Source
  import opened Lower
  import opened LowerDefs
  import opened LowerExpr
  import opened LowerGrow
  import opened LowerStep
  import opened Typing
  import opened LowerSim
  import LowerGraph

  // ----- the meanings, one equation at a time -----

  lemma StmtsMeaning(cx: Ctx, w: World, g: Gen, s: Stmt, rest: Stmts, env: Env, tr: seq<Event>, fuel: nat)
    requires |g.blocks| > 0
    ensures
      var o := Exec(cx, w, s, env, tr, fuel);
      ExecStmts(cx, w, MoreStmts(s, rest), env, tr, fuel) == if o.Normal?
          then ExecStmts(cx, w, rest, o.env, o.trace, fuel) else o
    ensures EmitStmts(cx, g, MoreStmts(s, rest)) == EmitStmts(cx, EmitStmt(cx, g, s), rest)
    ensures EmitStmts(cx, g, NoStmts) == g && ExecStmts(cx, w, NoStmts, env, tr, fuel) == Normal(env, tr)
  {
    hide Exec, EmitStmt;
  }

  lemma ScopeMeaning(cx: Ctx, w: World, g: Gen, ss: Stmts, env: Env, tr: seq<Event>, fuel: nat)
    requires |g.blocks| > 0
    ensures ExecScope(cx, w, ss, env, tr, fuel) == Leave(ExecStmts(cx, w, ss, env, tr, fuel), |env|)
    ensures EmitScope(cx, g, ss) == ScopePop(EmitStmts(cx, ScopePush(g), ss))
  {
    hide ExecStmts, EmitStmts;
  }

  lemma IfMeaning(cx: Ctx, w: World, s: Stmt, env: Env, tr: seq<Event>, fuel: nat)
    requires s.If?
    ensures
      var r := Test(cx, w, s.cond, env, tr);
      Exec(cx, w, s, env, tr, fuel) ==
      if r.Failed? then Wrong
      else if r.v != 0 then ExecScope(cx, w, s.thn, env, r.trace, fuel)
      else if s.els.None? then Normal(env, r.trace)
      else Leave(Exec(cx, w, s.els.value, env, r.trace, fuel), |env|)
  {
    hide Test, ExecScope;
  }

  lemma WhileMeaning(cx: Ctx, w: World, c: Expr, body: Stmts, env: Env, tr: seq<Event>, fuel: nat)
    ensures
      var r := Test(cx, w, c, env, tr);
      ExecWhile(cx, w, c, body, env, tr, fuel) ==
      if fuel == 0 then OutOfFuel
      else if r.Failed? then Wrong
      else if r.v == 0 then Normal(env, r.trace)
      else
        var o := ExecScope(cx, w, body, env, r.trace, fuel - 1);
        if o.Normal? || o.Continued? then ExecWhile(cx, w, c, body, o.env, o.trace, fuel - 1)
        else if o.Broke? then Normal(o.env, o.trace)
        else o
  {
    hide Test, ExecScope;
  }

  lemma DoMeaning(cx: Ctx, w: World, body: Stmts, c: Expr, env: Env, tr: seq<Event>, fuel: nat)
    ensures
      ExecDoWhile(cx, w, body, c, env, tr, fuel) ==
      if fuel == 0 then OutOfFuel
      else
        var o := ExecScope(cx, w, body, env, tr, fuel - 1);
        if o.Normal? || o.Continued? then
          var r := Test(cx, w, c, o.env, o.trace);
          if r.Failed? then Wrong
          else if r.v == 0 then Normal(o.env, r.trace)
          else ExecDoWhile(cx, w, body, c, o.env, r.trace, fuel - 1)
        else if o.Broke? then Normal(o.env, o.trace)
        else o
  {
    hide Test, ExecScope;
  }

  function ForValue(cx: Ctx, w: World, test: Option<Expr>, env: Env, tr: seq<Event>): EvalResult {
    if test.None? then Val(I1, Truth(true), tr) else Test(cx, w, test.value, env, tr)
  }

  function ForNext(cx: Ctx, w: World, step: Option<Effect>, env: Env, tr: seq<Event>): Outcome {
    if step.None? then Normal(env, tr) else ExecEffect(cx, w, step.value, env, tr)
  }

  lemma ForMeaning(cx: Ctx, w: World, test: Option<Expr>, step: Option<Effect>, body: Stmts, env: Env, tr: seq<Event>,
                   fuel: nat)
    ensures
      var r := ForValue(cx, w, test, env, tr);
      ExecFor(cx, w, test, step, body, env, tr, fuel) ==
      if fuel == 0 then OutOfFuel
      else if r.Failed? then Wrong
      else if r.v == 0 then Normal(env, r.trace)
      else
        var o := ExecScope(cx, w, body, env, r.trace, fuel - 1);
        if o.Normal? || o.Continued? then
          var n := ForNext(cx, w, step, o.env, o.trace);
          if n.Normal? then ExecFor(cx, w, test, step, body, n.env, n.trace, fuel - 1) else n
        else if o.Broke? then Normal(o.env, o.trace)
        else o
  {
    hide Test, ExecScope, ExecEffect;
  }

  lemma ForStmtMeaning(cx: Ctx, w: World, s: Stmt, env: Env, tr: seq<Event>, fuel: nat)
    requires s.ForC?
    ensures
      var o := if s.first.None? then Normal(env, tr) else Exec(cx, w, s.first.value, env, tr, fuel);
      Exec(cx, w, s, env, tr, fuel) ==
      if o.Normal? then Leave(ExecFor(cx, w, s.test, s.step, s.body, o.env, o.trace, fuel), |env|) else Leave(o, |env|)
  {
    hide ExecFor;
  }

  lemma ArmsMeaning(cx: Ctx, w: World, arms: Arms, t: Ty, v: int, env: Env, tr: seq<Event>, fuel: nat)
    ensures
      ExecArms(cx, w, arms, t, v, env, tr, fuel) ==
      match arms
      case NoArms => Normal(env, tr)
      case MoreArms(p, body, rest) =>
        if Matches(p, t, v) then Leave(Exec(cx, w, body, env, tr, fuel), |env|)
        else ExecArms(cx, w, rest, t, v, env, tr, fuel)
  {
    hide Matches, Exec;
  }

  lemma LoopMeaning(cx: Ctx, w: World, s: Stmt, env: Env, tr: seq<Event>, fuel: nat)
    ensures s.While? ==> Exec(cx, w, s, env, tr, fuel) == ExecWhile(cx, w, s.cond, s.body, env, tr, fuel)
    ensures s.DoWhile? ==> Exec(cx, w, s, env, tr, fuel) == ExecDoWhile(cx, w, s.body, s.cond, env, tr, fuel)
    ensures s.Scope? ==> Exec(cx, w, s, env, tr, fuel) == ExecScope(cx, w, s.body, env, tr, fuel)
    ensures s.Do? ==> Exec(cx, w, s, env, tr, fuel) == ExecEffect(cx, w, s.eff, env, tr)
    ensures s.Match? ==>
      var r := EvalExpr(cx, w, s.e, env, tr);
      Exec(cx, w, s, env, tr, fuel) == if r.Failed? then Wrong
          else ExecArms(cx, w, s.arms, r.ty, r.v, env, r.trace, fuel)
    ensures s.Decl? ==> !Exec(cx, w, s, env, tr, fuel).Broke? && !Exec(cx, w, s, env, tr, fuel).Continued?
    ensures s.Decl? ==> !Exec(cx, w, s, env, tr, fuel).Returned? && !Exec(cx, w, s, env, tr, fuel).OutOfFuel?
  {
    hide EvalExpr, ExecWhile, ExecDoWhile, ExecScope, ExecEffect, ExecArms;
  }

  lemma OkMeaning(cx: Ctx, s: Stmt, vars: seq<VarEntry>)
    requires Ok(cx, s, vars)
    ensures Shaped(s)
    ensures s.If? ==> AllOk(cx, s.thn, vars) && (s.els.Some? ==> Ok(cx, s.els.value, vars) && !s.els.value.Decl?)
    ensures s.While? || s.DoWhile? || s.Scope? ==> AllOk(cx, s.body, vars)
    ensures s.ForC? ==>
      && (s.first.Some? ==> Ok(cx, s.first.value, vars) && (s.first.value.Decl? || s.first.value.Do?))
      && AllOk(cx, s.body, FirstVars(cx, vars, s.first))
    ensures s.Match? ==> ArmsOk(cx, s.arms, vars)
  {
    hide SlotName, ConstFrom, VarsAfter, FirstVars, KeptStmt, PlainStmt;
  }

  /** What its expressions are like. */
  lemma OkTypes(cx: Ctx, s: Stmt, vars: seq<VarEntry>)
    requires Ok(cx, s, vars)
    ensures s.If? || s.While? || s.DoWhile? ==> Typed(cx, vars, s.cond) && Plain(s.cond)
    ensures s.Match? ==> Typed(cx, vars, s.e) && Plain(s.e)
    ensures s.Do? ==> KeptEffect(cx, vars, s.eff) && PlainEffect(s.eff)
    ensures s.ForC? && s.test.Some? ==> Typed(cx, FirstVars(cx, vars, s.first), s.test.value) && Plain(s.test.value)
    ensures s.ForC? && s.step.Some?
        ==> KeptEffect(cx, FirstVars(cx, vars, s.first), s.step.value) && PlainEffect(s.step.value)
  {
    hide SlotName, ConstFrom, VarsAfter, FirstVars, Typed, Plain, KeptEffect, PlainEffect, Suits;
  }

  /** The test and the step of a for. */
  predicate HeadOk(cx: Ctx, s: Stmt, vars: seq<VarEntry>)
    requires s.ForC?
  {
    && (s.test.Some? ==> Typed(cx, vars, s.test.value) && Plain(s.test.value))
    && (s.step.Some? ==> KeptEffect(cx, vars, s.step.value) && PlainEffect(s.step.value))
  }

  lemma HeadTypes(cx: Ctx, s: Stmt, vars: seq<VarEntry>)
    requires s.ForC? && Ok(cx, s, vars)
    ensures HeadOk(cx, s, FirstVars(cx, vars, s.first))
  {
    hide Typed, Plain, KeptEffect, PlainEffect, FirstVars, Ok;
    OkTypes(cx, s, vars);
  }

  lemma HeadParts(cx: Ctx, s: Stmt, vars: seq<VarEntry>)
    requires s.ForC? && HeadOk(cx, s, vars)
    ensures s.test.Some? ==> Typed(cx, vars, s.test.value) && Plain(s.test.value)
    ensures s.step.Some? ==> KeptEffect(cx, vars, s.step.value) && PlainEffect(s.step.value)
  {
    hide Typed, Plain, KeptEffect, PlainEffect;
  }

  // ----- the table along a body -----

  lemma TableAfter(cx: Ctx, g: Gen, s: Stmt)
    requires |g.blocks| > 0 && Open(g) && Ok(cx, s, g.vars) && Integers(g.vars)
    ensures EmitStmt(cx, g, s).vars == VarsAfter(cx, g.vars, s)
  {
    hide Within, Emit, EmitExpr, SlotName, Coerce, Straight, ConstFrom, Open, Grows, Enter, FreshSlot, Kept, Lost,
        TypeOf;
    if s.Decl? {
      if Inferred(s.ty, s.init) {
        KeptRead(cx, g.vars, s.init.value);
        ReadBackCode(cx, g.vars, s.init.value, g.tmp);
      }
    } else {
      StmtGrows(cx, g, s);
    }
  }

  // ----- scopes and lists of statements -----

  /** What the caller of a construction sees of it: its loop labels, and at least its variables. */
  lemma EndsOutside(cx: Ctx, w: World, f: seq<Block>, c: Config, h: Gen, g: Gen, r: Gen, o: Outcome, fuel: nat,
                    n: nat, s: State)
    requires Ends(cx, w, f, c, h, r, o, fuel, n, s) && g.brk == h.brk && g.cont == h.cont && g.vars <= h.vars
    ensures Ends(cx, w, f, c, g, r, o, fuel, n, s)
  {
    hide *;
    if o.Normal? {
      NormalParts(cx, w, f, c, h, r, o, fuel, n, s);
      NormalEnds(cx, w, f, c, g, r, o, fuel, n, s);
    } else {
      EndsAbrupt(cx, w, f, c, h, r, g, r, o, fuel, n, s);
    }
  }

  lemma ScopeSim(cx: Ctx, w: World, f: seq<Block>, g: Gen, ss: Stmts, env: Env, st: State, fuel: nat)
      returns (n: nat, s': State)
    requires |g.blocks| > 0 && Open(g) && Final(f) && Rel(cx, env, g.vars, st.mem) && AllOk(cx, ss, g.vars)
    requires Within(EmitScope(cx, g, ss).blocks, f)
    ensures Ends(cx, w, f, At(g.blocks, st), g, EmitScope(cx, g, ss), ExecScope(cx, w, ss, env, st.trace, fuel), fuel,
        n, s')
    decreases fuel, ss, 1
  {
    hide *;
    var h := ScopePush(g);
    ScopeDefs(g);
    var r := EmitStmts(cx, h, ss);
    ScopeMeaning(cx, w, g, ss, env, st.trace, fuel);
    ScopeDefs(r);
    SamePosition(g, h);
    StmtsGrow(cx, h, ss);
    ScopeAround(g, r);
    GrowsDef(h, r);
    n, s' := StmtsSim(cx, w, f, h, ss, env, st, fuel);
    LeaveEnds(cx, w, f, At(g.blocks, st), g, h, r, ScopePop(r), env, st.mem,
        ExecStmts(cx, w, ss, env, st.trace, fuel), fuel, n, s');
  }

  lemma StmtsSim(cx: Ctx, w: World, f: seq<Block>, g: Gen, ss: Stmts, env: Env, st: State, fuel: nat)
      returns (n: nat, s': State)
    requires |g.blocks| > 0 && Open(g) && Final(f) && Rel(cx, env, g.vars, st.mem) && AllOk(cx, ss, g.vars)
    requires Within(EmitStmts(cx, g, ss).blocks, f)
    ensures Ends(cx, w, f, At(g.blocks, st), g, EmitStmts(cx, g, ss), ExecStmts(cx, w, ss, env, st.trace, fuel), fuel,
        n, s')
    decreases fuel, ss, 0
  {
    hide *;
    match ss
    case NoStmts =>
      n, s' := 0, st;
      StmtsMeaning(cx, w, g, Break, NoStmts, env, st.trace, fuel);
      RunNone(f, w, At(g.blocks, st));
      NormalEnds(cx, w, f, At(g.blocks, st), g, g, Normal(env, st.trace), fuel, 0, st);
    case MoreStmts(s, rest) =>
      StmtsMeaning(cx, w, g, s, rest, env, st.trace, fuel);
      AllOkMeaning(cx, s, rest, g.vars);
      var h := EmitStmt(cx, g, s);
      var r, o := EmitStmts(cx, h, rest), Exec(cx, w, s, env, st.trace, fuel);
      StmtGrows(cx, g, s);
      StmtsGrow(cx, h, rest);
      GrowsDef(g, h);
      GrowsDef(h, r);
      Inside(h, r, f);
      RelInts(cx, env, g.vars, st.mem);
      TableAfter(cx, g, s);
      var c := At(g.blocks, st);
      var m, s1 := StmtSim(cx, w, f, g, s, env, st, fuel);
      if o.Normal? {
        NormalParts(cx, w, f, c, g, h, o, fuel, m, s1);
        var k;
        k, s' := StmtsSim(cx, w, f, h, rest, o.env, s1, fuel);
        var o' := ExecStmts(cx, w, rest, o.env, o.trace, fuel);
        EndsAfter(cx, w, f, c, m, At(h.blocks, s1), h, r, o', fuel, fuel, k, s');
        n := m + k;
        EndsOutside(cx, w, f, c, h, g, r, o', fuel, n, s');
      } else {
        n, s' := m, s1;
        EndsAbrupt(cx, w, f, c, g, h, g, r, o, fuel, n, s');
      }
  }

  lemma RunNone(f: seq<Block>, w: World, c: Config)
    ensures Run(f, w, c, 0) == c
  {
  }

  lemma AllOkMeaning(cx: Ctx, s: Stmt, rest: Stmts, vars: seq<VarEntry>)
    requires AllOk(cx, MoreStmts(s, rest), vars)
    ensures Ok(cx, s, vars) && AllOk(cx, rest, VarsAfter(cx, vars, s))
  {
    hide Ok, VarsAfter;
  }

  lemma {:induction false} StmtSim(cx: Ctx, w: World, f: seq<Block>, g: Gen, s: Stmt, env: Env, st: State, fuel: nat)
      returns (n: nat, s': State)
    requires |g.blocks| > 0 && Open(g) && Final(f) && Rel(cx, env, g.vars, st.mem) && Ok(cx, s, g.vars)
    requires Within(EmitStmt(cx, g, s).blocks, f)
    ensures Ends(cx, w, f, At(g.blocks, st), g, EmitStmt(cx, g, s), Exec(cx, w, s, env, st.trace, fuel), fuel, n, s')
    decreases fuel, s, 4
  {
    hide *;
    OkTypes(cx, s, g.vars);
    StmtDefs(cx, g, s);
    LoopMeaning(cx, w, s, env, st.trace, fuel);
    match s
    case Decl(_, _, _, _) => n, s' := DeclEnds(cx, w, f, g, s, env, st, fuel);
    case Do(eff) => n, s' := EffectEnds(cx, w, f, g, eff, env, st, fuel);
    case Return(_) => n, s' := ReturnEnds(cx, w, f, g, s, env, st, fuel);
    case If(_, _, _) => n, s' := IfSim(cx, w, f, g, s, env, st, fuel);
    case While(_, _) => n, s' := WhileSim(cx, w, f, g, s, env, st, fuel);
    case DoWhile(_, _) => n, s' := DoSim(cx, w, f, g, s, env, st, fuel);
    case ForC(_, _, _, _) => n, s' := ForSim(cx, w, f, g, s, env, st, fuel);
    case Match(_, _) => n, s' := MatchSim(cx, w, f, g, s, env, st, fuel);
    case Break => AwayEnds(cx, w, f, g, s, env, st, fuel); n, s' := 1, st;
    case Continue => AwayEnds(cx, w, f, g, s, env, st, fuel); n, s' := 1, st;
    case Scope(body) =>
      OkMeaning(cx, s, g.vars);
      n, s' := ScopeSim(cx, w, f, g, body, env, st, fuel);
  }

  /** A block holding a scope and closed by a jump. */
  lemma BodySim(cx: Ctx, w: World, f: seq<Block>, p: Gen, body: Stmts, q: Gen, l: string, k: Gen, env: Env, st: State,
                fuel: nat)
      returns (n: nat, s': State)
    requires |p.blocks| > 0 && Open(p) && Final(f) && Rel(cx, env, p.vars, st.mem) && AllOk(cx, body, p.vars)
    requires Within(BrTo(EmitScope(cx, p, body), l).blocks, f) && Within(Place(q, l).blocks, f)
    requires k.blocks == Place(q, l).blocks && k.vars == p.vars
    ensures Ends(cx, w, f, At(p.blocks, st), p, k, ExecScope(cx, w, body, env, st.trace, fuel), fuel, n, s')
    decreases fuel, body, 2
  {
    hide *;
    var e := EmitScope(cx, p, body);
    ScopeGrows(cx, p, body);
    BrToGrows(e, l);
    GrowsDef(e, BrTo(e, l));
    Inside(e, BrTo(e, l), f);
    var m;
    m, s' := ScopeSim(cx, w, f, p, body, env, st, fuel);
    n := JumpEnds(cx, w, f, At(p.blocks, st), p, e, q, l, k, ExecScope(cx, w, body, env, st.trace, fuel), fuel, m, s');
  }

  // ----- if -----

  lemma {:induction false} IfSim(cx: Ctx, w: World, f: seq<Block>, g: Gen, s: Stmt, env: Env, st: State, fuel: nat)
      returns (n: nat, s': State)
    requires |g.blocks| > 0 && s.If? && Final(f) && Rel(cx, env, g.vars, st.mem) && Ok(cx, s, g.vars)
    requires Within(EmitIf(cx, g, s).blocks, f)
    ensures Ends(cx, w, f, At(g.blocks, st), g, EmitIf(cx, g, s), Exec(cx, w, s, env, st.trace, fuel), fuel, n, s')
    decreases fuel, s, 2
  {
    hide *;
    OkTypes(cx, s, g.vars);
    IfMeaning(cx, w, s, env, st.trace, fuel);
    var t, r, c := Test(cx, w, s.cond, env, st.trace), EmitIf(cx, g, s), At(g.blocks, st);
    var o := Exec(cx, w, s, env, st.trace, fuel);
    if t.Failed? {
      n, s' := 0, st;
      WrongEnds(cx, w, f, c, g, r, o, fuel, st);
    } else {
      var m, c', s1 := IfTestSim(cx, w, f, g, s, env, st);
      OkMeaning(cx, s, g.vars);
      var k;
      if t.v != 0 {
        k, s' := IfThenSim(cx, w, f, g, s, env, s1, fuel);
      } else if s.els.Some? {
        k, s' := IfElseSim(cx, w, f, g, s, env, s1, fuel);
      } else {
        k, s' := 0, s1;
        IfGrows(cx, g, s);
        RunNone(f, w, c');
        NormalEnds(cx, w, f, c', g, r, o, fuel, k, s');
      }
      n := m + k;
      EndsAfter(cx, w, f, c, m, c', g, r, o, fuel, fuel, k, s');
    }
  }

  lemma IfTestSim(cx: Ctx, w: World, f: seq<Block>, g: Gen, s: Stmt, env: Env, st: State)
      returns (n: nat, c: Config, s': State)
    requires |g.blocks| > 0 && s.If? && Final(f) && Rel(cx, env, g.vars, st.mem)
    requires Typed(cx, g.vars, s.cond) && Plain(s.cond)
    requires Within(EmitIf(cx, g, s).blocks, f) && Test(cx, w, s.cond, env, st.trace).Val?
    ensures
      var t := Test(cx, w, s.cond, env, st.trace);
      && Run(f, w, At(g.blocks, st), n) == c && s'.mem == st.mem && s'.trace == t.trace
      && (t.v != 0 ==> c == At(Place(IfTest(cx, g, s), Label(IfT, g.lbl)).blocks, s'))
      && (t.v == 0 && s.els.Some? ==> c == At(Place(IfThen(cx, g, s), Label(IfF, g.lbl + 1)).blocks, s'))
      && (t.v == 0 && s.els.None? ==> c == At(EmitIf(cx, g, s).blocks, s'))
  {
    hide *;
    var tl, fl, ml := Label(IfT, g.lbl), Label(IfF, g.lbl + 1), Label(IfM, g.lbl + 2);
    IfDefs(cx, g, s);
    IfGrows(cx, g, s);
    var a, b, r := IfTest(cx, g, s), IfThen(cx, g, s), EmitIf(cx, g, s);
    Inside(a, r, f);
    Inside(b, r, f);
    BodyGrows(cx, a, tl, s.thn, ml);
    PlacedBefore(a, tl, b, f);
    var els := if s.els.Some? then fl else ml;
    Lands(f, a, tl, st);
    Lands(f, IfElse(cx, g, s), ml, st);
    if s.els.Some? {
      PlacedBefore(b, fl, r, f);
      Lands(f, b, fl, st);
    }
    n, s' := BranchSim(cx, w, f, g.(lbl := g.lbl + 3), s.cond, tl, els, env, st);
    c := Run(f, w, At(g.blocks, st), n);
    Lands(f, a, tl, s');
    Lands(f, IfElse(cx, g, s), ml, s');
    if s.els.Some? { Lands(f, b, fl, s'); }
  }

  lemma IfThenSim(cx: Ctx, w: World, f: seq<Block>, g: Gen, s: Stmt, env: Env, st: State, fuel: nat)
      returns (n: nat, s': State)
    requires |g.blocks| > 0 && s.If? && Final(f) && Rel(cx, env, g.vars, st.mem) && AllOk(cx, s.thn, g.vars)
    requires Shaped(s) && Within(EmitIf(cx, g, s).blocks, f)
    ensures Ends(cx, w, f, At(Place(IfTest(cx, g, s), Label(IfT, g.lbl)).blocks, st), g, EmitIf(cx, g, s),
                 ExecScope(cx, w, s.thn, env, st.trace, fuel), fuel, n, s')
    decreases fuel, s, 1
  {
    hide *;
    var tl, ml := Label(IfT, g.lbl), Label(IfM, g.lbl + 2);
    IfDefs(cx, g, s);
    IfGrows(cx, g, s);
    var a, b, r := IfTest(cx, g, s), IfThen(cx, g, s), EmitIf(cx, g, s);
    Inside(b, r, f);
    PlaceGrows(a, tl);
    var p := Place(a, tl);
    GrowsDef(a, p);
    GrowsDef(g, a);
    n, s' := BodySim(cx, w, f, p, s.thn, IfElse(cx, g, s), ml, r, env, st, fuel);
    EndsOutside(cx, w, f, At(p.blocks, st), p, g, r, ExecScope(cx, w, s.thn, env, st.trace, fuel), fuel, n, s');
  }

  lemma IfElseSim(cx: Ctx, w: World, f: seq<Block>, g: Gen, s: Stmt, env: Env, st: State, fuel: nat)
      returns (n: nat, s': State)
    requires |g.blocks| > 0 && s.If? && s.els.Some? && Final(f) && Rel(cx, env, g.vars, st.mem)
    requires Ok(cx, s.els.value, g.vars) && Shaped(s) && Within(EmitIf(cx, g, s).blocks, f)
    ensures Ends(cx, w, f, At(Place(IfThen(cx, g, s), Label(IfF, g.lbl + 1)).blocks, st), g, EmitIf(cx, g, s),
                 Leave(Exec(cx, w, s.els.value, env, st.trace, fuel), |env|), fuel, n, s')
    decreases fuel, s, 1
  {
    hide *;
    var fl, ml := Label(IfF, g.lbl + 1), Label(IfM, g.lbl + 2);
    IfDefs(cx, g, s);
    IfGrows(cx, g, s);
    var b, c, r := IfThen(cx, g, s), IfElse(cx, g, s), EmitIf(cx, g, s);
    Inside(c, r, f);
    PlaceGrows(b, fl);
    var p := Place(b, fl);
    GrowsDef(b, p);
    GrowsDef(g, b);
    var e := EmitStmt(cx, p, s.els.value);
    Inside(e, r, f);
    var o := Exec(cx, w, s.els.value, env, st.trace, fuel);
    var m;
    m, s' := StmtSim(cx, w, f, p, s.els.value, env, st, fuel);
    LeaveEnds(cx, w, f, At(p.blocks, st), g, p, e, e, env, st.mem, o, fuel, m, s');
    n := JumpEnds(cx, w, f, At(p.blocks, st), g, e, c, ml, r, Leave(o, |env|), fuel, m, s');
  }

  // ----- loops -----

  lemma LeaveShort(o: Outcome, n: nat)
    ensures
      var o' := Leave(o, n);
      o'.Normal? || o'.Broke? || o'.Continued? ==> |o'.env| <= n
  {
  }

  /** A body that ran to its end, or was continued, is back at the label it jumps to. */
  lemma BackAround(cx: Ctx, w: World, f: seq<Block>, c: Config, p: Gen, q: Gen, l: string, k: Gen, o: Outcome,
                   fuel: nat, n: nat, s: State)
    requires Ends(cx, w, f, c, p, k, o, fuel, n, s) && (o.Normal? || o.Continued?) && |o.env| <= |p.vars|
    requires p.cont == Some(l) && Final(f) && Within(Place(q, l).blocks, f)
    requires k.blocks == Place(q, l).blocks && k.vars == p.vars
    ensures Run(f, w, c, n) == At(k.blocks, s) && Rel(cx, o.env, k.vars, s.mem) && s.trace == o.trace
  {
    hide Run, Rel, At, Find, Final, Within, Place;
    if o.Continued? {
      Lands(f, q, l, s);
      assert o.env[..|p.vars|] == o.env;
    }
  }

  /** A body that broke out is at the end label. */
  lemma BrokenOut(cx: Ctx, w: World, f: seq<Block>, c: Config, p: Gen, k: Gen, q: Gen, l: string, r: Gen, o: Outcome,
                  fuel: nat, n: nat, s: State)
    requires Ends(cx, w, f, c, p, k, o, fuel, n, s) && o.Broke? && |o.env| <= |p.vars|
    requires p.brk == Some(l) && Final(f) && Within(Place(q, l).blocks, f)
    requires r.blocks == Place(q, l).blocks && r.vars == p.vars
    ensures Ends(cx, w, f, c, p, r, Normal(o.env, o.trace), fuel, n, s)
  {
    hide Run, Rel, At, Find, Final, Within, Place;
    Lands(f, q, l, s);
    assert o.env[..|p.vars|] == o.env;
  }

  lemma EndsFinal(cx: Ctx, w: World, f: seq<Block>, c: Config, g: Gen, r: Gen, g': Gen, r': Gen, o: Outcome, fuel: nat,
                  n: nat, s: State)
    requires Ends(cx, w, f, c, g, r, o, fuel, n, s) && !o.Normal? && !o.Broke? && !o.Continued?
    ensures Ends(cx, w, f, c, g', r', o, fuel, n, s)
  {
  }

  /** A normal end needs no loop labels. */
  lemma EndsNormally(cx: Ctx, w: World, f: seq<Block>, c: Config, g: Gen, r: Gen, g': Gen, o: Outcome, fuel: nat,
                     n: nat, s: State)
    requires Ends(cx, w, f, c, g, r, o, fuel, n, s) && o.Normal?
    ensures Ends(cx, w, f, c, g', r, o, fuel, n, s)
  {
  }

  lemma NoFuel(cx: Ctx, w: World, f: seq<Block>, bs: seq<Block>, g: Gen, r: Gen, s: State)
    requires bs != []
    ensures Ends(cx, w, f, At(bs, s), g, r, OutOfFuel, 0, 0, s)
  {
  }

  lemma {:induction false} WhileSim(cx: Ctx, w: World, f: seq<Block>, g: Gen, s: Stmt, env: Env, st: State, fuel: nat)
      returns (n: nat, s': State)
    requires |g.blocks| > 0 && s.While? && Open(g) && Final(f) && Rel(cx, env, g.vars, st.mem)
    requires Ok(cx, s, g.vars)
    requires Within(EmitWhile(cx, g, s).blocks, f)
    ensures Ends(cx, w, f, At(g.blocks, st), g, EmitWhile(cx, g, s), Exec(cx, w, s, env, st.trace, fuel), fuel, n, s')
    decreases fuel, s, 2
  {
    hide *;
    OkTypes(cx, s, g.vars);
    OkMeaning(cx, s, g.vars);
    LoopMeaning(cx, w, s, env, st.trace, fuel);
    WhileDefs(cx, g, s);
    WhileGrows(cx, g, s);
    var hl, el := Label(Wh, g.lbl), Label(We, g.lbl + 2);
    var h := g.(lbl := g.lbl + 3, brk := Some(el), cont := Some(hl));
    SamePosition(g, h);
    Inside(WhileHead(g), EmitWhile(cx, g, s), f);
    PlaceGrows(BrTo(h, hl), hl);
    GrowsDef(BrTo(h, hl), WhileHead(g));
    Inside(BrTo(h, hl), WhileHead(g), f);
    JumpAt(f, w, h, hl, BrTo(h, hl), st);
    var k;
    k, s' := WhileLoop(cx, w, f, g, s, env, st, fuel);
    n := 1 + k;
    EndsAfter(cx, w, f, At(g.blocks, st), 1, At(WhileHead(g).blocks, st), g, EmitWhile(cx, g, s),
              ExecWhile(cx, w, s.cond, s.body, env, st.trace, fuel), fuel, fuel, k, s');
  }

  /** From the head of the loop, for as many rounds as there is fuel. */
  lemma WhileLoop(cx: Ctx, w: World, f: seq<Block>, g: Gen, s: Stmt, env: Env, st: State, fuel: nat)
      returns (n: nat, s': State)
    requires |g.blocks| > 0 && s.While? && Final(f) && Rel(cx, env, g.vars, st.mem) && AllOk(cx, s.body, g.vars)
    requires Typed(cx, g.vars, s.cond) && Plain(s.cond)
    requires Within(EmitWhile(cx, g, s).blocks, f)
    ensures Ends(cx, w, f, At(WhileHead(g).blocks, st), g, EmitWhile(cx, g, s),
                 ExecWhile(cx, w, s.cond, s.body, env, st.trace, fuel), fuel, n, s')
    decreases fuel, s, 1
  {
    hide *;
    var c, r := At(WhileHead(g).blocks, st), EmitWhile(cx, g, s);
    var t := Test(cx, w, s.cond, env, st.trace);
    WhileMeaning(cx, w, s.cond, s.body, env, st.trace, fuel);
    HeadBuilt(g);
    if fuel == 0 {
      n, s' := 0, st;
      NoFuel(cx, w, f, WhileHead(g).blocks, g, r, st);
    } else if t.Failed? {
      n, s' := 0, st;
      WrongEnds(cx, w, f, c, g, r, Wrong, fuel, st);
    } else {
      var m, c', s1 := WhileTestSim(cx, w, f, g, s, env, st);
      if t.v == 0 {
        n, s' := m, s1;
        WhileGrows(cx, g, s);
        NormalEnds(cx, w, f, c, g, r, Normal(env, t.trace), fuel, n, s');
      } else {
        var k;
        k, s' := WhileRound(cx, w, f, g, s, env, s1, fuel);
        n := m + k;
        EndsAfter(cx, w, f, c, m, c', g, r, ExecWhile(cx, w, s.cond, s.body, env, st.trace, fuel), fuel - 1, fuel, k,
            s');
      }
    }
  }

  lemma HeadBuilt(g: Gen)
    requires |g.blocks| > 0
    ensures WhileHead(g).blocks != []
  {
    hide BrTo, Label;
  }

  lemma WhileTestSim(cx: Ctx, w: World, f: seq<Block>, g: Gen, s: Stmt, env: Env, st: State)
      returns (n: nat, c: Config, s': State)
    requires |g.blocks| > 0 && s.While? && Final(f) && Rel(cx, env, g.vars, st.mem)
    requires Typed(cx, g.vars, s.cond) && Plain(s.cond)
    requires Within(EmitWhile(cx, g, s).blocks, f) && Test(cx, w, s.cond, env, st.trace).Val?
    ensures
      var t := Test(cx, w, s.cond, env, st.trace);
      && n > 0 && Run(f, w, At(WhileHead(g).blocks, st), n) == c && s'.mem == st.mem && s'.trace == t.trace
      && c == if t.v != 0 then At(Place(WhileTest(cx, g, s), Label(Wb, g.lbl + 1)).blocks, s')
              else At(EmitWhile(cx, g, s).blocks, s')
  {
    hide *;
    var hl, bl, el := Label(Wh, g.lbl), Label(Wb, g.lbl + 1), Label(We, g.lbl + 2);
    WhileDefs(cx, g, s);
    WhileGrows(cx, g, s);
    var a, b, d, r := WhileHead(g), WhileTest(cx, g, s), WhileBody(cx, g, s), EmitWhile(cx, g, s);
    Inside(b, r, f);
    Inside(d, r, f);
    BodyGrows(cx, b, bl, s.body, hl);
    PlacedBefore(b, bl, d, f);
    HeadBuilt(g);
    Lands(f, b, bl, st);
    Lands(f, d, el, st);
    n, s' := BranchSim(cx, w, f, a, s.cond, bl, el, env, st);
    c := Run(f, w, At(a.blocks, st), n);
    Lands(f, b, bl, s');
    Lands(f, d, el, s');
  }

  /** The body once, and then the rest of the loop. */
  lemma WhileRound(cx: Ctx, w: World, f: seq<Block>, g: Gen, s: Stmt, env: Env, st: State, fuel: nat)
      returns (n: nat, s': State)
    requires |g.blocks| > 0 && s.While? && Final(f) && Rel(cx, env, g.vars, st.mem) && AllOk(cx, s.body, g.vars)
    requires Typed(cx, g.vars, s.cond) && Plain(s.cond)
    requires Within(EmitWhile(cx, g, s).blocks, f) && fuel > 0
    ensures
      var o := ExecScope(cx, w, s.body, env, st.trace, fuel - 1);
      Ends(cx, w, f, At(Place(WhileTest(cx, g, s), Label(Wb, g.lbl + 1)).blocks, st), g, EmitWhile(cx, g, s),
           if o.Normal? || o.Continued? then ExecWhile(cx, w, s.cond, s.body, o.env, o.trace, fuel - 1)
           else if o.Broke? then Normal(o.env, o.trace)
           else o, fuel - 1, n, s')
    decreases fuel, s, 0
  {
    hide *;
    var hl, bl, el := Label(Wh, g.lbl), Label(Wb, g.lbl + 1), Label(We, g.lbl + 2);
    WhileDefs(cx, g, s);
    WhileGrows(cx, g, s);
    var a, b, d, r := WhileHead(g), WhileTest(cx, g, s), WhileBody(cx, g, s), EmitWhile(cx, g, s);
    var h := g.(lbl := g.lbl + 3, brk := Some(el), cont := Some(hl));
    var p := Place(b, bl);
    Inside(a, r, f);
    Inside(d, r, f);
    PlaceGrows(b, bl);
    GrowsDef(b, p);
    var c, o := At(p.blocks, st), ExecScope(cx, w, s.body, env, st.trace, fuel - 1);
    var m, s1 := BodySim(cx, w, f, p, s.body, BrTo(h, hl), hl, a, env, st, fuel - 1);
    ScopeMeaning(cx, w, p, s.body, env, st.trace, fuel - 1);
    LeaveShort(ExecStmts(cx, w, s.body, env, st.trace, fuel - 1), |env|);
    OverRel(cx, env, g.vars, st.mem);
    if o.Normal? || o.Continued? {
      BackAround(cx, w, f, c, p, BrTo(h, hl), hl, a, o, fuel - 1, m, s1);
      var k;
      k, s' := WhileLoop(cx, w, f, g, s, o.env, s1, fuel - 1);
      n := m + k;
      EndsAfter(cx, w, f, c, m, At(a.blocks, s1), g, r, ExecWhile(cx, w, s.cond, s.body, o.env, o.trace, fuel - 1),
                fuel - 1, fuel - 1, k, s');
    } else if o.Broke? {
      n, s' := m, s1;
      BrokenOut(cx, w, f, c, p, a, d, el, r, o, fuel - 1, n, s');
      EndsNormally(cx, w, f, c, p, r, g, Normal(o.env, o.trace), fuel - 1, n, s');
    } else {
      n, s' := m, s1;
      EndsFinal(cx, w, f, c, p, a, g, r, o, fuel - 1, n, s');
    }
  }

  // ----- do-while -----

  lemma {:induction false} DoSim(cx: Ctx, w: World, f: seq<Block>, g: Gen, s: Stmt, env: Env, st: State, fuel: nat)
      returns (n: nat, s': State)
    requires |g.blocks| > 0 && s.DoWhile? && Open(g) && Final(f) && Rel(cx, env, g.vars, st.mem)
    requires Ok(cx, s, g.vars)
    requires Within(EmitDoWhile(cx, g, s).blocks, f)
    ensures Ends(cx, w, f, At(g.blocks, st), g, EmitDoWhile(cx, g, s), Exec(cx, w, s, env, st.trace, fuel), fuel, n, s')
    decreases fuel, s, 2
  {
    hide *;
    OkTypes(cx, s, g.vars);
    OkMeaning(cx, s, g.vars);
    LoopMeaning(cx, w, s, env, st.trace, fuel);
    DoDefs(cx, g, s);
    DoGrows(cx, g, s);
    var bl, hl, el := Label(Dw, g.lbl), Label(Dwh, g.lbl + 1), Label(Dwe, g.lbl + 2);
    var h := g.(lbl := g.lbl + 3, brk := Some(el), cont := Some(hl));
    var a, b, r := DoStart(g), DoBody(cx, g, s), EmitDoWhile(cx, g, s);
    SamePosition(g, h);
    Inside(a, r, f);
    Inside(b, r, f);
    BodyGrows(cx, a, bl, s.body, hl);
    PlacedBefore(a, bl, b, f);
    JumpAt(f, w, h, bl, a, st);
    var k;
    k, s' := DoLoop(cx, w, f, g, s, env, st, fuel);
    n := 1 + k;
    EndsAfter(cx, w, f, At(g.blocks, st), 1, At(Place(a, bl).blocks, st), g, r,
              ExecDoWhile(cx, w, s.body, s.cond, env, st.trace, fuel), if fuel == 0 then 0 else fuel - 1, fuel, k, s');
  }

  /** From the body's block on. The jump that led there is one step more. */
  lemma DoLoop(cx: Ctx, w: World, f: seq<Block>, g: Gen, s: Stmt, env: Env, st: State, fuel: nat)
      returns (n: nat, s': State)
    requires |g.blocks| > 0 && s.DoWhile? && Final(f) && Rel(cx, env, g.vars, st.mem)
    requires Typed(cx, g.vars, s.cond) && Plain(s.cond)
    requires AllOk(cx, s.body, g.vars)
    requires Within(EmitDoWhile(cx, g, s).blocks, f)
    ensures Ends(cx, w, f, At(Place(DoStart(g), Label(Dw, g.lbl)).blocks, st), g, EmitDoWhile(cx, g, s),
                 ExecDoWhile(cx, w, s.body, s.cond, env, st.trace, fuel), if fuel == 0 then 0 else fuel - 1, n, s')
    decreases fuel, s, 1
  {
    hide *;
    var bl, hl, el := Label(Dw, g.lbl), Label(Dwh, g.lbl + 1), Label(Dwe, g.lbl + 2);
    DoMeaning(cx, w, s.body, s.cond, env, st.trace, fuel);
    DoDefs(cx, g, s);
    DoGrows(cx, g, s);
    var a, b, d, r := DoStart(g), DoBody(cx, g, s), DoTest(cx, g, s), EmitDoWhile(cx, g, s);
    var p, k0 := Place(a, bl), Place(b, hl);
    PlaceGrows(a, bl);
    GrowsDef(a, p);
    var c := At(p.blocks, st);
    if fuel == 0 {
      n, s' := 0, st;
      Placed(a, bl);
      NoFuel(cx, w, f, p.blocks, g, r, st);
    } else {
      Inside(b, r, f);
      Inside(d, r, f);
      PlaceGrows(b, hl);
      BranchGrows(cx, k0, s.cond, bl, el);
      GrowsDef(k0, d);
      Inside(k0, d, f);
      var o := ExecScope(cx, w, s.body, env, st.trace, fuel - 1);
      var m, s1 := BodySim(cx, w, f, p, s.body, b, hl, k0, env, st, fuel - 1);
      ScopeMeaning(cx, w, p, s.body, env, st.trace, fuel - 1);
      LeaveShort(ExecStmts(cx, w, s.body, env, st.trace, fuel - 1), |env|);
      OverRel(cx, env, g.vars, st.mem);
      if o.Normal? || o.Continued? {
        BackAround(cx, w, f, c, p, b, hl, k0, o, fuel - 1, m, s1);
        var k;
        k, s' := DoAgain(cx, w, f, g, s, o.env, s1, fuel);
        n := m + k;
        EndsAfter(cx, w, f, c, m, At(k0.blocks, s1), g, r, ExecDoWhile(cx, w, s.body, s.cond, env, st.trace, fuel),
                  fuel - 1, fuel - 1, k, s');
      } else if o.Broke? {
        n, s' := m, s1;
        BrokenOut(cx, w, f, c, p, k0, d, el, r, o, fuel - 1, n, s');
        EndsNormally(cx, w, f, c, p, r, g, Normal(o.env, o.trace), fuel - 1, n, s');
      } else {
        n, s' := m, s1;
        EndsFinal(cx, w, f, c, p, k0, g, r, o, fuel - 1, n, s');
      }
    }
  }

  lemma Placed(g: Gen, l: string)
    ensures Place(g, l).blocks != []
  {
  }

  /** The test, and the rest of the loop. */
  lemma DoAgain(cx: Ctx, w: World, f: seq<Block>, g: Gen, s: Stmt, env: Env, st: State, fuel: nat)
      returns (n: nat, s': State)
    requires |g.blocks| > 0 && s.DoWhile? && Final(f) && Rel(cx, env, g.vars, st.mem)
    requires Typed(cx, g.vars, s.cond) && Plain(s.cond)
    requires AllOk(cx, s.body, g.vars)
    requires Within(EmitDoWhile(cx, g, s).blocks, f) && fuel > 0
    ensures
      var t := Test(cx, w, s.cond, env, st.trace);
      Ends(cx, w, f, At(Place(DoBody(cx, g, s), Label(Dwh, g.lbl + 1)).blocks, st), g, EmitDoWhile(cx, g, s),
           if t.Failed? then Wrong
           else if t.v == 0 then Normal(env, t.trace)
           else ExecDoWhile(cx, w, s.body, s.cond, env, t.trace, fuel - 1), fuel - 1, n, s')
    decreases fuel, s, 0
  {
    hide *;
    var bl, hl, el := Label(Dw, g.lbl), Label(Dwh, g.lbl + 1), Label(Dwe, g.lbl + 2);
    DoDefs(cx, g, s);
    DoGrows(cx, g, s);
    var a, b, d, r := DoStart(g), DoBody(cx, g, s), DoTest(cx, g, s), EmitDoWhile(cx, g, s);
    var k0 := Place(b, hl);
    Placed(b, hl);
    var c, t := At(k0.blocks, st), Test(cx, w, s.cond, env, st.trace);
    if t.Failed? {
      n, s' := 0, st;
      WrongEnds(cx, w, f, c, g, r, Wrong, fuel - 1, st);
    } else {
      Inside(b, r, f);
      Inside(d, r, f);
      BodyGrows(cx, a, bl, s.body, hl);
      PlacedBefore(a, bl, b, f);
      PlaceGrows(b, hl);
      Lands(f, a, bl, st);
      Lands(f, d, el, st);
      var m, s1 := BranchSim(cx, w, f, k0, s.cond, bl, el, env, st);
      Lands(f, a, bl, s1);
      Lands(f, d, el, s1);
      if t.v == 0 {
        n, s' := m, s1;
        NormalEnds(cx, w, f, c, g, r, Normal(env, t.trace), fuel - 1, n, s');
      } else {
        var k;
        k, s' := DoLoop(cx, w, f, g, s, env, s1, fuel - 1);
        n := m + k;
        EndsAfter(cx, w, f, c, m, At(Place(a, bl).blocks, s1), g, r,
                  ExecDoWhile(cx, w, s.body, s.cond, env, t.trace, fuel - 1),
                  if fuel == 1 then 0 else fuel - 2, fuel - 1, k, s');
      }
    }
  }

  // ----- for -----

  lemma {:induction false} ForSim(cx: Ctx, w: World, f: seq<Block>, g: Gen, s: Stmt, env: Env, st: State, fuel: nat)
      returns (n: nat, s': State)
    requires |g.blocks| > 0 && s.ForC? && Open(g) && Final(f) && Rel(cx, env, g.vars, st.mem)
    requires Ok(cx, s, g.vars)
    requires Within(EmitFor(cx, g, s).blocks, f)
    ensures Ends(cx, w, f, At(g.blocks, st), g, EmitFor(cx, g, s), Exec(cx, w, s, env, st.trace, fuel), fuel, n, s')
    decreases fuel, s, 3
  {
    hide *;
    OkMeaning(cx, s, g.vars);
    ForStmtMeaning(cx, w, s, env, st.trace, fuel);
    ForDefs(cx, g, s);
    ForGrows(cx, g, s);
    var r := EmitFor(cx, g, s);
    var o := if s.first.None? then Normal(env, st.trace) else Exec(cx, w, s.first.value, env, st.trace, fuel);
    var m, s1 := ForFirstSim(cx, w, f, g, s, env, st, fuel);
    var c := At(g.blocks, st);
    if o.Normal? {
      var k, s2 := ForLoop(cx, w, f, g, s, o.env, s1, fuel);
      n, s' := m + k, s2;
      var e := ExecFor(cx, w, s.test, s.step, s.body, o.env, o.trace, fuel);
      EndsAfter(cx, w, f, c, m, At(ForHead(cx, g, s).blocks, s1), g, ForEnd(cx, g, s), e, fuel, fuel, k, s');
      ForEndBlocks(cx, g, s);
      LeaveEnds(cx, w, f, c, g, g, ForEnd(cx, g, s), r, env, st.mem, e, fuel, n, s');
    } else {
      n, s' := m, s1;
      LeaveWrong(|env|);
      WrongEnds(cx, w, f, c, g, r, Wrong, fuel, st);
      EndsWrong(cx, w, f, c, g, r, fuel, n, s');
    }
  }

  lemma LeaveWrong(n: nat)
    ensures Leave(Wrong, n) == Wrong
  {
  }

  lemma EndsWrong(cx: Ctx, w: World, f: seq<Block>, c: Config, g: Gen, r: Gen, fuel: nat, n: nat, s: State)
    ensures Ends(cx, w, f, c, g, r, Wrong, fuel, n, s)
  {
  }

  /** The end of the loop, its scope still open. */
  ghost function ForEnd(cx: Ctx, g: Gen, s: Stmt): Gen
    requires |g.blocks| > 0 && s.ForC?
  {
    Place(BrTo(ForStep(cx, g, s), Label(Fh, g.lbl)), Label(Fe, g.lbl + 3))
  }

  lemma ForEndBlocks(cx: Ctx, g: Gen, s: Stmt)
    requires |g.blocks| > 0 && s.ForC? && Open(g)
    ensures ForEnd(cx, g, s).blocks == EmitFor(cx, g, s).blocks
    ensures ForEnd(cx, g, s).vars == ForFirst(cx, g, s).vars
    ensures ForEnd(cx, g, s) == Place(BrTo(ForStep(cx, g, s), Label(Fh, g.lbl)), Label(Fe, g.lbl + 3))
  {
    hide ForStep, ForFirst, BrTo, Place, Label, Open, Grows, Appends;
    ForDefs(cx, g, s);
    ForGrows(cx, g, s);
    ScopeDefs(ForEnd(cx, g, s));
    BrToGrows(ForStep(cx, g, s), Label(Fh, g.lbl));
    PlaceGrows(BrTo(ForStep(cx, g, s), Label(Fh, g.lbl)), Label(Fe, g.lbl + 3));
  }

  lemma ForFirstSim(cx: Ctx, w: World, f: seq<Block>, g: Gen, s: Stmt, env: Env, st: State, fuel: nat)
      returns (n: nat, s': State)
    requires |g.blocks| > 0 && s.ForC? && Open(g) && Final(f) && Rel(cx, env, g.vars, st.mem)
    requires Ok(cx, s, g.vars)
    requires Within(EmitFor(cx, g, s).blocks, f)
    ensures
      var o := if s.first.None? then Normal(env, st.trace) else Exec(cx, w, s.first.value, env, st.trace, fuel);
      && (o.Normal? || o.Wrong?)
      && (o.Normal? ==>
            && Run(f, w, At(g.blocks, st), n) == At(ForHead(cx, g, s).blocks, s') && s'.trace == o.trace
            && Rel(cx, o.env, ForFirst(cx, g, s).vars, s'.mem)
            && AllOk(cx, s.body, ForFirst(cx, g, s).vars) && HeadOk(cx, s, ForFirst(cx, g, s).vars))
    decreases fuel, s, 2
  {
    hide *;
    OkMeaning(cx, s, g.vars);
    FirstVarsDef(cx, s.first, g.vars);
    HeadTypes(cx, s, g.vars);
    ForDefs(cx, g, s);
    ForGrows(cx, g, s);
    ScopeDefs(g);
    var h, i, a, r, hl := ForEnter(g), ForFirst(cx, g, s), ForHead(cx, g, s), EmitFor(cx, g, s), Label(Fh, g.lbl);
    var c := At(g.blocks, st);
    Inside(i, r, f);
    Inside(a, r, f);
    PlaceGrows(BrTo(i, hl), hl);
    GrowsDef(BrTo(i, hl), a);
    Inside(BrTo(i, hl), a, f);
    if s.first.None? {
      n, s' := 1, st;
      JumpAt(f, w, i, hl, BrTo(i, hl), st);
    } else {
      SamePosition(g, h);
      var o := Exec(cx, w, s.first.value, env, st.trace, fuel);
      var m;
      m, s' := StmtSim(cx, w, f, h, s.first.value, env, st, fuel);
      n := m + 1;
      SimpleOutcome(cx, w, s.first.value, env, st.trace, fuel);
      if o.Normal? {
        NormalParts(cx, w, f, c, h, i, o, fuel, m, s');
        JumpAt(f, w, i, hl, BrTo(i, hl), s');
        Prepend(f, w, c, m, At(i.blocks, s'), 1);
        RelInts(cx, env, h.vars, st.mem);
        TableAfter(cx, h, s.first.value);
      }
    }
  }

  lemma FirstVarsDef(cx: Ctx, first: Option<Stmt>, vars: seq<VarEntry>)
    ensures FirstVars(cx, vars, first) == if first.Some? then VarsAfter(cx, vars, first.value) else vars
  {
  }

  lemma SimpleOutcome(cx: Ctx, w: World, s: Stmt, env: Env, tr: seq<Event>, fuel: nat)
    requires s.Decl? || s.Do?
    ensures Exec(cx, w, s, env, tr, fuel).Normal? || Exec(cx, w, s, env, tr, fuel).Wrong?
  {
    hide ExecDecl, ExecEffect;
    match s
    case Decl(x, ty, init, _) => DeclOutcome(cx, w, x, ty, init, env, tr);
    case Do(eff) => EffectOutcome(cx, w, eff, env, tr);
  }

  lemma ForLoop(cx: Ctx, w: World, f: seq<Block>, g: Gen, s: Stmt, env: Env, st: State, fuel: nat)
      returns (n: nat, s': State)
    requires |g.blocks| > 0 && s.ForC? && Open(g) && Final(f) && Within(EmitFor(cx, g, s).blocks, f)
    requires Rel(cx, env, ForFirst(cx, g, s).vars, st.mem) && AllOk(cx, s.body, ForFirst(cx, g, s).vars)
    requires HeadOk(cx, s, ForFirst(cx, g, s).vars)
    ensures Ends(cx, w, f, At(ForHead(cx, g, s).blocks, st), g, ForEnd(cx, g, s),
                 ExecFor(cx, w, s.test, s.step, s.body, env, st.trace, fuel), fuel, n, s')
    decreases fuel, s, 1
  {
    hide *;
    var c, r := At(ForHead(cx, g, s).blocks, st), ForEnd(cx, g, s);
    var t := ForValue(cx, w, s.test, env, st.trace);
    ForMeaning(cx, w, s.test, s.step, s.body, env, st.trace, fuel);
    ForDefs(cx, g, s);
    if fuel == 0 {
      n, s' := 0, st;
      Placed(BrTo(ForFirst(cx, g, s), Label(Fh, g.lbl)), Label(Fh, g.lbl));
      NoFuel(cx, w, f, ForHead(cx, g, s).blocks, g, r, st);
    } else if t.Failed? {
      n, s' := 0, st;
      WrongEnds(cx, w, f, c, g, r, Wrong, fuel, st);
    } else {
      var m, c', s1 := ForTestSim(cx, w, f, g, s, env, st);
      if t.v == 0 {
        n, s' := m, s1;
        ForEndBlocks(cx, g, s);
        NormalEnds(cx, w, f, c, g, r, Normal(env, t.trace), fuel, n, s');
      } else {
        var k;
        k, s' := ForRound(cx, w, f, g, s, env, s1, fuel);
        n := m + k;
        EndsAfter(cx, w, f, c, m, c', g, r, ExecFor(cx, w, s.test, s.step, s.body, env, st.trace, fuel), fuel - 1,
            fuel, k, s');
      }
    }
  }

  lemma ForValueDef(cx: Ctx, w: World, test: Option<Expr>, env: Env, tr: seq<Event>)
    ensures test.Some? ==> ForValue(cx, w, test, env, tr) == Test(cx, w, test.value, env, tr)
    ensures test.None? ==> ForValue(cx, w, test, env, tr) == Val(I1, -1, tr)
  {
    hide Test;
  }

  lemma ForTestSim(cx: Ctx, w: World, f: seq<Block>, g: Gen, s: Stmt, env: Env, st: State)
      returns (n: nat, c: Config, s': State)
    requires |g.blocks| > 0 && s.ForC? && Open(g) && Final(f) && Within(EmitFor(cx, g, s).blocks, f)
    requires Rel(cx, env, ForFirst(cx, g, s).vars, st.mem) && ForValue(cx, w, s.test, env, st.trace).Val?
    requires HeadOk(cx, s, ForFirst(cx, g, s).vars)
    ensures
      var t := ForValue(cx, w, s.test, env, st.trace);
      && n > 0 && Run(f, w, At(ForHead(cx, g, s).blocks, st), n) == c && s'.mem == st.mem && s'.trace == t.trace
      && c == if t.v != 0 then At(Place(ForTest(cx, g, s), Label(Fb, g.lbl + 1)).blocks, s')
              else At(ForEnd(cx, g, s).blocks, s')
  {
    hide *;
    HeadParts(cx, s, ForFirst(cx, g, s).vars);
    var hl, bl, sl, el := Label(Fh, g.lbl), Label(Fb, g.lbl + 1), Label(Fs, g.lbl + 2), Label(Fe, g.lbl + 3);
    ForDefs(cx, g, s);
    ForGrows(cx, g, s);
    ForEndBlocks(cx, g, s);
    ForValueDef(cx, w, s.test, env, st.trace);
    var a, b, d, r := ForHead(cx, g, s), ForTest(cx, g, s), ForBody(cx, g, s), EmitFor(cx, g, s);
    Inside(b, r, f);
    Inside(d, r, f);
    BodyGrows(cx, b, bl, s.body, sl);
    PlacedBefore(b, bl, d, f);
    Placed(BrTo(ForFirst(cx, g, s), hl), hl);
    if s.test.Some? {
      Lands(f, b, bl, st);
      Lands(f, BrTo(ForStep(cx, g, s), hl), el, st);
      n, s' := BranchSim(cx, w, f, a, s.test.value, bl, el, env, st);
      Lands(f, BrTo(ForStep(cx, g, s), hl), el, s');
    } else {
      n, s' := 1, st;
      PlaceGrows(BrTo(ForFirst(cx, g, s), hl), hl);
      BrToGrows(a, bl);
      JumpAt(f, w, a, bl, b, st);
    }
    Lands(f, b, bl, s');
    c := Run(f, w, At(a.blocks, st), n);
  }

  lemma ForRound(cx: Ctx, w: World, f: seq<Block>, g: Gen, s: Stmt, env: Env, st: State, fuel: nat)
      returns (n: nat, s': State)
    requires |g.blocks| > 0 && s.ForC? && Open(g) && Final(f) && Within(EmitFor(cx, g, s).blocks, f) && fuel > 0
    requires Rel(cx, env, ForFirst(cx, g, s).vars, st.mem) && AllOk(cx, s.body, ForFirst(cx, g, s).vars)
    requires HeadOk(cx, s, ForFirst(cx, g, s).vars)
    ensures
      var o := ExecScope(cx, w, s.body, env, st.trace, fuel - 1);
      var e :=
        if o.Normal? || o.Continued? then
          var i := ForNext(cx, w, s.step, o.env, o.trace);
          if i.Normal? then ExecFor(cx, w, s.test, s.step, s.body, i.env, i.trace, fuel - 1) else i
        else if o.Broke? then Normal(o.env, o.trace)
        else o;
      Ends(cx, w, f, At(Place(ForTest(cx, g, s), Label(Fb, g.lbl + 1)).blocks, st), g, ForEnd(cx, g, s), e, fuel - 1,
          n, s')
    decreases fuel, s, 0
  {
    hide *;
    var hl, bl, sl, el := Label(Fh, g.lbl), Label(Fb, g.lbl + 1), Label(Fs, g.lbl + 2), Label(Fe, g.lbl + 3);
    ForDefs(cx, g, s);
    ForGrows(cx, g, s);
    ForEndBlocks(cx, g, s);
    var b, d, r := ForTest(cx, g, s), ForBody(cx, g, s), ForEnd(cx, g, s);
    var p, k0 := Place(b, bl), Place(d, sl);
    StepPlaced(cx, g, s, f);
    Inside(d, EmitFor(cx, g, s), f);
    PlaceGrows(b, bl);
    GrowsDef(b, p);
    PlaceGrows(d, sl);
    var c, o := At(p.blocks, st), ExecScope(cx, w, s.body, env, st.trace, fuel - 1);
    var m, s1 := BodySim(cx, w, f, p, s.body, d, sl, k0, env, st, fuel - 1);
    ScopeMeaning(cx, w, p, s.body, env, st.trace, fuel - 1);
    LeaveShort(ExecStmts(cx, w, s.body, env, st.trace, fuel - 1), |env|);
    OverRel(cx, env, p.vars, st.mem);
    if o.Normal? || o.Continued? {
      BackAround(cx, w, f, c, p, d, sl, k0, o, fuel - 1, m, s1);
      var i := ForNext(cx, w, s.step, o.env, o.trace);
      var k, s2 := ForStepSim(cx, w, f, g, s, o.env, s1);
      if i.Normal? {
        var j;
        j, s' := ForLoop(cx, w, f, g, s, i.env, s2, fuel - 1);
        Prepend(f, w, c, m, At(k0.blocks, s1), k);
        n := m + k + j;
        EndsAfter(cx, w, f, c, m + k, At(ForHead(cx, g, s).blocks, s2), g, r,
                  ExecFor(cx, w, s.test, s.step, s.body, i.env, i.trace, fuel - 1), fuel - 1, fuel - 1, j, s');
      } else {
        n, s' := m, s1;
        EndsWrong(cx, w, f, c, g, r, fuel - 1, n, s');
      }
    } else if o.Broke? {
      n, s' := m, s1;
      BrokenOut(cx, w, f, c, p, k0, BrTo(ForStep(cx, g, s), hl), el, r, o, fuel - 1, n, s');
      EndsNormally(cx, w, f, c, p, r, g, Normal(o.env, o.trace), fuel - 1, n, s');
    } else {
      n, s' := m, s1;
      EndsFinal(cx, w, f, c, p, k0, g, r, o, fuel - 1, n, s');
    }
  }

  /** The step's block is placed, and so are its code and its jump back. */
  lemma StepPlaced(cx: Ctx, g: Gen, s: Stmt, f: seq<Block>)
    requires |g.blocks| > 0 && s.ForC? && Open(g) && Within(EmitFor(cx, g, s).blocks, f)
    ensures
      var k0, d := Place(ForBody(cx, g, s), Label(Fs, g.lbl + 2)), ForStep(cx, g, s);
      && Within(k0.blocks, f) && Within(d.blocks, f) && Within(BrTo(d, Label(Fh, g.lbl)).blocks, f)
  {
    hide *;
    ForDefs(cx, g, s);
    ForGrows(cx, g, s);
    ForEndBlocks(cx, g, s);
    var hl, el := Label(Fh, g.lbl), Label(Fe, g.lbl + 3);
    var b, d := ForBody(cx, g, s), ForStep(cx, g, s);
    var k0 := Place(b, Label(Fs, g.lbl + 2));
    Inside(d, EmitFor(cx, g, s), f);
    PlaceGrows(b, Label(Fs, g.lbl + 2));
    if s.step.Some? {
      EffectGrows(cx, k0, s.step.value);
      GrowsDef(k0, d);
      Inside(k0, d, f);
    }
    PlaceGrows(BrTo(d, hl), el);
    GrowsDef(BrTo(d, hl), ForEnd(cx, g, s));
    Inside(BrTo(d, hl), ForEnd(cx, g, s), f);
  }

  lemma ForNextDef(cx: Ctx, w: World, step: Option<Effect>, env: Env, tr: seq<Event>)
    ensures step.Some? ==> ForNext(cx, w, step, env, tr) == ExecEffect(cx, w, step.value, env, tr)
    ensures step.None? ==> ForNext(cx, w, step, env, tr) == Normal(env, tr)
  {
    hide ExecEffect;
  }

  lemma ForStepSim(cx: Ctx, w: World, f: seq<Block>, g: Gen, s: Stmt, env: Env, st: State)
      returns (n: nat, s': State)
    requires |g.blocks| > 0 && s.ForC? && Open(g) && Final(f) && Within(EmitFor(cx, g, s).blocks, f)
    requires Rel(cx, env, ForFirst(cx, g, s).vars, st.mem)
    requires HeadOk(cx, s, ForFirst(cx, g, s).vars)
    ensures
      var o := ForNext(cx, w, s.step, env, st.trace);
      && (o.Normal? || o.Wrong?)
      && (o.Normal? ==>
            && Run(f, w, At(Place(ForBody(cx, g, s), Label(Fs, g.lbl + 2)).blocks, st), n)
                == At(ForHead(cx, g, s).blocks, s')
            && s'.trace == o.trace && Rel(cx, o.env, ForFirst(cx, g, s).vars, s'.mem))
  {
    hide *;
    HeadParts(cx, s, ForFirst(cx, g, s).vars);
    ForDefs(cx, g, s);
    ForGrows(cx, g, s);
    ForNextDef(cx, w, s.step, env, st.trace);
    StepPlaced(cx, g, s, f);
    var hl := Label(Fh, g.lbl);
    var b, d, i := ForBody(cx, g, s), ForStep(cx, g, s), ForFirst(cx, g, s);
    var k0 := Place(b, Label(Fs, g.lbl + 2));
    Inside(ForHead(cx, g, s), EmitFor(cx, g, s), f);
    Placed(b, Label(Fs, g.lbl + 2));
    PlaceGrows(b, Label(Fs, g.lbl + 2));
    var c := At(k0.blocks, st);
    if s.step.None? {
      n, s' := 1, st;
      JumpAt(f, w, d, hl, BrTo(i, hl), st);
    } else {
      var o := ForNext(cx, w, s.step, env, st.trace);
      var m;
      m, s' := EffectEnds(cx, w, f, k0, s.step.value, env, st, 0);
      n := m + 1;
      EffectOutcome(cx, w, s.step.value, env, st.trace);
      if o.Normal? {
        NormalParts(cx, w, f, c, k0, d, o, 0, m, s');
        JumpAt(f, w, d, hl, BrTo(i, hl), s');
        Prepend(f, w, c, m, At(d.blocks, s'), 1);
      }
    }
  }

  // ----- match -----

  /** The test of a pattern decides whether it matches. */
  lemma PatternSim(p: Pattern, x: Operand, t: IntTy, v: int, tmp: nat, w: World, s: State) returns (s': State)
    requires !p.Wildcard? && Holds(x, t, v, s.temps, tmp)
    ensures
      var c := EmitPattern(p, x, t, tmp);
      && Ran(c.instrs, w, s, s', tmp) && s'.trace == s.trace
      && Read(c.op, I1, s'.temps) == Some(Truth(Matches(p, t, v)))
  {
    match p
    case Literal(n) => s' := LiteralPatternSim(n, x, t, v, tmp, w, s);
    case Range(lo, hi) => s' := RangePatternSim(lo, hi, x, t, v, tmp, w, s);
  }

  lemma LiteralPatternSim(n: long, x: Operand, t: IntTy, v: int, tmp: nat, w: World, s: State) returns (s': State)
    requires Holds(x, t, v, s.temps, tmp)
    ensures
      var c := EmitPattern(Literal(n), x, t, tmp);
      && Ran(c.instrs, w, s, s', tmp) && s'.trace == s.trace
      && Read(c.op, I1, s'.temps) == Some(Truth(Matches(Literal(n), t, v)))
  {
    hide TempName, Num, Wrap, TempsKept, Ran;
    s' := SetTemp(Icmp(Eq, TempName(tmp), t, x, Lit(n)), tmp, Truth(v == Wrap(t, n)), I1, w, s);
    ReadHolds(Reg(TempName(tmp)), I1, Truth(v == Wrap(t, n)), s'.temps, tmp + 1);
  }

  lemma TruthAnd(a: bool, b: bool)
    ensures Compute(And, I1, Truth(a), Truth(b)) == Some(Truth(a && b))
  {
    BitUnits(-1);
    BitUnits(0);
    BitSelf(0);
    BitStep(BitAnd, -1, 0);
    BitStep(BitAnd, 0, 0);
  }

  lemma RanLower(code: seq<Instr>, w: World, s: State, s': State, lo: int, lo': int)
    requires Ran(code, w, s, s', lo) && lo' <= lo
    ensures Ran(code, w, s, s', lo')
  {
  }

  lemma RangePatternSim(lo: long, hi: long, x: Operand, t: IntTy, v: int, tmp: nat, w: World, s: State)
      returns (s': State)
    requires Holds(x, t, v, s.temps, tmp)
    ensures
      var c := EmitPattern(Range(lo, hi), x, t, tmp);
      && Ran(c.instrs, w, s, s', tmp) && s'.trace == s.trace
      && Read(c.op, I1, s'.temps) == Some(Truth(Matches(Range(lo, hi), t, v)))
  {
    hide TempName, Num, Wrap, TempsKept, Ran, Compute, Rel, Exec, EmitExpr;
    var a, b, k := tmp + 1, tmp + 2, tmp + 3;
    var p, q := v >= Wrap(t, lo), v <= Wrap(t, hi);
    var i1, i2 := Icmp(Sge, TempName(a), t, x, Lit(lo)), Icmp(Sle, TempName(b), t, x, Lit(hi));
    var i3 := Bin(And, TempName(k), I1, Reg(TempName(a)), Reg(TempName(b)));
    var s1 := SetTemp(i1, a, Truth(p), I1, w, s);
    RanKept([i1], w, s, s1, a);
    HoldsKept(x, t, v, s.temps, s1.temps, a, a);
    var s2 := SetTemp(i2, b, Truth(q), I1, w, s1);
    RanKept([i2], w, s1, s2, b);
    HoldsKept(Reg(TempName(a)), I1, Truth(p), s1.temps, s2.temps, b, b);
    TruthAnd(p, q);
    s' := SetTemp(i3, k, Truth(p && q), I1, w, s2);
    RanLower([i1], w, s, s1, a, tmp);
    RanThen([i1], [i2], w, s, s1, s2, tmp, b);
    RanThen([i1] + [i2], [i3], w, s, s2, s', tmp, k);
    assert [i1] + [i2] + [i3] == [i1, i2, i3];
    ReadHolds(Reg(TempName(k)), I1, Truth(p && q), s'.temps, k + 1);
  }

  lemma {:induction false} MatchSim(cx: Ctx, w: World, f: seq<Block>, g: Gen, s: Stmt, env: Env, st: State, fuel: nat)
      returns (n: nat, s': State)
    requires |g.blocks| > 0 && s.Match? && Open(g) && Final(f) && Rel(cx, env, g.vars, st.mem)
    requires Ok(cx, s, g.vars)
    requires Within(EmitMatch(cx, g, s.e, s.arms).blocks, f)
    ensures Ends(cx, w, f, At(g.blocks, st), g, EmitMatch(cx, g, s.e, s.arms), Exec(cx, w, s, env, st.trace, fuel),
        fuel, n, s')
    decreases fuel, s, 2
  {
    hide *;
    OkTypes(cx, s, g.vars);
    OkMeaning(cx, s, g.vars);
    LoopMeaning(cx, w, s, env, st.trace, fuel);
    MatchDefs(cx, g, s.e, s.arms);
    MatchGrows(cx, g, s.e, s.arms);
    var v, el, t := EmitExpr(cx, g.vars, s.e, g.tmp), Label(Mend, g.lbl), EvalExpr(cx, w, s.e, env, st.trace);
    var a, b, r := MatchStart(cx, g, s.e, s.arms), MatchArms(cx, g, s.e, s.arms), EmitMatch(cx, g, s.e, s.arms);
    var c := At(g.blocks, st);
    if t.Failed? {
      n, s' := 0, st;
      WrongEnds(cx, w, f, c, g, r, Wrong, fuel, st);
    } else {
      Inside(a, r, f);
      Inside(b, r, f);
      var s1 := TypedSim(cx, w, s.e, env, g.vars, g.tmp, st);
      RanCode(v.instrs, w, st, s1, g.tmp);
      var g' := g.(lbl := g.lbl + 1 + ArmCount(s.arms));
      StraightAt(f, w, g', v, st, s1);
      SamePosition(g, g');
      StartOpen(cx, g', s.e, v);
      var k;
      k, s' := ArmsSim(cx, w, f, a, v.op, t.ty, t.v, s.arms, g.lbl + 1, el, b, r, env, s1, fuel);
      n := |v.instrs| + k;
      GrowsDef(g, a);
      var o := ExecArms(cx, w, s.arms, t.ty, t.v, env, t.trace, fuel);
      EndsAfter(cx, w, f, c, |v.instrs|, At(a.blocks, s1), a, r, o, fuel, fuel, k, s');
      EndsOutside(cx, w, f, c, a, g, r, o, fuel, n, s');
    }
  }

  lemma RanCode(code: seq<Instr>, w: World, s: State, s': State, lo: int)
    requires Ran(code, w, s, s', lo)
    ensures ExecCode(code, w, s) == Some(s')
  {
  }

  lemma StartOpen(cx: Ctx, g: Gen, e: Expr, v: Code)
    requires |g.blocks| > 0 && v == EmitExpr(cx, g.vars, e, g.tmp) && Open(g)
    ensures Open(Straight(g, v))
  {
    hide *;
    LowerGraph.ExprPlain(cx, g.vars, e, g.tmp);
    StraightGrows(g, v);
  }

  /** The arms in order: the first that matches is run. */
  lemma ArmsSim(cx: Ctx, w: World, f: seq<Block>, r: Gen, x: Operand, t: IntTy, v: int, arms: Arms, first: nat,
                el: string,
                q: Gen, k: Gen, env: Env, st: State, fuel: nat) returns (n: nat, s': State)
    requires |r.blocks| > 0 && Open(r) && Final(f) && Rel(cx, env, r.vars, st.mem) && ArmsOk(cx, arms, r.vars)
    requires Holds(x, t, v, st.temps, r.tmp)
    requires Within(BrTo(EmitArms(cx, r, x, t, arms, first, el), el).blocks, f) && Within(Place(q, el).blocks, f)
    requires k.blocks == Place(q, el).blocks && k.vars == r.vars
    ensures Ends(cx, w, f, At(r.blocks, st), r, k, ExecArms(cx, w, arms, t, v, env, st.trace, fuel), fuel, n, s')
    decreases fuel, arms, 1
  {
    hide *;
    ArmsDef(cx, r, x, t, arms, first, el);
    ArmsMeaning(cx, w, arms, t, v, env, st.trace, fuel);
    var c := At(r.blocks, st);
    match arms
    case NoArms =>
      n, s' := 1, st;
      JumpAt(f, w, r, el, q, st);
      NormalEnds(cx, w, f, c, r, k, Normal(env, st.trace), fuel, n, s');
    case MoreArms(p, body, rest) =>
      var l, h := Label(Marm, first), ArmNext(cx, r, x, t, arms, first, el);
      var z := EmitArms(cx, h, x, t, rest, first + 1, el);
      ArmsGrow(cx, h, x, t, rest, first + 1, el);
      ArmNextGrows(cx, r, x, t, arms, first, el);
      BrToGrows(z, el);
      GrowsDef(z, BrTo(z, el));
      GrowsDef(h, z);
      GrowsDef(r, h);
      Inside(z, BrTo(z, el), f);
      Inside(h, z, f);
      ArmsOkMeaning(cx, p, body, rest, r.vars);
      if p.Wildcard? {
        AlwaysMatches(t, v);
        n, s' := WildSim(cx, w, f, r, l, body, el, q, k, env, st, fuel);
      } else {
        var m, s1 := ArmTestSim(cx, w, f, r, x, t, v, arms, first, el, env, st);
        var a := ArmTest(r, x, t, p, l);
        GrowsDef(r, a);
        if Matches(p, t, v) {
          Inside(EmitArm(cx, a, l, body, el), h, f);
          var j;
          j, s' := ArmSim(cx, w, f, a, l, body, el, q, k, env, s1, fuel);
          n := m + j;
          var o := Leave(Exec(cx, w, body, env, s1.trace, fuel), |env|);
          EndsAfter(cx, w, f, c, m, At(Place(a, l).blocks, s1), a, k, o, fuel, fuel, j, s');
          EndsOutside(cx, w, f, c, a, r, k, o, fuel, n, s');
        } else {
          var j;
          PlaceGrows(EmitArm(cx, a, l, body, el), Label(Mcnext, r.lbl));
          GrowsTmp(r, h);
          HoldsKept(x, t, v, st.temps, s1.temps, r.tmp, h.tmp);
          j, s' := ArmsSim(cx, w, f, h, x, t, v, rest, first + 1, el, q, k, env, s1, fuel);
          n := m + j;
          var o := ExecArms(cx, w, rest, t, v, env, s1.trace, fuel);
          EndsAfter(cx, w, f, c, m, At(h.blocks, s1), h, k, o, fuel, fuel, j, s');
          EndsOutside(cx, w, f, c, h, r, k, o, fuel, n, s');
        }
      }
  }

  lemma GrowsTmp(g: Gen, r: Gen)
    requires Grows(g, r)
    ensures g.tmp <= r.tmp
  {
    hide Within;
  }

  lemma AlwaysMatches(t: Ty, v: int)
    ensures Matches(Wildcard, t, v)
  {
  }

  lemma ArmsOkMeaning(cx: Ctx, p: Pattern, body: Stmt, rest: Arms, vars: seq<VarEntry>)
    requires ArmsOk(cx, MoreArms(p, body, rest), vars)
    ensures Ok(cx, body, vars) && ArmsOk(cx, rest, vars)
  {
    hide Ok;
  }

  /** The arm's block: its body in a scope of its own, then past the match. */
  lemma ArmSim(cx: Ctx, w: World, f: seq<Block>, a: Gen, l: string, body: Stmt, el: string, q: Gen, k: Gen, env: Env,
               st: State, fuel: nat) returns (n: nat, s': State)
    requires |a.blocks| > 0 && Final(f) && Rel(cx, env, a.vars, st.mem) && Ok(cx, body, a.vars)
    requires Within(EmitArm(cx, a, l, body, el).blocks, f) && Within(Place(q, el).blocks, f)
    requires k.blocks == Place(q, el).blocks && k.vars == a.vars
    ensures Ends(cx, w, f, At(Place(a, l).blocks, st), a, k, Leave(Exec(cx, w, body, env, st.trace, fuel), |env|),
        fuel, n, s')
    decreases fuel, body, 5
  {
    hide *;
    ArmGrows(cx, a, l, body, el);
    var g := Place(a, l);
    var p := ScopePush(g);
    ScopeDefs(g);
    var i, arm := EmitStmt(cx, p, body), EmitArm(cx, a, l, body, el);
    var e := ScopePop(i);
    ScopeDefs(i);
    PlaceGrows(a, l);
    GrowsDef(a, g);
    SamePosition(g, p);
    StmtGrows(cx, p, body);
    GrowsDef(p, i);
    Inside(i, arm, f);
    var o, c := Exec(cx, w, body, env, st.trace, fuel), At(g.blocks, st);
    var m;
    m, s' := StmtSim(cx, w, f, p, body, env, st, fuel);
    LeaveEnds(cx, w, f, c, a, p, i, e, env, st.mem, o, fuel, m, s');
    n := JumpEnds(cx, w, f, c, a, e, q, el, k, Leave(o, |env|), fuel, m, s');
  }

  lemma WildSim(cx: Ctx, w: World, f: seq<Block>, r: Gen, l: string, body: Stmt, el: string, q: Gen, k: Gen, env: Env,
                st: State, fuel: nat) returns (n: nat, s': State)
    requires |r.blocks| > 0 && Open(r) && Final(f) && Rel(cx, env, r.vars, st.mem) && Ok(cx, body, r.vars)
    requires Within(EmitArm(cx, Emit(r, [Br(l)]), l, body, el).blocks, f) && Within(Place(q, el).blocks, f)
    requires k.blocks == Place(q, el).blocks && k.vars == r.vars
    ensures Ends(cx, w, f, At(r.blocks, st), r, k, Leave(Exec(cx, w, body, env, st.trace, fuel), |env|), fuel, n, s')
    decreases fuel, body, 6
  {
    hide *;
    var a := Emit(r, [Br(l)]);
    EmitGrows(r, [Br(l)]);
    BrToGrows(r, l);
    ArmGrows(cx, a, l, body, el);
    PlacedBefore(a, l, EmitArm(cx, a, l, body, el), f);
    JumpAt(f, w, r, l, a, st);
    var m;
    m, s' := ArmSim(cx, w, f, a, l, body, el, q, k, env, st, fuel);
    n := 1 + m;
    var o := Leave(Exec(cx, w, body, env, st.trace, fuel), |env|);
    EndsAfter(cx, w, f, At(r.blocks, st), 1, At(Place(a, l).blocks, st), a, k, o, fuel, fuel, m, s');
    GrowsDef(r, a);
    EndsOutside(cx, w, f, At(r.blocks, st), a, r, k, o, fuel, n, s');
  }

  lemma ArmTestSim(cx: Ctx, w: World, f: seq<Block>, r: Gen, x: Operand, t: IntTy, v: int, arms: Arms, first: nat,
                   el: string, env: Env, st: State) returns (n: nat, s': State)
    requires |r.blocks| > 0 && arms.MoreArms? && !arms.pat.Wildcard? && Final(f)
    requires Holds(x, t, v, st.temps, r.tmp) && Within(ArmNext(cx, r, x, t, arms, first, el).blocks, f)
    ensures
      var l, h := Label(Marm, first), ArmNext(cx, r, x, t, arms, first, el);
      && Run(f, w, At(r.blocks, st), n)
           == At(if Matches(arms.pat, t, v) then Place(ArmTest(r, x, t, arms.pat, l), l).blocks else h.blocks, s')
      && s'.mem == st.mem && s'.trace == st.trace && TempsKept(st.temps, s'.temps, r.tmp)
  {
    hide *;
    var p, l, nl, h := arms.pat, Label(Marm, first), Label(Mcnext, r.lbl), ArmNext(cx, r, x, t, arms, first, el);
    ArmNextGrows(cx, r, x, t, arms, first, el);
    TestedDef(cx, r, x, t, p, arms.body, l, el);
    var a, d := ArmTest(r, x, t, p, l), EmitPattern(p, x, t, r.tmp);
    var e := EmitArm(cx, a, l, arms.body, el);
    Inside(a, h, f);
    Inside(e, h, f);
    ArmGrows(cx, a, l, arms.body, el);
    PlacedBefore(a, l, e, f);
    s' := PatternSim(p, x, t, v, r.tmp, w, st);
    RanKept(d.instrs, w, st, s', r.tmp);
    RanCode(d.instrs, w, st, s', r.tmp);
    Lands(f, a, l, s');
    Lands(f, e, nl, s');
    n := |d.instrs| + 1;
    StraightBlocks(r.(lbl := r.lbl + 1), d.(instrs := d.instrs + [BrCond(d.op, l, nl)]));
    BranchIsTerm(d.op, l, nl);
    ClosingAt(f, w, r.(lbl := r.lbl + 1), d.instrs, BrCond(d.op, l, nl), st, s');
    BranchTaken(f, d.op, l, nl, Matches(p, t, v), s');
  }

  lemma StraightBlocks(g: Gen, c: Code)
    requires |g.blocks| > 0 && c.tmp >= g.tmp
    ensures Straight(g, c).blocks == Emit(g, c.instrs).blocks
  {
  }

  lemma BranchIsTerm(x: Operand, l: string, nl: string)
    ensures IsTerm(BrCond(x, l, nl))
  {
  }

  lemma BranchTaken(f: seq<Block>, x: Operand, t: string, e: string, b: bool, s: State)
    requires Read(x, I1, s.temps) == Some(Truth(b)) && Find(f, t).Some? && Find(f, e).Some?
    ensures ExecTerm(f, BrCond(x, t, e), s) == Goto(Find(f, if b then t else e), s)
  {
    hide Find, Read;
  }
}
