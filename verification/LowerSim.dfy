/** Lowering preserves meaning: running the blocks built for a statement does what the statement says. */
module LowerSim {
  import opened Words
  import opened Fir
  import opened Source
  import opened Lower
  import opened LowerDefs
  import opened LowerExpr
  import opened LowerGrow
  import opened LowerStep
  import opened Typing

  // ----- what is asked of a body -----

  /** A declaration takes a slot that no live variable has and a name that no constant has, and there is
      room in the table; static types are kept, and calls are ordinary ones; statements are shaped as the
      parser shapes them. */
  predicate Ok(cx: Ctx, s: Stmt, vars: seq<VarEntry>)
    decreases s, 0
  {
    Shaped(s) && KeptStmt(cx, vars, s) && PlainStmt(s) &&
    match s
    case Decl(x, _, _, _) => |vars| < MAX_VARS && ConstFrom(cx.comptime, x).None? && FreshSlot(vars, x)
    case If(_, thn, els) => AllOk(cx, thn, vars) && (els.Some? ==> Ok(cx, els.value, vars))
    case While(_, body) => AllOk(cx, body, vars)
    case DoWhile(body, _) => AllOk(cx, body, vars)
    case ForC(first, _, _, body) =>
      (first.Some? ==> Ok(cx, first.value, vars)) && AllOk(cx, body, FirstVars(cx, vars, first))
    case Match(_, arms) => ArmsOk(cx, arms, vars)
    case Scope(body) => AllOk(cx, body, vars)
    case _ => true
  }

  predicate AllOk(cx: Ctx, ss: Stmts, vars: seq<VarEntry>)
    decreases ss, 0
  {
    match ss
    case NoStmts => true
    case MoreStmts(s, rest) => Ok(cx, s, vars) && AllOk(cx, rest, VarsAfter(cx, vars, s))
  }

  predicate ArmsOk(cx: Ctx, arms: Arms, vars: seq<VarEntry>)
    decreases arms, 0
  {
    match arms
    case NoArms => true
    case MoreArms(_, body, rest) => Ok(cx, body, vars) && ArmsOk(cx, rest, vars)
  }

  // ----- what a run achieves -----

  /** The environment of an abrupt exit, seen from outside: it covers at least the variables in `vars`. */
  predicate Over(cx: Ctx, env: Env, vars: seq<VarEntry>, mem: map<string, Cell>) {
    |env| >= |vars| && Rel(cx, env[..|vars|], vars, mem)
  }

  /** From `c`, in `n` steps, the machine does what outcome `o` says of the statement built from `g`
      to `r`. A statement still running when its fuel is gone keeps the machine running as long. */
  ghost predicate Ends(cx: Ctx, w: World, f: seq<Block>, c: Config, g: Gen, r: Gen, o: Outcome, fuel: nat,
                       n: nat, s: State) {
    match o
    case Normal(env, tr) => Run(f, w, c, n) == At(r.blocks, s) && Rel(cx, env, r.vars, s.mem) && s.trace == tr
    case Broke(env, tr) =>
      g.brk.Some? ==> Run(f, w, c, n) == Goto(Find(f, g.brk.value), s) && Over(cx, env, g.vars, s.mem) && s.trace == tr
    case Continued(env, tr) =>
      g.cont.Some? ==>
        Run(f, w, c, n) == Goto(Find(f, g.cont.value), s) && Over(cx, env, g.vars, s.mem) && s.trace == tr
    case Returned(v, tr) => Run(f, w, c, n) == Done(v, s) && s.trace == tr
    case OutOfFuel => n >= fuel && Run(f, w, c, n).Running?
    case Wrong => true
  }

  /** Steps taken before may be counted in. */
  lemma EndsAfter(cx: Ctx, w: World, f: seq<Block>, c: Config, m: nat, c': Config, g: Gen, r: Gen, o: Outcome,
                  fuel: nat, fuel': nat, n: nat, s: State)
    requires Run(f, w, c, m) == c' && Ends(cx, w, f, c', g, r, o, fuel, n, s) && fuel' <= fuel + m
    ensures Ends(cx, w, f, c, g, r, o, fuel', m + n, s)
  {
    hide Run, Rel, Over, At, Find;
    Prepend(f, w, c, m, c', n);
  }

  /** An outcome other than Normal is judged by the loop labels and the variables outside alone. */
  lemma EndsAbrupt(cx: Ctx, w: World, f: seq<Block>, c: Config, g: Gen, r: Gen, g': Gen, r': Gen, o: Outcome, fuel: nat,
                   n: nat, s: State)
    requires Ends(cx, w, f, c, g, r, o, fuel, n, s) && !o.Normal?
    requires g'.brk == g.brk && g'.cont == g.cont && g'.vars <= g.vars
    ensures Ends(cx, w, f, c, g', r', o, fuel, n, s)
  {
    hide Run, Rel, At, Find;
    if o.Broke? && g.brk.Some? { OverFewer(cx, o.env, g.vars, g'.vars, s.mem); }
    if o.Continued? && g.cont.Some? { OverFewer(cx, o.env, g.vars, g'.vars, s.mem); }
  }

  lemma RelFewer(cx: Ctx, env: Env, vars: seq<VarEntry>, k: nat, mem: map<string, Cell>)
    requires Rel(cx, env, vars, mem) && k <= |vars|
    ensures |env| == |vars| && Rel(cx, env[..k], vars[..k], mem)
  {
    hide SlotName, ConstFrom, InRange;
  }

  lemma OverFewer(cx: Ctx, env: Env, vars: seq<VarEntry>, vars': seq<VarEntry>, mem: map<string, Cell>)
    requires Over(cx, env, vars, mem) && vars' <= vars
    ensures Over(cx, env, vars', mem)
  {
    hide Rel;
    var k := |vars'|;
    RelFewer(cx, env[..|vars|], vars, k, mem);
    assert env[..|vars|][..k] == env[..k] && vars[..k] == vars';
  }

  lemma OverRel(cx: Ctx, env: Env, vars: seq<VarEntry>, mem: map<string, Cell>)
    requires Rel(cx, env, vars, mem)
    ensures Over(cx, env, vars, mem) && |env| == |vars|
  {
    hide SlotName, ConstFrom, InRange;
    assert env[..|vars|] == env;
  }

  /** Leaving a scope: its variables go, the others are as the scope left them. */
  lemma LeaveEnds(cx: Ctx, w: World, f: seq<Block>, c: Config, g: Gen, h: Gen, r: Gen, k: Gen, env: Env,
                  mem: map<string, Cell>, o: Outcome, fuel: nat, n: nat, s: State)
    requires Rel(cx, env, g.vars, mem) && Ends(cx, w, f, c, h, r, o, fuel, n, s)
    requires h.vars == g.vars && h.brk == g.brk && h.cont == g.cont && g.vars <= r.vars
    requires k.blocks == r.blocks && k.vars == g.vars
    ensures Ends(cx, w, f, c, g, k, Leave(o, |env|), fuel, n, s)
  {
    hide Run, Rel, At, Find;
    OverRel(cx, env, g.vars, mem);
    if o.Normal? {
      OverRel(cx, o.env, r.vars, s.mem);
      OverFewer(cx, o.env, r.vars, g.vars, s.mem);
    } else if (o.Broke? && g.brk.Some?) || (o.Continued? && g.cont.Some?) {
      var e := o.env[..|g.vars|];
      assert e[..|g.vars|] == e;
    }
  }

  /** After a construction that ends normally in an open block comes a jump to a label. */
  lemma JumpEnds(cx: Ctx, w: World, f: seq<Block>, c: Config, g: Gen, e: Gen, q: Gen, l: string, k: Gen, o: Outcome,
                 fuel: nat, n: nat, s: State) returns (n': nat)
    requires |e.blocks| > 0 && Open(e) && Final(f) && Ends(cx, w, f, c, g, e, o, fuel, n, s)
    requires Within(BrTo(e, l).blocks, f) && Within(Place(q, l).blocks, f)
    requires k.blocks == Place(q, l).blocks && k.vars == e.vars
    ensures Ends(cx, w, f, c, g, k, o, fuel, n', s) && n' >= n
  {
    hide *;
    if o.Normal? {
      n' := n + 1;
      NormalParts(cx, w, f, c, g, e, o, fuel, n, s);
      JumpAt(f, w, e, l, q, s);
      Prepend(f, w, c, n, At(e.blocks, s), 1);
      NormalEnds(cx, w, f, c, g, k, o, fuel, n', s);
    } else {
      n' := n;
      EndsAbrupt(cx, w, f, c, g, e, g, k, o, fuel, n, s);
    }
  }

  lemma NormalParts(cx: Ctx, w: World, f: seq<Block>, c: Config, g: Gen, r: Gen, o: Outcome, fuel: nat, n: nat,
                    s: State)
    requires Ends(cx, w, f, c, g, r, o, fuel, n, s) && o.Normal?
    ensures Run(f, w, c, n) == At(r.blocks, s) && Rel(cx, o.env, r.vars, s.mem) && s.trace == o.trace
  {
  }

  lemma NormalEnds(cx: Ctx, w: World, f: seq<Block>, c: Config, g: Gen, r: Gen, o: Outcome, fuel: nat, n: nat, s: State)
    requires o.Normal? && Run(f, w, c, n) == At(r.blocks, s) && Rel(cx, o.env, r.vars, s.mem) && s.trace == o.trace
    ensures Ends(cx, w, f, c, g, r, o, fuel, n, s)
  {
  }

  lemma WrongEnds(cx: Ctx, w: World, f: seq<Block>, c: Config, g: Gen, r: Gen, o: Outcome, fuel: nat, s: State)
    requires o.Wrong?
    ensures Ends(cx, w, f, c, g, r, o, fuel, 0, s)
  {
  }

  /** A finished function holds every beginning of it. */
  lemma Inside(g: Gen, r: Gen, f: seq<Block>)
    requires Appends(g, r) && Within(r.blocks, f)
    ensures Within(g.blocks, f)
  {
    hide Within;
    WithinTrans(g.blocks, r.blocks, f);
  }

  lemma PlacedBefore(g: Gen, l: string, r: Gen, f: seq<Block>)
    requires Appends(Place(g, l), r) && Within(r.blocks, f)
    ensures Within(Place(g, l).blocks, f) && Within(g.blocks, f)
  {
    hide *;
    Inside(Place(g, l), r, f);
    PlaceGrows(g, l);
    GrowsDef(g, Place(g, l));
    Inside(g, Place(g, l), f);
  }

  // ----- statements without control flow inside -----

  lemma DeclEnds(cx: Ctx, w: World, f: seq<Block>, g: Gen, s: Stmt, env: Env, st: State, fuel: nat)
      returns (n: nat, s': State)
    requires |g.blocks| > 0 && s.Decl? && Within(EmitStmt(cx, g, s).blocks, f) && Rel(cx, env, g.vars, st.mem)
    requires Ok(cx, s, g.vars)
    ensures Ends(cx, w, f, At(g.blocks, st), g, EmitStmt(cx, g, s), Exec(cx, w, s, env, st.trace, fuel), fuel, n, s')
  {
    hide Within, Rel, Run, At, EmitDecl, ExecDecl, ConstFrom, SlotName, FreshSlot, Typed, Suits, Plain;
    var o := Exec(cx, w, s, env, st.trace, fuel);
    DeclOutcome(cx, w, s.x, s.ty, s.init, env, st.trace);
    if o.Normal? {
      n, s' := DeclSim(cx, w, f, g, s.x, s.ty, s.init, env, st);
    } else {
      n, s' := 0, st;
    }
  }

  lemma DeclOutcome(cx: Ctx, w: World, x: string, ty: Option<IntTy>, init: Option<Expr>, env: Env, tr: seq<Event>)
    ensures
      var o := ExecDecl(cx, w, x, ty, init, env, tr);
      o.Normal? || o.Wrong?
  {
    hide EvalExpr;
  }

  lemma EffectOutcome(cx: Ctx, w: World, eff: Effect, env: Env, tr: seq<Event>)
    ensures
      var o := ExecEffect(cx, w, eff, env, tr);
      o.Normal? || o.Wrong?
  {
    hide EvalExpr, Lookup, Compute, SetVar;
  }

  lemma EffectEnds(cx: Ctx, w: World, f: seq<Block>, g: Gen, eff: Effect, env: Env, st: State, fuel: nat)
      returns (n: nat, s': State)
    requires |g.blocks| > 0 && Rel(cx, env, g.vars, st.mem) && KeptEffect(cx, g.vars, eff) && PlainEffect(eff)
    requires Within(Straight(g, EmitEffect(cx, g.vars, eff, g.tmp)).blocks, f)
    ensures
      var r := Straight(g, EmitEffect(cx, g.vars, eff, g.tmp));
      Ends(cx, w, f, At(g.blocks, st), g, r, ExecEffect(cx, w, eff, env, st.trace), fuel, n, s')
  {
    hide *;
    var o := ExecEffect(cx, w, eff, env, st.trace);
    var c := EmitEffect(cx, g.vars, eff, g.tmp);
    var r := Straight(g, c);
    EffectOutcome(cx, w, eff, env, st.trace);
    if o.Normal? {
      s' := EffectSim(cx, w, eff, env, g.vars, g.tmp, st);
      EffectedParts(cx, g.vars, c.instrs, o, w, st, s');
      StraightAt(f, w, g, c, st, s');
      StraightGrows(g, c);
      n := |c.instrs|;
      NormalEnds(cx, w, f, At(g.blocks, st), g, r, o, fuel, n, s');
    } else {
      n, s' := 0, st;
      WrongEnds(cx, w, f, At(g.blocks, st), g, r, o, fuel, st);
    }
  }

  lemma EffectedParts(cx: Ctx, vars: seq<VarEntry>, code: seq<Instr>, o: Outcome, w: World, s: State, s': State)
    requires Effected(cx, vars, code, o, w, s, s')
    ensures o.Normal? && ExecCode(code, w, s) == Some(s') && s'.trace == o.trace && Rel(cx, o.env, vars, s'.mem)
  {
  }

  lemma ReturnEnds(cx: Ctx, w: World, f: seq<Block>, g: Gen, s: Stmt, env: Env, st: State, fuel: nat)
      returns (n: nat, s': State)
    requires |g.blocks| > 0 && s.Return? && Within(EmitStmt(cx, g, s).blocks, f) && Rel(cx, env, g.vars, st.mem)
    requires Ok(cx, s, g.vars)
    ensures Ends(cx, w, f, At(g.blocks, st), g, EmitStmt(cx, g, s), Exec(cx, w, s, env, st.trace, fuel), fuel, n, s')
  {
    hide Within, Rel, Run, At, EmitReturn, EvalExpr, Suits, Plain;
    if Exec(cx, w, s, env, st.trace, fuel).Returned? {
      n, s' := ReturnSim(cx, w, f, g, s.val, env, st, fuel);
    } else {
      n, s' := 0, st;
    }
  }

  lemma AwayEnds(cx: Ctx, w: World, f: seq<Block>, g: Gen, s: Stmt, env: Env, st: State, fuel: nat)
    requires |g.blocks| > 0 && (s.Break? || s.Continue?) && Within(EmitStmt(cx, g, s).blocks, f)
    requires Rel(cx, env, g.vars, st.mem)
    ensures Ends(cx, w, f, At(g.blocks, st), g, EmitStmt(cx, g, s), Exec(cx, w, s, env, st.trace, fuel), fuel, 1, st)
  {
    hide Within, Rel, Run, At, EmitLeave, Find;
    OverRel(cx, env, g.vars, st.mem);
    if s.Break? && g.brk.Some? { AwaySim(f, w, g, g.brk, Brkd, st); }
    if s.Continue? && g.cont.Some? { AwaySim(f, w, g, g.cont, Cntd, st); }
  }
}
