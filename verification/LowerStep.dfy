/** Simple statements: running what was built for one ends where building ended, in a state that agrees
    with the environment the statement leaves. */
module LowerStep {
  import opened Words
  import opened Decimal
  import opened Fir
  import opened Source
  import opened Lower
  import opened LowerExpr
  import opened Typing
  import LowerGraph

  // ----- the machine in finished blocks -----

  /** A finished function: its labels are distinct and no block is marked dead. */
  predicate Final(f: seq<Block>) {
    LowerGraph.DistinctBlocks(f) && forall i :: 0 <= i < |f| ==> !f[i].dead
  }

  /** The machine where building stands: behind everything in the current block. */
  function At(bs: seq<Block>, s: State): Config {
    if bs == [] then Stuck else Running(|bs| - 1, |bs[|bs| - 1].instrs|, s)
  }

  lemma CodeAt(f: seq<Block>, w: World, g: Gen, code: seq<Instr>, s: State, s': State)
    requires |g.blocks| > 0 && Within(Emit(g, code).blocks, f) && ExecCode(code, w, s) == Some(s')
    ensures Run(f, w, At(g.blocks, s), |code|) == At(Emit(g, code).blocks, s')
  {
    hide Step, ExecCode;
    var b := |g.blocks| - 1;
    assert Emit(g, code).blocks[b].instrs == Last(g) + code;
    assert f[b].instrs[|Last(g)|..|Last(g)| + |code|] == code;
    CodeRun(f, w, b, |Last(g)|, code, s);
  }

  lemma TermStep(f: seq<Block>, w: World, b: nat, pc: nat, t: Instr, s: State)
    requires b < |f| && pc < |f[b].instrs| && f[b].instrs[pc] == t && IsTerm(t)
    ensures Run(f, w, Running(b, pc, s), 1) == ExecTerm(f, t, s)
  {
    hide ExecTerm, ExecInstr, IsTerm;
    assert Run(f, w, Running(b, pc, s), 1) == Run(f, w, Step(f, w, Running(b, pc, s)), 0);
  }

  /** Code built at the end of the current block lies there in the finished block. */
  lemma LiesAt(f: seq<Block>, g: Gen, code: seq<Instr>)
    requires |g.blocks| > 0 && Within(Emit(g, code).blocks, f)
    ensures
      var b, k := |g.blocks| - 1, |Last(g)|;
      && b < |f| && k + |code| <= |f[b].instrs| && f[b].instrs[k..k + |code|] == code
  {
    var b := |g.blocks| - 1;
    assert Emit(g, code).blocks[b].instrs == Last(g) + code;
  }

  lemma LiesClosing(f: seq<Block>, g: Gen, code: seq<Instr>, t: Instr)
    requires |g.blocks| > 0 && Within(Emit(g, code + [t]).blocks, f)
    ensures
      var b, k := |g.blocks| - 1, |Last(g)|;
      && b < |f| && k + |code| < |f[b].instrs| && f[b].instrs[k..k + |code|] == code && f[b].instrs[k + |code|] == t
  {
    hide *;
    LiesAt(f, g, code + [t]);
    SlicePrefix(f[|g.blocks| - 1].instrs, |Last(g)|, code, t);
  }

  lemma SlicePrefix<T>(s: seq<T>, k: nat, a: seq<T>, t: T)
    requires k + |a + [t]| <= |s| && s[k..k + |a + [t]|] == a + [t]
    ensures k + |a| < |s| && s[k..k + |a|] == a && s[k + |a|] == t
  {
    var all := s[k..k + |a| + 1];
    assert s[k..k + |a|] == all[..|a|] && s[k + |a|] == all[|a|];
  }

  lemma RunToTerm(f: seq<Block>, w: World, g: Gen, code: seq<Instr>, t: Instr, s: State, s': State)
    requires |g.blocks| > 0 && Within(Emit(g, code + [t]).blocks, f) && ExecCode(code, w, s) == Some(s')
    ensures
      var b, pc := |g.blocks| - 1, |Last(g)| + |code|;
      && b < |f| && pc < |f[b].instrs| && f[b].instrs[pc] == t
      && Run(f, w, At(g.blocks, s), |code|) == Running(b, pc, s')
  {
    hide *;
    LiesClosing(f, g, code, t);
    AtDef(g, s);
    CodeRun(f, w, |g.blocks| - 1, |Last(g)|, code, s);
  }

  /** Code that ends in a terminator. */
  lemma ClosingAt(f: seq<Block>, w: World, g: Gen, code: seq<Instr>, t: Instr, s: State, s': State)
    requires |g.blocks| > 0 && Within(Emit(g, code + [t]).blocks, f) && ExecCode(code, w, s) == Some(s') && IsTerm(t)
    ensures Run(f, w, At(g.blocks, s), |code| + 1) == ExecTerm(f, t, s')
  {
    hide *;
    var b, pc, n := |g.blocks| - 1, |Last(g)| + |code|, |code|;
    RunToTerm(f, w, g, code, t, s, s');
    TermStep(f, w, b, pc, t, s');
    Prepend(f, w, At(g.blocks, s), n, Running(b, pc, s'), 1);
  }

  lemma AtDef(g: Gen, s: State)
    requires |g.blocks| > 0
    ensures At(g.blocks, s) == Running(|g.blocks| - 1, |Last(g)|, s)
  {
  }

  /** A jump to a placed label arrives at the beginning of its block. */
  lemma Lands(f: seq<Block>, g: Gen, l: string, s: State)
    requires Final(f) && Within(Place(g, l).blocks, f)
    ensures Find(f, l).Some? && Goto(Find(f, l), s) == At(Place(g, l).blocks, s)
  {
    var n := |g.blocks|;
    assert Place(g, l).blocks[n] == Block(l, [], false);
    assert f[n].name == l && !f[n].dead;
    var k := Find(f, l);
    assert k.Some? && k.value <= n;
  }

  /** The jump that closes an open block. */
  lemma JumpAt(f: seq<Block>, w: World, g: Gen, l: string, q: Gen, s: State)
    requires |g.blocks| > 0 && Open(g) && Final(f) && Within(BrTo(g, l).blocks, f) && Within(Place(q, l).blocks, f)
    ensures Run(f, w, At(g.blocks, s), 1) == At(Place(q, l).blocks, s)
  {
    hide Within, Final, Place, At, Emit, Run, Find, ExecCode;
    assert [] + [Br(l)] == [Br(l)];
    Nothing(w, s);
    ClosingAt(f, w, g, [], Br(l), s, s);
    Lands(f, q, l, s);
  }

  lemma Prepend(f: seq<Block>, w: World, c: Config, m: nat, c': Config, n: nat)
    requires Run(f, w, c, m) == c'
    ensures Run(f, w, c, m + n) == Run(f, w, c', n)
  {
    RunAdd(f, w, c, m, n);
  }

  lemma ExecThen(a: seq<Instr>, b: seq<Instr>, w: World, s: State, m: State, s': State)
    requires ExecCode(a, w, s) == Some(m) && ExecCode(b, w, m) == Some(s')
    ensures ExecCode(a + b, w, s) == Some(s')
  {
    ExecAppend(a, b, w, s);
  }

  lemma StraightAt(f: seq<Block>, w: World, g: Gen, c: Code, s: State, s': State)
    requires |g.blocks| > 0 && c.tmp >= g.tmp && Within(Straight(g, c).blocks, f)
    requires ExecCode(c.instrs, w, s) == Some(s')
    ensures Run(f, w, At(g.blocks, s), |c.instrs|) == At(Straight(g, c).blocks, s')
  {
    hide At, ExecCode, Within;
    CodeAt(f, w, g, c.instrs, s, s');
  }

  // ----- operands -----

  /** An expression brought to a type: its value, at its type or with its type lost. */
  lemma SuitSim(cx: Ctx, w: World, e: Expr, t: IntTy, env: Env, vars: seq<VarEntry>, tmp: nat, s: State)
      returns (s': State)
    requires Rel(cx, env, vars, s.mem) && EvalExpr(cx, w, e, env, s.trace).Val? && Suits(cx, vars, e, t) && Plain(e)
    ensures
      var c, r := EmitExpr(cx, vars, e, tmp), EvalExpr(cx, w, e, env, s.trace);
      && Ran(c.instrs, w, s, s', tmp) && s'.trace == r.trace && Holds(c.op, r.ty, r.v, s'.temps, c.tmp)
      && InRange(r.ty, r.v) && s'.mem == s.mem && TempsKept(s.temps, s'.temps, tmp)
      && (c.ty == r.ty || (c.ty == Ptr && r.ty == t))
  {
    hide *;
    SuitsKept(cx, vars, e, t);
    ReadType(cx, w, e, env, vars, s.mem, s.trace, tmp);
    s' := ExprSim(cx, w, e, env, vars, tmp, s);
    EvaluatedParts(EmitExpr(cx, vars, e, tmp), EvalExpr(cx, w, e, env, s.trace), w, s, s', tmp);
  }

  lemma SuitsKept(cx: Ctx, vars: seq<VarEntry>, e: Expr, t: Ty)
    requires Suits(cx, vars, e, t)
    ensures Kept(cx, vars, e) && (Lost(cx, vars, e) ==> TypeOf(cx, vars, e) == t)
  {
    hide Kept, Lost, TypeOf;
  }

  lemma TypedSuits(cx: Ctx, vars: seq<VarEntry>, e: Expr, t: Ty)
    requires Typed(cx, vars, e)
    ensures Suits(cx, vars, e, t)
  {
    hide Kept, Lost, TypeOf;
  }

  /** An expression whose type is asked for. */
  lemma TypedSim(cx: Ctx, w: World, e: Expr, env: Env, vars: seq<VarEntry>, tmp: nat, s: State) returns (s': State)
    requires Rel(cx, env, vars, s.mem) && EvalExpr(cx, w, e, env, s.trace).Val? && Typed(cx, vars, e) && Plain(e)
    ensures
      var c, r := EmitExpr(cx, vars, e, tmp), EvalExpr(cx, w, e, env, s.trace);
      && Ran(c.instrs, w, s, s', tmp) && s'.trace == r.trace && Holds(c.op, r.ty, r.v, s'.temps, c.tmp)
      && InRange(r.ty, r.v) && s'.mem == s.mem && TempsKept(s.temps, s'.temps, tmp) && c.ty == r.ty
  {
    hide *;
    TypedSuits(cx, vars, e, I32);
    TypedKept(cx, vars, e);
    ReadType(cx, w, e, env, vars, s.mem, s.trace, tmp);
    s' := SuitSim(cx, w, e, I32, env, vars, tmp, s);
  }

  // ----- conditions -----

  lemma TestSim(cx: Ctx, w: World, c: Expr, env: Env, vars: seq<VarEntry>, tmp: nat, s: State) returns (s': State)
    requires Rel(cx, env, vars, s.mem) && Test(cx, w, c, env, s.trace).Val? && Typed(cx, vars, c) && Plain(c)
    ensures
      var e, r := EmitTest(cx, vars, c, tmp), Test(cx, w, c, env, s.trace);
      && Ran(e.instrs, w, s, s', tmp) && s'.trace == r.trace
      && Read(e.op, I1, s'.temps) == Some(r.v)
  {
    hide Num, Wrap, Rel, Holds, TempsKept, EmitExpr, EvalExpr, Typed, Plain;
    var v, r := EmitExpr(cx, vars, c, tmp), EvalExpr(cx, w, c, env, s.trace);
    var m := TypedSim(cx, w, c, env, vars, tmp, s);
    s' := NonZero(v.op, v.tmp, r.v, w, m);
    var i := Icmp(Ne, TempName(v.tmp), I1, v.op, Lit(0));
    RanThen(v.instrs, [i], w, s, m, s', tmp, v.tmp);
    assert v.instrs + [] + [i] == v.instrs + [i];
  }

  /** A truth value compared with zero is itself. */
  lemma NonZero(x: Operand, k: nat, v: int, w: World, s: State) returns (s': State)
    requires Holds(x, I1, v, s.temps, k) && InRange(I1, v)
    ensures Ran([Icmp(Ne, TempName(k), I1, x, Lit(0))], w, s, s', k) && s'.trace == s.trace
    ensures Read(Reg(TempName(k)), I1, s'.temps) == Some(v)
  {
    hide TempName, Num;
    s' := SetTemp(Icmp(Ne, TempName(k), I1, x, Lit(0)), k, v, I1, w, s);
  }

  lemma BranchSim(cx: Ctx, w: World, f: seq<Block>, g: Gen, c: Expr, thn: string, els: string, env: Env, s: State)
      returns (n: nat, s': State)
    requires |g.blocks| > 0 && Within(EmitBranch(cx, g, c, thn, els).blocks, f)
    requires Rel(cx, env, g.vars, s.mem) && Test(cx, w, c, env, s.trace).Val? && Typed(cx, g.vars, c) && Plain(c)
    requires Find(f, thn).Some? && Find(f, els).Some?
    ensures
      var r := Test(cx, w, c, env, s.trace);
      && n > 0 && Run(f, w, At(g.blocks, s), n) == Goto(Find(f, if r.v != 0 then thn else els), s')
      && s'.mem == s.mem && s'.trace == r.trace
  {
    hide Within, Rel, Test, EmitTest, Find, At, TempsKept, Emit, Typed, Plain;
    var e := EmitTest(cx, g.vars, c, g.tmp);
    s' := TestSim(cx, w, c, env, g.vars, g.tmp, s);
    n := |e.instrs| + 1;
    ClosingAt(f, w, g, e.instrs, BrCond(e.op, thn, els), s, s');
  }

  // ----- stores -----

  lemma StoreSim(x: string, t: IntTy, a: Operand, v: int, hi: int, w: World, s: State)
    requires Holds(a, t, v, s.temps, hi) && x in s.mem && s.mem[x].ty == t
    ensures ExecCode([Fir.Store(x, t, a)], w, s) == Some(s.(mem := s.mem[x := Cell(t, Some(v))]))
  {
    hide Wrap, Num;
    ExecOne(Fir.Store(x, t, a), w, s);
  }

  /** No live variable has the slot `x` would get. */
  predicate FreshSlot(vars: seq<VarEntry>, x: string) {
    forall i :: 0 <= i < |vars| ==> SlotName(vars[i].name) != SlotName(x)
  }

  lemma DeclareRel(cx: Ctx, env: Env, vars: seq<VarEntry>, mem: map<string, Cell>, x: string, t: IntTy, v: int)
    requires Rel(cx, env, vars, mem) && FreshSlot(vars, x) && |vars| < MAX_VARS
    requires ConstFrom(cx.comptime, x).None? && InRange(t, v)
    ensures Rel(cx, env + [Binding(x, t, v)], VarDef(vars, x, t), mem[SlotName(x) := Cell(t, Some(v))])
  {
    hide SlotName, ConstFrom, InRange;
  }

  /** Allocating a slot no variable has disturbs none. */
  lemma AllocaRel(cx: Ctx, env: Env, vars: seq<VarEntry>, mem: map<string, Cell>, x: string, c: Cell)
    requires Rel(cx, env, vars, mem) && FreshSlot(vars, x)
    ensures Rel(cx, env, vars, mem[SlotName(x) := c])
  {
    hide SlotName, ConstFrom, InRange;
  }

  lemma SetVarRel(cx: Ctx, env: Env, vars: seq<VarEntry>, mem: map<string, Cell>, k: nat, v: int)
    requires Rel(cx, env, vars, mem) && k < |env|
    ensures
      var b := env[k];
      Rel(cx, SetVar(env, k, v), vars, mem[SlotName(b.name) := Cell(b.ty, Some(Wrap(b.ty, v)))])
  {
    hide SlotName, ConstFrom, Wrap;
  }

  /** What the table says about the variable an environment finds. */
  lemma Found(cx: Ctx, env: Env, vars: seq<VarEntry>, mem: map<string, Cell>, x: string)
    requires Rel(cx, env, vars, mem) && Lookup(env, x).Some?
    ensures
      var k := Lookup(env, x).value;
      var b := env[k];
      && VarLookup(vars, x) == Some(k) && k < |vars| && vars[k].ty == b.ty && vars[k].slot == SlotName(b.name)
      && SlotName(b.name) in mem && mem[SlotName(b.name)] == Cell(b.ty, Some(b.v)) && InRange(b.ty, b.v)
  {
    hide SlotName, ConstFrom, InRange;
    SameLookup(env, vars, x);
  }

  // ----- effects -----

  /** Storing a value of any type into the variable `x` names. */
  lemma AssignSim(cx: Ctx, env: Env, vars: seq<VarEntry>, x: string, a: Operand, own: IntTy, from: Ty, v: int,
                  tmp: nat, w: World, s: State)
      returns (s': State)
    requires Rel(cx, env, vars, s.mem) && Lookup(env, x).Some? && Holds(a, own, v, s.temps, tmp) && InRange(own, v)
    requires from == own || (from == Ptr && own == env[Lookup(env, x).value].ty)
    ensures
      var k := Lookup(env, x).value;
      var t, slot := env[k].ty, SlotName(env[k].name);
      var c := Coerce(a, from, t, tmp);
      && ExecCode(c.instrs + [Fir.Store(slot, t, c.op)], w, s) == Some(s')
      && s'.trace == s.trace && Rel(cx, SetVar(env, k, v), vars, s'.mem)
  {
    hide Rel, Lookup, Holds, ExecCode, Wrap, SlotName, SetVar, Coerce, TempsKept;
    Found(cx, env, vars, s.mem, x);
    var k := Lookup(env, x).value;
    var t, slot := env[k].ty, SlotName(env[k].name);
    var c := Coerce(a, from, t, tmp);
    var m := CoerceSim(a, own, from, t, tmp, v, w, s);
    StoreSim(slot, t, c.op, Wrap(t, v), c.tmp, w, m);
    s' := m.(mem := m.mem[slot := Cell(t, Some(Wrap(t, v)))]);
    ExecThen(c.instrs, [Fir.Store(slot, t, c.op)], w, s, m, s');
    SetVarRel(cx, env, vars, s.mem, k, v);
  }

  /** What running an effect's code achieves. */
  ghost predicate Effected(cx: Ctx, vars: seq<VarEntry>, code: seq<Instr>, o: Outcome, w: World, s: State, s': State) {
    o.Normal? && ExecCode(code, w, s) == Some(s') && s'.trace == o.trace && Rel(cx, o.env, vars, s'.mem)
  }

  lemma EvalSim(cx: Ctx, w: World, e: Expr, env: Env, vars: seq<VarEntry>, tmp: nat, s: State) returns (s': State)
    requires Rel(cx, env, vars, s.mem) && ExecEffect(cx, w, Eval(e), env, s.trace).Normal?
    requires Kept(cx, vars, e) && Plain(e)
    ensures Effected(cx, vars, EmitEffect(cx, vars, Eval(e), tmp).instrs, ExecEffect(cx, w, Eval(e), env, s.trace), w,
        s, s')
  {
    hide Rel, EmitExpr, EvalExpr, ExecCode, TempsKept, Holds;
    s' := ExprSim(cx, w, e, env, vars, tmp, s);
  }

  lemma IncrementSim(cx: Ctx, w: World, up: bool, x: string, env: Env, vars: seq<VarEntry>, tmp: nat, s: State)
      returns (s': State)
    requires
      var eff := if up then Increment(x) else Decrement(x);
      && Rel(cx, env, vars, s.mem) && ExecEffect(cx, w, eff, env, s.trace).Normal?
      && Typed(cx, vars, Var(x))
    ensures
      var eff := if up then Increment(x) else Decrement(x);
      Effected(cx, vars, EmitEffect(cx, vars, eff, tmp).instrs, ExecEffect(cx, w, eff, env, s.trace), w, s, s')
  {
    hide Rel, EmitStepBy, SetVar, Effected, Lookup;
    s' := StepBySim(cx, w, if up then Add else Sub, x, env, vars, tmp, s);
  }

  lemma EffectSim(cx: Ctx, w: World, eff: Effect, env: Env, vars: seq<VarEntry>, tmp: nat, s: State) returns (s': State)
    requires Rel(cx, env, vars, s.mem) && ExecEffect(cx, w, eff, env, s.trace).Normal?
    requires KeptEffect(cx, vars, eff) && PlainEffect(eff)
    ensures Effected(cx, vars, EmitEffect(cx, vars, eff, tmp).instrs, ExecEffect(cx, w, eff, env, s.trace), w, s, s')
  {
    hide *;
    EffectParts(cx, w, eff, env, vars, s);
    match eff
    case Assign(x, e) => s' := PlainAssignSim(cx, w, x, e, env, vars, tmp, s);
    case Compound(op, x, e) => s' := CompoundSim(cx, w, op, x, e, env, vars, tmp, s);
    case Increment(x) => s' := IncrementSim(cx, w, true, x, env, vars, tmp, s);
    case Decrement(x) => s' := IncrementSim(cx, w, false, x, env, vars, tmp, s);
    case Eval(e) => s' := EvalSim(cx, w, e, env, vars, tmp, s);
  }

  /** What is asked of an effect on a variable. */
  lemma EffectParts(cx: Ctx, w: World, eff: Effect, env: Env, vars: seq<VarEntry>, s: State)
    requires Rel(cx, env, vars, s.mem) && ExecEffect(cx, w, eff, env, s.trace).Normal?
    requires KeptEffect(cx, vars, eff) && PlainEffect(eff)
    ensures
      eff.Assign? || eff.Compound? ==>
        Lookup(env, eff.x).Some? && Suits(cx, vars, eff.e, env[Lookup(env, eff.x).value].ty) && Plain(eff.e)
    ensures eff.Increment? || eff.Decrement? ==> Typed(cx, vars, Var(eff.x))
    ensures eff.Eval? ==> Kept(cx, vars, eff.e) && Plain(eff.e)
  {
    hide EvalExpr, Plain, Suits, Kept, Typed, Compute, Rel;
    if eff.Assign? || eff.Compound? { Found(cx, env, vars, s.mem, eff.x); }
  }

  lemma PlainAssignSim(cx: Ctx, w: World, x: string, e: Expr, env: Env, vars: seq<VarEntry>, tmp: nat, s: State)
      returns (s': State)
    requires Rel(cx, env, vars, s.mem) && ExecEffect(cx, w, Assign(x, e), env, s.trace).Normal?
    requires Lookup(env, x).Some? && Suits(cx, vars, e, env[Lookup(env, x).value].ty) && Plain(e)
    ensures Effected(cx, vars, EmitEffect(cx, vars, Assign(x, e), tmp).instrs,
        ExecEffect(cx, w, Assign(x, e), env, s.trace), w, s, s')
  {
    hide Rel, EmitExpr, EvalExpr, ExecCode, Lookup, VarLookup, Holds, SlotName, SetVar, Coerce, TempsKept, Suits, Plain;
    Found(cx, env, vars, s.mem, x);
    var v, r := EmitExpr(cx, vars, e, tmp), EvalExpr(cx, w, e, env, s.trace);
    var b := env[Lookup(env, x).value];
    var m := SuitSim(cx, w, e, b.ty, env, vars, tmp, s);
    s' := AssignSim(cx, env, vars, x, v.op, r.ty, v.ty, r.v, v.tmp, w, m);
    var c := Coerce(v.op, v.ty, b.ty, v.tmp);
    var st := [Fir.Store(SlotName(b.name), b.ty, c.op)];
    ExecThen(v.instrs, c.instrs + st, w, s, m, s');
    assert v.instrs + (c.instrs + st) == v.instrs + c.instrs + st;
  }

  /** Loading a variable into a fresh temp. */
  lemma LoadSim(cx: Ctx, env: Env, vars: seq<VarEntry>, x: string, k: nat, w: World, s: State) returns (s': State)
    requires Rel(cx, env, vars, s.mem) && Lookup(env, x).Some?
    ensures
      var b := env[Lookup(env, x).value];
      && Ran([Load(TempName(k), b.ty, SlotName(b.name))], w, s, s', k) && s'.trace == s.trace
      && Holds(Reg(TempName(k)), b.ty, b.v, s'.temps, k + 1) && InRange(b.ty, b.v)
  {
    hide Rel, Lookup, Num, Wrap, SlotName, TempName, Holds, Ran;
    Found(cx, env, vars, s.mem, x);
    var b := env[Lookup(env, x).value];
    s' := SetTemp(Load(TempName(k), b.ty, SlotName(b.name)), k, b.v, b.ty, w, s);
  }

  /** Operating on two operands and storing the result in the variable. */
  lemma OperateSim(cx: Ctx, env: Env, vars: seq<VarEntry>, op: BinOp, x: string, a: Operand, c: Operand, v: int, k: nat,
                   w: World, s: State) returns (s': State)
    requires Rel(cx, env, vars, s.mem) && Lookup(env, x).Some?
    requires
      var b := env[Lookup(env, x).value];
      && Holds(a, b.ty, b.v, s.temps, k) && Holds(c, b.ty, v, s.temps, k) && InRange(b.ty, b.v) && InRange(b.ty, v)
      && Compute(op, b.ty, b.v, v).Some?
    ensures
      var i := Lookup(env, x).value;
      var b := env[i];
      var code := [Bin(op, TempName(k), b.ty, a, c), Fir.Store(SlotName(b.name), b.ty, Reg(TempName(k)))];
      && ExecCode(code, w, s) == Some(s') && s'.trace == s.trace
      && Rel(cx, SetVar(env, i, Compute(op, b.ty, b.v, v).value), vars, s'.mem)
  {
    hide Rel, Lookup, Num, Wrap, SlotName, TempName, Compute, SetVar, ExecCode, TempsKept;
    Found(cx, env, vars, s.mem, x);
    var i := Lookup(env, x).value;
    var b := env[i];
    var r := Compute(op, b.ty, b.v, v).value;
    ComputeInRange(op, b.ty, b.v, v);
    var i1, i2 := Bin(op, TempName(k), b.ty, a, c), Fir.Store(SlotName(b.name), b.ty, Reg(TempName(k)));
    var m := SetTemp(i1, k, r, b.ty, w, s);
    WrapIdentity(b.ty, r);
    StoreSim(SlotName(b.name), b.ty, Reg(TempName(k)), r, k + 1, w, m);
    s' := m.(mem := m.mem[SlotName(b.name) := Cell(b.ty, Some(r))]);
    ExecThen([i1], [i2], w, s, m, s');
    assert [i1] + [i2] == [i1, i2];
    SetVarRel(cx, env, vars, s.mem, i, r);
  }

  /** For a variable, both ways to read the old value load its slot. */
  lemma TargetCode(cx: Ctx, env: Env, vars: seq<VarEntry>, mem: map<string, Cell>, x: string, tmp: nat)
    requires Rel(cx, env, vars, mem) && Lookup(env, x).Some?
    ensures
      var b := env[Lookup(env, x).value];
      var l := Code([Load(TempName(tmp), b.ty, SlotName(b.name))], Reg(TempName(tmp)), b.ty, tmp + 1);
      && EmitTarget(cx, vars, x, tmp) == l && (Typed(cx, vars, Var(x)) ==> EmitExpr(cx, vars, Var(x), tmp) == l)
      && forall a :: EmitStore(vars, x, b.ty, a) == [Fir.Store(SlotName(b.name), b.ty, a)]
  {
    hide SlotName, TempName, InRange, Lookup, VarLookup;
    Found(cx, env, vars, mem, x);
    assert env[Lookup(env, x).value].name == x;
  }

  lemma CompoundSim(cx: Ctx, w: World, op: BinOp, x: string, e: Expr, env: Env, vars: seq<VarEntry>, tmp: nat, s: State)
      returns (s': State)
    requires Rel(cx, env, vars, s.mem) && ExecEffect(cx, w, Compound(op, x, e), env, s.trace).Normal?
    requires Lookup(env, x).Some? && Suits(cx, vars, e, env[Lookup(env, x).value].ty) && Plain(e)
    ensures Effected(cx, vars, EmitEffect(cx, vars, Compound(op, x, e), tmp).instrs,
                     ExecEffect(cx, w, Compound(op, x, e), env, s.trace), w, s, s')
  {
    hide Rel, EmitExpr, EvalExpr, ExecCode, Lookup, VarLookup, Holds, SlotName, SetVar, Coerce, TempsKept, Compute, Num,
      TempName, Wrap, EmitTarget, EmitStore, Suits, Plain, Typed;
    TargetCode(cx, env, vars, s.mem, x, tmp);
    var b := env[Lookup(env, x).value];
    var m1 := LoadSim(cx, env, vars, x, tmp, w, s);
    var v, r := EmitExpr(cx, vars, e, tmp + 1), EvalExpr(cx, w, e, env, s.trace);
    var m2 := SuitSim(cx, w, e, b.ty, env, vars, tmp + 1, m1);
    var c := Coerce(v.op, v.ty, b.ty, v.tmp);
    var m3 := CoerceSim(v.op, r.ty, v.ty, b.ty, v.tmp, r.v, w, m2);
    var old' := Reg(TempName(tmp));
    HoldsKept(old', b.ty, b.v, m1.temps, m2.temps, tmp + 1, v.tmp);
    HoldsKept(old', b.ty, b.v, m2.temps, m3.temps, v.tmp, c.tmp);
    s' := OperateSim(cx, env, vars, op, x, old', c.op, Wrap(b.ty, r.v), c.tmp, w, m3);
    var l := [Load(TempName(tmp), b.ty, SlotName(b.name))];
    var t := [Bin(op, TempName(c.tmp), b.ty, old', c.op), Fir.Store(SlotName(b.name), b.ty, Reg(TempName(c.tmp)))];
    ExecThen(l, v.instrs, w, s, m1, m2);
    ExecThen(l + v.instrs, c.instrs, w, s, m2, m3);
    ExecThen(l + v.instrs + c.instrs, t, w, s, m3, s');
    assert l + v.instrs + c.instrs + t == l + v.instrs + c.instrs + [t[0]] + [t[1]];
  }

  lemma StepBySim(cx: Ctx, w: World, op: BinOp, x: string, env: Env, vars: seq<VarEntry>, tmp: nat, s: State)
      returns (s': State)
    requires Rel(cx, env, vars, s.mem) && Lookup(env, x).Some? && (op == Add || op == Sub) && Typed(cx, vars, Var(x))
    ensures
      var k := Lookup(env, x).value;
      var v := if op == Add then env[k].v + 1 else env[k].v - 1;
      Effected(cx, vars, EmitStepBy(cx, vars, op, x, tmp).instrs, Normal(SetVar(env, k, v), s.trace), w, s, s')
  {
    hide Rel, ExecCode, Lookup, VarLookup, Holds, SlotName, TempsKept, Num, TempName, InRange, EmitExpr, EmitStore,
        Typed;
    TargetCode(cx, env, vars, s.mem, x, tmp);
    var k := Lookup(env, x).value;
    var b := env[k];
    var m := LoadSim(cx, env, vars, x, tmp, w, s);
    var one := Wrap(b.ty, 1);
    HoldsKept(Reg(TempName(tmp)), b.ty, b.v, m.temps, m.temps, tmp + 1, tmp + 1);
    LitHolds(1, b.ty, m.temps, tmp + 1);
    s' := OperateSim(cx, env, vars, op, x, Reg(TempName(tmp)), Lit(1), one, tmp + 1, w, m);
    StepValue(b.ty, op, b.v);
    SameSet(env, k, Compute(op, b.ty, b.v, one).value, if op == Add then b.v + 1 else b.v - 1);
    var l := Load(TempName(tmp), b.ty, SlotName(b.name));
    var t := [Bin(op, TempName(tmp + 1), b.ty, Reg(TempName(tmp)), Lit(1)),
              Fir.Store(SlotName(b.name), b.ty, Reg(TempName(tmp + 1)))];
    ExecThen([l], t, w, s, m, s');
    assert [l] + t == [l] + [t[0]] + [t[1]];
  }

  lemma LitHolds(n: long, t: Ty, temps: map<string, int>, hi: int)
    ensures Holds(Lit(n), t, Wrap(t, n), temps, hi) && InRange(t, Wrap(t, n))
  {
  }

  /** Stepping by the literal 1 wraps like stepping by one. */
  lemma StepValue(t: Ty, op: BinOp, v: int)
    requires (op == Add || op == Sub) && InRange(t, v)
    ensures
      var c := Compute(op, t, v, Wrap(t, 1));
      c.Some? && Wrap(t, c.value) == Wrap(t, if op == Add then v + 1 else v - 1)
  {
    hide Wrap, Modulus;
    var one := Wrap(t, 1);
    WrapIdentity(t, v);
    if op == Add {
      WrapAdd(t, v, 1);
      WrapIdentity(t, Wrap(t, v + one));
    } else {
      WrapSub(t, v, 1);
      WrapIdentity(t, Wrap(t, v - one));
    }
  }

  lemma SameSet(env: Env, k: nat, a: int, b: int)
    requires k < |env| && Wrap(env[k].ty, a) == Wrap(env[k].ty, b)
    ensures SetVar(env, k, a) == SetVar(env, k, b)
  {
  }

  // ----- declarations -----

  /** A variable's value being in a fresh slot, it may be declared. */
  lemma DeclareSim(cx: Ctx, env: Env, vars: seq<VarEntry>, mem0: map<string, Cell>, x: string, a: Operand, own: IntTy,
                   from: Ty, t: IntTy, v: int, tmp: nat, w: World, s: State)
      returns (s': State)
    requires Rel(cx, env, vars, mem0) && FreshSlot(vars, x) && |vars| < MAX_VARS && ConstFrom(cx.comptime, x).None?
    requires Holds(a, own, v, s.temps, tmp) && InRange(own, v) && (from == own || (from == Ptr && own == t))
    requires s.mem == mem0[SlotName(x) := Cell(t, None)]
    ensures
      var c := Coerce(a, from, t, tmp);
      && ExecCode(c.instrs + [Fir.Store(SlotName(x), t, c.op)], w, s) == Some(s') && s'.trace == s.trace
      && Rel(cx, env + [Binding(x, t, Wrap(t, v))], VarDef(vars, x, t), s'.mem)
  {
    hide Rel, FreshSlot, VarDef, Holds, ExecCode, Wrap, SlotName, Coerce, TempsKept, ConstFrom;
    var slot := SlotName(x);
    var c := Coerce(a, from, t, tmp);
    var m := CoerceSim(a, own, from, t, tmp, v, w, s);
    StoreSim(slot, t, c.op, Wrap(t, v), c.tmp, w, m);
    s' := m.(mem := m.mem[slot := Cell(t, Some(Wrap(t, v)))]);
    ExecThen(c.instrs, [Fir.Store(slot, t, c.op)], w, s, m, s');
    assert s'.mem == mem0[slot := Cell(t, Some(Wrap(t, v)))];
    DeclareRel(cx, env, vars, mem0, x, t, Wrap(t, v));
  }

  lemma AllocaSim(x: string, t: Ty, w: World, s: State)
    ensures ExecCode([Alloca(x, t)], w, s) == Some(s.(mem := s.mem[x := Cell(t, None)]))
  {
    ExecOne(Alloca(x, t), w, s);
  }

  /** Where a declaration's code may be built, and how its initialiser may look. */
  predicate Declarable(cx: Ctx, vars: seq<VarEntry>, x: string, ty: Option<IntTy>, init: Option<Expr>) {
    && x != DISCARD && FreshSlot(vars, x) && |vars| < MAX_VARS && ConstFrom(cx.comptime, x).None?
    && (init.Some? ==>
          Plain(init.value) && if ty.Some? then Suits(cx, vars, init.value, ty.value) else Typed(cx, vars, init.value))
  }

  lemma DeclSim(cx: Ctx, w: World, f: seq<Block>, g: Gen, x: string, ty: Option<IntTy>, init: Option<Expr>, env: Env,
                s: State)
      returns (n: nat, s': State)
    requires |g.blocks| > 0 && Within(EmitDecl(cx, g, x, ty, init).blocks, f) && Declarable(cx, g.vars, x, ty, init)
    requires Rel(cx, env, g.vars, s.mem) && ExecDecl(cx, w, x, ty, init, env, s.trace).Normal?
    ensures
      var r, o := EmitDecl(cx, g, x, ty, init), ExecDecl(cx, w, x, ty, init, env, s.trace);
      && Run(f, w, At(g.blocks, s), n) == At(r.blocks, s') && s'.trace == o.trace && Rel(cx, o.env, r.vars, s'.mem)
  {
    hide Rel, ExecCode, At, Within, DeclCode, DeclEntry, Declarable, EmitDecl, ExecDecl, Declared, Run, Straight;
    var c := DeclCode(cx, g.vars, x, ty, init, g.tmp);
    if Inferred(ty, init) {
      assert ty == None && init == Some(init.value);
      s' := DeclInferred(cx, w, x, init.value, env, g.vars, g.tmp, s);
    } else {
      s' := DeclTyped(cx, w, x, ty, init, env, g.vars, g.tmp, s);
    }
    n := |c.instrs|;
    DeclParts(cx, g, x, ty, init);
    StraightAt(f, w, g, c, s, s');
  }

  /** The table after a declaration of a name. */
  function Declared(cx: Ctx, vars: seq<VarEntry>, x: string, ty: Option<Ty>, init: Option<Expr>,
                    tmp: nat): seq<VarEntry> {
    Enter(vars, DeclEntry(cx, vars, x, ty, init, tmp))
  }

  lemma DeclParts(cx: Ctx, g: Gen, x: string, ty: Option<IntTy>, init: Option<Expr>)
    requires |g.blocks| > 0 && Declarable(cx, g.vars, x, ty, init)
    ensures
      var c, r := DeclCode(cx, g.vars, x, ty, init, g.tmp), EmitDecl(cx, g, x, ty, init);
      && r.blocks == Straight(g, c).blocks && r.vars == Declared(cx, g.vars, x, ty, init, g.tmp)
  {
    hide DeclCode, DeclEntry, Emit, Enter;
  }

  lemma DeclTyped(cx: Ctx, w: World, x: string, ty: Option<IntTy>, init: Option<Expr>, env: Env, vars: seq<VarEntry>,
                  tmp: nat, s: State)
      returns (s': State)
    requires !Inferred(ty, init) && Declarable(cx, vars, x, ty, init)
    requires Rel(cx, env, vars, s.mem) && ExecDecl(cx, w, x, ty, init, env, s.trace).Normal?
    ensures
      var c, o := DeclCode(cx, vars, x, ty, init, tmp), ExecDecl(cx, w, x, ty, init, env, s.trace);
      && ExecCode(c.instrs, w, s) == Some(s') && s'.trace == o.trace
      && Rel(cx, o.env, Declared(cx, vars, x, ty, init, tmp), s'.mem)
  {
    hide Rel, FreshSlot, Enter, Holds, ExecCode, SlotName, TempsKept, ConstFrom, EmitExpr, EvalExpr, Coerce, Suits,
        Plain;
    var t: IntTy := if ty.Some? then ty.value else I32;
    var slot := SlotName(x);
    AllocaSim(slot, t, w, s);
    var m1 := s.(mem := s.mem[slot := Cell(t, None)]);
    AllocaRel(cx, env, vars, s.mem, x, Cell(t, None));
    var v, own, n, m2 := Code([], Lit(0), t, tmp), t, 0, m1;
    if init.Some? {
      var r := EvalExpr(cx, w, init.value, env, s.trace);
      v, own, n := EmitExpr(cx, vars, init.value, tmp), r.ty, r.v;
      m2 := SuitSim(cx, w, init.value, t, env, vars, tmp, m1);
    } else {
      LitHolds(0, t, m1.temps, tmp);
      Nothing(w, m1);
    }
    var c := Coerce(v.op, v.ty, t, v.tmp);
    s' := DeclareSim(cx, env, vars, s.mem, x, v.op, own, v.ty, t, n, v.tmp, w, m2);
    var a, b := [Alloca(slot, t)], c.instrs + [Fir.Store(slot, t, c.op)];
    assert a + v.instrs + b == a + v.instrs + c.instrs + [Fir.Store(slot, t, c.op)];
    ExecThen(a, v.instrs, w, s, m1, m2);
    ExecThen(a + v.instrs, b, w, s, m2, s');
  }

  lemma DeclInferred(cx: Ctx, w: World, x: string, e: Expr, env: Env, vars: seq<VarEntry>, tmp: nat, s: State)
      returns (s': State)
    requires Declarable(cx, vars, x, None, Some(e))
    requires Rel(cx, env, vars, s.mem) && ExecDecl(cx, w, x, None, Some(e), env, s.trace).Normal?
    ensures
      var c, o := DeclCode(cx, vars, x, None, Some(e), tmp), ExecDecl(cx, w, x, None, Some(e), env, s.trace);
      && ExecCode(c.instrs, w, s) == Some(s') && s'.trace == o.trace
      && Rel(cx, o.env, Declared(cx, vars, x, None, Some(e), tmp), s'.mem)
  {
    hide Rel, FreshSlot, Enter, Holds, ExecCode, SlotName, TempsKept, ConstFrom, EmitExpr, EvalExpr, Typed, Plain;
    var v, r := EmitExpr(cx, vars, e, tmp), EvalExpr(cx, w, e, env, s.trace);
    var slot := SlotName(x);
    var m1 := TypedSim(cx, w, e, env, vars, tmp, s);
    AllocaSim(slot, v.ty, w, m1);
    var m2 := m1.(mem := m1.mem[slot := Cell(v.ty, None)]);
    s' := DeclareSim(cx, env, vars, s.mem, x, v.op, r.ty, v.ty, r.ty, r.v, v.tmp, w, m2);
    var a, b := [Alloca(slot, v.ty)], [Fir.Store(slot, v.ty, v.op)];
    assert [] + b == b && v.instrs + a + b == v.instrs + [Alloca(slot, v.ty), Fir.Store(slot, v.ty, v.op)];
    ExecThen(v.instrs, a, w, s, m1, m2);
    ExecThen(v.instrs + a, b, w, s, m2, s');
  }

  // ----- return -----

  lemma ReturnSim(cx: Ctx, w: World, f: seq<Block>, g: Gen, val: Option<Expr>, env: Env, s: State, fuel: nat)
      returns (n: nat, s': State)
    requires |g.blocks| > 0 && Within(EmitReturn(cx, g, val).blocks, f)
    requires Rel(cx, env, g.vars, s.mem) && Exec(cx, w, Return(val), env, s.trace, fuel).Returned?
    requires val.Some? && cx.ret.Some? ==> Suits(cx, g.vars, val.value, cx.ret.value) && Plain(val.value)
    ensures
      var o := Exec(cx, w, Return(val), env, s.trace, fuel);
      Run(f, w, At(g.blocks, s), n) == Done(o.val, s') && s'.trace == o.trace
  {
    hide Rel, Holds, ExecCode, TempsKept, At, Within, Emit, EmitExpr, EvalExpr, Coerce, Label, Suits, Plain;
    if val.None? || cx.ret.None? {
      s' := s;
      n := 1;
      var h := Emit(g, [RetVoid]);
      ClosedWithin(f, h, Label(Dead, h.lbl), EmitReturn(cx, g, val));
      assert [] + [RetVoid] == [RetVoid];
      Nothing(w, s);
      ClosingAt(f, w, g, [], RetVoid, s, s);
    } else {
      var v, r := EmitExpr(cx, g.vars, val.value, g.tmp), EvalExpr(cx, w, val.value, env, s.trace);
      var t := cx.ret.value;
      var m := SuitSim(cx, w, val.value, t, env, g.vars, g.tmp, s);
      var c := Coerce(v.op, v.ty, t, v.tmp);
      s' := CoerceSim(v.op, r.ty, v.ty, t, v.tmp, r.v, w, m);
      ExecThen(v.instrs, c.instrs, w, s, m, s');
      var code := v.instrs + c.instrs;
      n := |code| + 1;
      var h := Straight(g, c.(instrs := code + [Ret(t, c.op)]));
      ClosedWithin(f, h, Label(Dead, h.lbl), EmitReturn(cx, g, val));
      ClosingAt(f, w, g, code, Ret(t, c.op), s, s');
      ReadHolds(c.op, t, Wrap(t, r.v), s'.temps, c.tmp);
    }
  }

  lemma ClosedWithin(f: seq<Block>, h: Gen, l: string, r: Gen)
    requires Within(r.blocks, f) && r.blocks == Place(h, l).blocks
    ensures Within(h.blocks, f)
  {
    forall i | 0 <= i < |h.blocks|
      ensures f[i].name == h.blocks[i].name && f[i].dead == h.blocks[i].dead && h.blocks[i].instrs <= f[i].instrs
    {
      assert r.blocks[i] == h.blocks[i];
    }
  }

  lemma Nothing(w: World, s: State)
    ensures ExecCode([], w, s) == Some(s)
  {
  }

  lemma ReadHolds(x: Operand, t: IntTy, v: int, temps: map<string, int>, hi: int)
    requires Holds(x, t, v, temps, hi)
    ensures Read(x, t, temps) == Some(v)
  {
  }

  /** A jump out of the loop. */
  lemma AwaySim(f: seq<Block>, w: World, g: Gen, target: Option<string>, k: Kind, s: State)
    requires |g.blocks| > 0 && Within(EmitLeave(g, target, k).blocks, f) && target.Some?
    ensures Run(f, w, At(g.blocks, s), 1) == Goto(Find(f, target.value), s)
  {
    hide At, Within, Emit, Label, ExecCode, Find;
    var t := Br(target.value);
    ClosedWithin(f, Emit(g, [t]), Label(k, g.lbl), EmitLeave(g, target, k));
    assert [] + [t] == [t];
    Nothing(w, s);
    ClosingAt(f, w, g, [], t, s, s);
  }
}
