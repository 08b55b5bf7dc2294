/** Whole functions: the emitted blocks form a well-formed graph, and running them computes exactly what
    the function's body means. */
module LowerFn {
  import opened Words
  import opened Decimal
  import opened Fir
  import opened Source
  import opened Lower
  import opened LowerDefs
  import opened LowerExpr
  import opened LowerGrow
  import opened LowerStep
  import opened LowerSim
  import opened LowerCorrect
  import opened Typing
  import Passes
  import LowerGraph

  // ----- building a function -----

  datatype Param = Param(name: string, ty: IntTy)

  function ArgName(x: string): string { "%arg." + x }

  /** Each parameter gets a slot that its argument is stored in. */
  function EmitParams(g: Gen, ps: seq<Param>): (r: Gen)
    requires |g.blocks| > 0
    ensures |r.blocks| == |g.blocks|
  {
    if ps == [] then g
    else
      var q := ps[|ps| - 1];
      var h := EmitParams(g, ps[..|ps| - 1]);
      Emit(h, [Alloca(SlotName(q.name), q.ty), Fir.Store(SlotName(q.name), q.ty, Reg(ArgName(q.name)))])
        .(vars := VarDef(h.vars, q.name, q.ty))
  }

  /** An empty entry block; the counters go on from the functions before. */
  function FnStart(tmp: nat, lbl: nat): (r: Gen)
    ensures |r.blocks| == 1
  {
    ScopePush(Gen([Block("entry", [], false)], tmp, lbl, [], [], None, None))
  }

  function FnBody(cx: Ctx, ps: seq<Param>, body: Stmts, tmp: nat, lbl: nat): (r: Gen)
    ensures |r.blocks| > 0
  {
    EmitScope(cx, EmitParams(FnStart(tmp, lbl), ps), body)
  }

  /** Control that reaches the end returns zero. */
  function FallOff(cx: Ctx): Instr {
    if cx.ret.None? then RetVoid else Ret(cx.ret.value, Lit(0))
  }

  function EmitFn(cx: Ctx, ps: seq<Param>, body: Stmts, tmp: nat, lbl: nat): (r: Gen)
    ensures |r.blocks| > 0
  {
    var g := FnBody(cx, ps, body, tmp, lbl);
    ScopePop(if Open(g) then Emit(g, [FallOff(cx)]) else g)
  }

  // ----- the graph -----

  /** Labels are distinct, jumps stay inside the function, and every block has a terminator. */
  ghost predicate WellFormed(f: seq<Block>) {
    && LowerGraph.DistinctBlocks(f)
    && (forall i :: 0 <= i < |f| ==> LowerGraph.HasTerm(f[i].instrs) && !f[i].dead)
    && forall i :: 0 <= i < |f| ==> LowerGraph.CodeTargets(f[i].instrs, LowerGraph.Labels(f))
  }

  lemma StartGood(tmp: nat, lbl: nat)
    ensures LowerGraph.Good(FnStart(tmp, lbl), {}) && Open(FnStart(tmp, lbl))
  {
    assert TrailingDigits("entry") == 0;
    assert Num("entry") == -1;
  }

  lemma {:induction false} ParamsGood(g: Gen, ps: seq<Param>)
    requires LowerGraph.Good(g, {}) && |g.blocks| > 0 && Open(g)
    ensures LowerGraph.Good(EmitParams(g, ps), {}) && Open(EmitParams(g, ps))
    decreases |ps|
  {
    if ps != [] {
      var q := ps[|ps| - 1];
      var h := EmitParams(g, ps[..|ps| - 1]);
      ParamsGood(g, ps[..|ps| - 1]);
      ParamGood(h, q);
    }
  }

  lemma ParamGood(h: Gen, q: Param)
    requires LowerGraph.Good(h, {}) && |h.blocks| > 0 && Open(h)
    ensures
      var code := [Alloca(SlotName(q.name), q.ty), Fir.Store(SlotName(q.name), q.ty, Reg(ArgName(q.name)))];
      var r := Emit(h, code).(vars := VarDef(h.vars, q.name, q.ty));
      LowerGraph.Good(r, {}) && Open(r)
  {
    hide LowerGraph.Good, Within, SlotName, ArgName, VarDef;
    var code := [Alloca(SlotName(q.name), q.ty), Fir.Store(SlotName(q.name), q.ty, Reg(ArgName(q.name)))];
    LowerGraph.StraightGood(h, Code(code, Lit(0), q.ty, h.tmp), {});
    LowerGraph.SameGraph(Emit(h, code), Emit(h, code).(vars := VarDef(h.vars, q.name, q.ty)), {});
  }

  lemma BodyGood(cx: Ctx, ps: seq<Param>, body: Stmts, tmp: nat, lbl: nat)
    ensures
      var g := FnBody(cx, ps, body, tmp, lbl);
      LowerGraph.Good(g, {}) && Open(g)
  {
    hide LowerGraph.Good, Open, EmitParams, FnStart, EmitScope;
    StartGood(tmp, lbl);
    ParamsGood(FnStart(tmp, lbl), ps);
    LowerGraph.ScopeGood(cx, EmitParams(FnStart(tmp, lbl), ps), body, {});
  }

  /** The body ends in an open block, so the final return is always there. */
  lemma FnBlocks(cx: Ctx, ps: seq<Param>, body: Stmts, tmp: nat, lbl: nat)
    ensures EmitFn(cx, ps, body, tmp, lbl).blocks == Emit(FnBody(cx, ps, body, tmp, lbl), [FallOff(cx)]).blocks
  {
    hide LowerGraph.Good, Open, FnBody, FallOff;
    BodyGood(cx, ps, body, tmp, lbl);
  }

  /** For every function: a well-formed graph. */
  lemma {:induction false} FnWellFormed(cx: Ctx, ps: seq<Param>, body: Stmts, tmp: nat, lbl: nat)
    ensures WellFormed(EmitFn(cx, ps, body, tmp, lbl).blocks)
  {
    hide *;
    BodyGood(cx, ps, body, tmp, lbl);
    FnBlocks(cx, ps, body, tmp, lbl);
    var g := FnBody(cx, ps, body, tmp, lbl);
    FallOffEnds(cx);
    ClosedGood(g, FallOff(cx));
  }

  lemma ClosedGood(g: Gen, t: Instr)
    requires LowerGraph.Good(g, {}) && |g.blocks| > 0 && IsTerm(t) && LowerGraph.TargetSet(t) == {}
    ensures WellFormed(Emit(g, [t]).blocks)
  {
    hide LowerGraph.Good, LowerGraph.Labels, LowerGraph.HasTerm, Within, Emit, WellFormed;
    LowerGraph.ClosingGood(g, Code([], Lit(0), I32, g.tmp), t, {});
    assert [] + [t] == [t];
    GoodWellFormed(Emit(g, [t]).(tmp := g.tmp));
  }

  lemma GoodWellFormed(r: Gen)
    requires LowerGraph.Good(r, {}) && |r.blocks| > 0 && LowerGraph.HasTerm(Last(r))
    ensures WellFormed(r.blocks)
  {
    hide LowerGraph.HasTerm, LowerGraph.CodeTargets, Num;
    assert {} + LowerGraph.Labels(r.blocks) == LowerGraph.Labels(r.blocks);
  }

  lemma FallOffEnds(cx: Ctx)
    ensures IsTerm(FallOff(cx)) && LowerGraph.TargetSet(FallOff(cx)) == {}
  {
  }

  /** With what follows the first terminator removed, each block's one terminator is its last instruction. */
  lemma {:induction false} FnTrimmed(cx: Ctx, ps: seq<Param>, body: Stmts, tmp: nat, lbl: nat)
    ensures
      var f := Passes.TrimAll(EmitFn(cx, ps, body, tmp, lbl).blocks);
      forall b :: 0 <= b < |f| ==>
        && |f[b].instrs| > 0 && IsTerm(f[b].instrs[|f[b].instrs| - 1])
        && forall k :: 0 <= k < |f[b].instrs| - 1 ==> !IsTerm(f[b].instrs[k])
  {
    hide EmitFn;
    FnWellFormed(cx, ps, body, tmp, lbl);
    var r := EmitFn(cx, ps, body, tmp, lbl).blocks;
    var f := Passes.TrimAll(r);
    forall b | 0 <= b < |f|
      ensures
        && |f[b].instrs| > 0 && IsTerm(f[b].instrs[|f[b].instrs| - 1])
        && forall k :: 0 <= k < |f[b].instrs| - 1 ==> !IsTerm(f[b].instrs[k])
    {
      assert LowerGraph.HasTerm(r[b].instrs);
      var k := Passes.FirstTerm(r[b].instrs);
      assert k < |r[b].instrs|;
    }
  }

  // ----- what a function means -----

  function ParamEnv(ps: seq<Param>, args: seq<int>): (env: Env)
    requires |ps| == |args|
    ensures |env| == |ps|
  {
    if ps == [] then []
    else
      var k := |ps| - 1;
      ParamEnv(ps[..k], args[..k]) + [Binding(ps[k].name, ps[k].ty, args[k])]
  }

  datatype Meaning =
    | Result(val: Option<int>, trace: seq<Event>)
    | StillRunning
    | Undefined

  /** A function applied to arguments. Falling off the end returns zero, or nothing from a unit. */
  function Apply(cx: Ctx, w: World, ps: seq<Param>, body: Stmts, args: seq<int>, fuel: nat): Meaning
    requires |ps| == |args|
  {
    var o := ExecScope(cx, w, body, ParamEnv(ps, args), [], fuel);
    match o
    case Normal(_, tr) => Result(if cx.ret.None? then None else Some(0), tr)
    case Returned(v, tr) => Result(v, tr)
    case OutOfFuel => StillRunning
    case _ => Undefined
  }

  function ArgMap(ps: seq<Param>, args: seq<int>): map<string, int>
    requires |ps| == |args|
  {
    if ps == [] then map[]
    else
      var k := |ps| - 1;
      ArgMap(ps[..k], args[..k])[ArgName(ps[k].name) := args[k]]
  }

  const NAME_MAX := 122

  /** Parameters have slots of their own, names that fit the buffer, and no constant's name. */
  predicate ParamsOk(cx: Ctx, ps: seq<Param>) {
    && |ps| <= MAX_VARS
    && (forall i :: 0 <= i < |ps| ==> |ps[i].name| <= NAME_MAX && ConstFrom(cx.comptime, ps[i].name).None?)
    && forall i, j :: 0 <= i < j < |ps| ==> ps[i].name != ps[j].name
  }

  predicate ArgsFit(ps: seq<Param>, args: seq<int>) {
    |ps| == |args| && forall i :: 0 <= i < |ps| ==> InRange(ps[i].ty, args[i])
  }

  /** What is asked of a function for its translation to be faithful. */
  predicate FnOk(cx: Ctx, ps: seq<Param>, body: Stmts) {
    ParamsOk(cx, ps) && AllOk(cx, body, ParamVars(ps))
  }

  /** The table that the parameters leave. */
  function ParamVars(ps: seq<Param>): seq<VarEntry> {
    EmitParams(FnStart(0, 0), ps).vars
  }

  // ----- parameters -----

  lemma NamesShort(x: string, y: string)
    requires |x| <= NAME_MAX && |y| <= NAME_MAX && x != y
    ensures SlotName(x) != SlotName(y) && ArgName(x) != ArgName(y)
  {
    assert SlotName(x)[4..] == x && SlotName(y)[4..] == y;
    assert ArgName(x)[5..] == x && ArgName(y)[5..] == y;
  }

  lemma {:induction false} ArgMapAt(ps: seq<Param>, args: seq<int>, i: nat)
    requires |ps| == |args| && i < |ps|
    requires forall i, j :: 0 <= i < j < |ps| ==> ps[i].name != ps[j].name
    ensures ArgName(ps[i].name) in ArgMap(ps, args) && ArgMap(ps, args)[ArgName(ps[i].name)] == args[i]
    decreases |ps|
  {
    var k := |ps| - 1;
    if i < k {
      ArgMapAt(ps[..k], args[..k], i);
      assert ArgName(ps[i].name)[5..] == ps[i].name && ArgName(ps[k].name)[5..] == ps[k].name;
    }
  }

  /** Every argument is in its place among the temps. */
  predicate Passed(ps: seq<Param>, args: seq<int>, temps: map<string, int>) {
    |ps| == |args| &&
    forall i :: 0 <= i < |ps| ==> ArgName(ps[i].name) in temps && temps[ArgName(ps[i].name)] == args[i]
  }

  function ParamCode(q: Param): seq<Instr> {
    [Alloca(SlotName(q.name), q.ty), Fir.Store(SlotName(q.name), q.ty, Reg(ArgName(q.name)))]
  }

  lemma ParamsDef(g: Gen, ps: seq<Param>)
    requires |g.blocks| > 0 && ps != []
    ensures
      var k := |ps| - 1;
      var h := EmitParams(g, ps[..k]);
      EmitParams(g, ps) == Emit(h, ParamCode(ps[k])).(vars := VarDef(h.vars, ps[k].name, ps[k].ty))
  {
    hide Emit, SlotName, ArgName, VarDef;
  }

  lemma ParamsNone(g: Gen)
    requires |g.blocks| > 0
    ensures EmitParams(g, []) == g
  {
  }

  lemma VarDefRoom(vars: seq<VarEntry>, x: string, t: Ty)
    requires |vars| < MAX_VARS
    ensures VarDef(vars, x, t) == vars + [VarEntry(x, t, SlotName(x))]
  {
    hide SlotName;
  }

  lemma {:induction false} ParamsVars(g: Gen, ps: seq<Param>)
    requires |g.blocks| > 0 && g.vars == [] && |ps| <= MAX_VARS
    ensures
      var v := EmitParams(g, ps).vars;
      |v| == |ps| && forall i :: 0 <= i < |v| ==> v[i].name == ps[i].name
    decreases |ps|
  {
    hide *;
    if ps == [] {
      ParamsNone(g);
    } else {
      var k := |ps| - 1;
      ParamsVars(g, ps[..k]);
      ParamsDef(g, ps);
      var v := EmitParams(g, ps[..k]).vars;
      VarDefRoom(v, ps[k].name, ps[k].ty);
    }
  }

  lemma ParamsGrow(g: Gen, ps: seq<Param>)
    requires |g.blocks| > 0 && ps != []
    ensures
      var h := EmitParams(g, ps[..|ps| - 1]);
      Appends(h, EmitParams(g, ps)) && Appends(Emit(h, ParamCode(ps[|ps| - 1])), EmitParams(g, ps))
  {
    hide *;
    ParamsDef(g, ps);
    var h := EmitParams(g, ps[..|ps| - 1]);
    var e := Emit(h, ParamCode(ps[|ps| - 1]));
    EmitGrows(h, ParamCode(ps[|ps| - 1]));
    GrowsDef(h, e);
    AppendsSelf(e);
    AppendsOnly(e, e, e, EmitParams(g, ps));
    AppendsOnly(h, h, e, EmitParams(g, ps));
  }

  lemma ParamEnvDef(ps: seq<Param>, args: seq<int>)
    requires |ps| == |args| && ps != []
    ensures
      var k := |ps| - 1;
      ParamEnv(ps, args) == ParamEnv(ps[..k], args[..k]) + [Binding(ps[k].name, ps[k].ty, args[k])]
  {
  }

  /** One parameter: its slot is allocated and its argument stored. */
  lemma ParamSim(cx: Ctx, w: World, env: Env, vars: seq<VarEntry>, q: Param, v: int, s: State) returns (s': State)
    requires Rel(cx, env, vars, s.mem) && FreshSlot(vars, q.name) && |vars| < MAX_VARS
    requires ConstFrom(cx.comptime, q.name).None? && InRange(q.ty, v)
    requires ArgName(q.name) in s.temps && s.temps[ArgName(q.name)] == v
    ensures ExecCode(ParamCode(q), w, s) == Some(s') && s'.temps == s.temps && s'.trace == s.trace
    ensures Rel(cx, env + [Binding(q.name, q.ty, v)], VarDef(vars, q.name, q.ty), s'.mem)
  {
    hide Rel, FreshSlot, VarDef, ExecCode, SlotName, ArgName, ConstFrom, Num;
    var slot, r := SlotName(q.name), ArgName(q.name);
    AllocaSim(slot, q.ty, w, s);
    var m := s.(mem := s.mem[slot := Cell(q.ty, None)]);
    WrapIdentity(q.ty, v);
    StoreSim(slot, q.ty, Reg(r), v, Num(r) + 1, w, m);
    s' := m.(mem := m.mem[slot := Cell(q.ty, Some(v))]);
    ExecThen([Alloca(slot, q.ty)], [Fir.Store(slot, q.ty, Reg(r))], w, s, m, s');
    assert [Alloca(slot, q.ty)] + [Fir.Store(slot, q.ty, Reg(r))] == ParamCode(q);
    assert s'.mem == s.mem[slot := Cell(q.ty, Some(v))];
    DeclareRel(cx, env, vars, s.mem, q.name, q.ty, v);
  }

  lemma ParamFresh(cx: Ctx, ps: seq<Param>, vars: seq<VarEntry>)
    requires ParamsOk(cx, ps) && ps != [] && |vars| == |ps| - 1
    requires forall i :: 0 <= i < |vars| ==> vars[i].name == ps[i].name
    ensures FreshSlot(vars, ps[|ps| - 1].name) && |vars| < MAX_VARS && ParamsOk(cx, ps[..|ps| - 1])
    ensures ConstFrom(cx.comptime, ps[|ps| - 1].name).None?
  {
    hide SlotName, ConstFrom;
    forall i | 0 <= i < |vars|
      ensures SlotName(vars[i].name) != SlotName(ps[|ps| - 1].name)
    {
      NamesShort(ps[i].name, ps[|ps| - 1].name);
    }
  }

  lemma {:induction false} ParamsSim(cx: Ctx, w: World, f: seq<Block>, g: Gen, ps: seq<Param>, args: seq<int>, s: State)
      returns (n: nat, s': State)
    requires |g.blocks| > 0 && g.vars == [] && ParamsOk(cx, ps) && ArgsFit(ps, args) && Passed(ps, args, s.temps)
    requires Within(EmitParams(g, ps).blocks, f)
    ensures
      var r := EmitParams(g, ps);
      && Run(f, w, At(g.blocks, s), n) == At(r.blocks, s') && s'.temps == s.temps && s'.trace == s.trace
      && Rel(cx, ParamEnv(ps, args), r.vars, s'.mem)
    decreases |ps|
  {
    hide *;
    FitSize(ps, args);
    if ps == [] {
      n, s' := 0, s;
      ParamsNone(g);
      RunNone(f, w, At(g.blocks, s));
      RelEmpty(cx, ps, args, s.mem);
    } else {
      var k := |ps| - 1;
      var h := EmitParams(g, ps[..k]);
      var r, e := EmitParams(g, ps), Emit(h, ParamCode(ps[k]));
      ParamsDef(g, ps);
      ParamsGrow(g, ps);
      Inside(h, r, f);
      Inside(e, r, f);
      OkSize(cx, ps);
      ParamsVars(g, ps[..k]);
      ParamFresh(cx, ps, h.vars);
      FewerArgs(ps, args, s.temps);
      var m, s1 := ParamsSim(cx, w, f, g, ps[..k], args[..k], s);
      s' := ParamSim(cx, w, ParamEnv(ps[..k], args[..k]), h.vars, ps[k], args[k], s1);
      ParamEnvDef(ps, args);
      CodeAt(f, w, h, ParamCode(ps[k]), s1, s');
      n := m + |ParamCode(ps[k])|;
      Prepend(f, w, At(g.blocks, s), m, At(h.blocks, s1), |ParamCode(ps[k])|);
    }
  }

  lemma FitSize(ps: seq<Param>, args: seq<int>)
    requires ArgsFit(ps, args)
    ensures |ps| == |args|
  {
  }

  lemma OkSize(cx: Ctx, ps: seq<Param>)
    requires ParamsOk(cx, ps)
    ensures |ps| <= MAX_VARS
  {
  }

  lemma RelEmpty(cx: Ctx, ps: seq<Param>, args: seq<int>, mem: map<string, Cell>)
    requires ps == [] && |args| == 0
    ensures Rel(cx, ParamEnv(ps, args), [], mem)
  {
  }

  lemma FewerArgs(ps: seq<Param>, args: seq<int>, temps: map<string, int>)
    requires ps != [] && ArgsFit(ps, args) && Passed(ps, args, temps)
    ensures |args| == |ps|
    ensures
      var k := |ps| - 1;
      && ArgsFit(ps[..k], args[..k]) && Passed(ps[..k], args[..k], temps) && InRange(ps[k].ty, args[k])
      && ArgName(ps[k].name) in temps && temps[ArgName(ps[k].name)] == args[k]
  {
    hide InRange, ArgName;
  }

  // ----- the theorem -----

  lemma FnOkMeaning(cx: Ctx, ps: seq<Param>, body: Stmts)
    requires FnOk(cx, ps, body)
    ensures ParamsOk(cx, ps) && AllOk(cx, body, ParamVars(ps)) && |ps| <= MAX_VARS
  {
    hide AllOk, ParamVars;
  }

  /** The table does not depend on the counters. */
  lemma {:induction false} SameParamVars(g: Gen, h: Gen, ps: seq<Param>)
    requires |g.blocks| > 0 && |h.blocks| > 0 && g.vars == h.vars
    ensures EmitParams(g, ps).vars == EmitParams(h, ps).vars
    decreases |ps|
  {
    hide Emit, SlotName, VarDef;
    if ps != [] { SameParamVars(g, h, ps[..|ps| - 1]); }
  }

  lemma ParamTable(ps: seq<Param>, tmp: nat, lbl: nat)
    ensures EmitParams(FnStart(tmp, lbl), ps).vars == ParamVars(ps)
  {
    SameParamVars(FnStart(tmp, lbl), FnStart(0, 0), ps);
  }

  lemma ArgsPassed(cx: Ctx, ps: seq<Param>, args: seq<int>)
    requires ParamsOk(cx, ps) && |ps| == |args|
    ensures Passed(ps, args, ArgMap(ps, args))
  {
    forall i | 0 <= i < |ps|
      ensures ArgName(ps[i].name) in ArgMap(ps, args) && ArgMap(ps, args)[ArgName(ps[i].name)] == args[i]
    {
      ArgMapAt(ps, args, i);
    }
  }

  lemma FnFinal(cx: Ctx, ps: seq<Param>, body: Stmts, tmp: nat, lbl: nat)
    ensures
      var f := EmitFn(cx, ps, body, tmp, lbl).blocks;
      var g, p := FnBody(cx, ps, body, tmp, lbl), EmitParams(FnStart(tmp, lbl), ps);
      && Final(f) && Within(f, f) && Within(g.blocks, f) && Within(p.blocks, f)
      && g == EmitScope(cx, p, body) && Open(p) && Open(g) && g.vars == p.vars
      && f == Emit(g, [FallOff(cx)]).blocks
  {
    FnWellFormed(cx, ps, body, tmp, lbl);
    FnBlocks(cx, ps, body, tmp, lbl);
    BodyGood(cx, ps, body, tmp, lbl);
    StartGood(tmp, lbl);
    ParamsGood(FnStart(tmp, lbl), ps);
    hide *;
    var g, p := FnBody(cx, ps, body, tmp, lbl), EmitParams(FnStart(tmp, lbl), ps);
    var f := EmitFn(cx, ps, body, tmp, lbl).blocks;
    FnBodyDef(cx, ps, body, tmp, lbl);
    WellFormedFinal(f);
    ScopeGrows(cx, p, body);
    EmitGrows(g, [FallOff(cx)]);
    var e := Emit(g, [FallOff(cx)]);
    GrowsDef(g, e);
    GrowsDef(p, g);
    AppendsSelf(e);
    AppendsWithin(e, e);
    AppendsWithin(g, e);
    AppendsWithin(p, g);
    WithinTrans(p.blocks, g.blocks, f);
  }

  lemma FnBodyDef(cx: Ctx, ps: seq<Param>, body: Stmts, tmp: nat, lbl: nat)
    ensures FnBody(cx, ps, body, tmp, lbl) == EmitScope(cx, EmitParams(FnStart(tmp, lbl), ps), body)
  {
  }

  lemma WellFormedFinal(f: seq<Block>)
    requires WellFormed(f)
    ensures Final(f)
  {
  }

  lemma AppendsWithin(g: Gen, r: Gen)
    requires Appends(g, r)
    ensures Within(g.blocks, r.blocks)
  {
  }

  lemma StartDef(tmp: nat, lbl: nat, args: map<string, int>)
    ensures At(FnStart(tmp, lbl).blocks, State(args, map[], [])) == Start(args)
    ensures FnStart(tmp, lbl).vars == [] && |FnStart(tmp, lbl).blocks| == 1
    ensures FnStart(tmp, lbl).brk.None? && FnStart(tmp, lbl).cont.None?
  {
  }

  /** The run of a function from its entry, for any fuel the meaning is given. */
  lemma {:induction false} FnSim(cx: Ctx, w: World, ps: seq<Param>, body: Stmts, tmp: nat, lbl: nat, args: seq<int>,
                                 fuel: nat)
      returns (n: nat, s': State)
    requires FnOk(cx, ps, body) && ArgsFit(ps, args)
    ensures
      var f := EmitFn(cx, ps, body, tmp, lbl).blocks;
      match Apply(cx, w, ps, body, args, fuel)
      case Result(v, tr) => Run(f, w, Start(ArgMap(ps, args)), n) == Done(v, s') && s'.trace == tr
      case StillRunning => n >= fuel && Run(f, w, Start(ArgMap(ps, args)), n).Running?
      case Undefined => true
  {
    hide *;
    FitSize(ps, args);
    var f := EmitFn(cx, ps, body, tmp, lbl).blocks;
    var g0, p, g := FnStart(tmp, lbl), EmitParams(FnStart(tmp, lbl), ps), FnBody(cx, ps, body, tmp, lbl);
    var s0 := State(ArgMap(ps, args), map[], []);
    var c := Start(ArgMap(ps, args));
    FnOkMeaning(cx, ps, body);
    FnFinal(cx, ps, body, tmp, lbl);
    StartDef(tmp, lbl, ArgMap(ps, args));
    ArgsPassed(cx, ps, args);
    ParamTable(ps, tmp, lbl);
    var m, s1 := ParamsSim(cx, w, f, g0, ps, args, s0);
    var env := ParamEnv(ps, args);
    var o := ExecScope(cx, w, body, env, [], fuel);
    var k, s2 := ScopeSim(cx, w, f, p, body, env, s1, fuel);
    EndsAfter(cx, w, f, c, m, At(p.blocks, s1), p, g, o, fuel, fuel, k, s2);
    s' := s2;
    n := FnEnd(cx, w, f, c, p, g, ps, body, args, o, fuel, m + k, s');
  }

  /** From the end of the body. */
  lemma FnEnd(cx: Ctx, w: World, f: seq<Block>, c: Config, p: Gen, g: Gen, ps: seq<Param>, body: Stmts, args: seq<int>,
              o: Outcome, fuel: nat, k: nat, s: State) returns (n: nat)
    requires |g.blocks| > 0 && |ps| == |args| && Ends(cx, w, f, c, p, g, o, fuel, k, s)
    requires o == ExecScope(cx, w, body, ParamEnv(ps, args), [], fuel)
    requires Within(Emit(g, [FallOff(cx)]).blocks, f)
    ensures
      match Apply(cx, w, ps, body, args, fuel)
      case Result(v, tr) => Run(f, w, c, n) == Done(v, s) && s.trace == tr
      case StillRunning => n >= fuel && Run(f, w, c, n).Running?
      case Undefined => true
  {
    hide Within, Rel, Over, At, Find, Emit, Run, ExecScope, ParamEnv, ExecCode, ExecTerm;
    if o.Normal? {
      n := k + 1;
      assert [] + [FallOff(cx)] == [FallOff(cx)];
      Nothing(w, s);
      ClosingAt(f, w, g, [], FallOff(cx), s, s);
      Prepend(f, w, c, k, At(g.blocks, s), 1);
      FallsOff(cx, f, s);
    } else {
      n := k;
    }
  }

  lemma FallsOff(cx: Ctx, f: seq<Block>, s: State)
    ensures IsTerm(FallOff(cx)) && ExecTerm(f, FallOff(cx), s) == Done(if cx.ret.None? then None else Some(0), s)
  {
  }

  // ----- the two directions -----

  lemma {:induction false} DoneStays(f: seq<Block>, w: World, c: Config, n: nat)
    requires c.Done?
    ensures Run(f, w, c, n) == c
    decreases n
  {
    if n > 0 { DoneStays(f, w, c, n - 1); }
  }

  /** A run that is done is done with the same result ever after. */
  lemma DoneAgree(f: seq<Block>, w: World, c: Config, m: nat, n: nat)
    requires m <= n && Run(f, w, c, m).Done?
    ensures Run(f, w, c, n) == Run(f, w, c, m)
  {
    RunAdd(f, w, c, m, n - m);
    DoneStays(f, w, Run(f, w, c, m), n - m);
  }

  /** A defined function returns a result if and only if its translation does, and then the same one. */
  lemma {:induction false} FnExact(cx: Ctx, w: World, ps: seq<Param>, body: Stmts, tmp: nat, lbl: nat, args: seq<int>,
                                   v: Option<int>, tr: seq<Event>)
    requires FnOk(cx, ps, body) && ArgsFit(ps, args)
    requires forall fuel: nat :: !Apply(cx, w, ps, body, args, fuel).Undefined?
    ensures
      var f := EmitFn(cx, ps, body, tmp, lbl).blocks;
      (exists fuel: nat :: Apply(cx, w, ps, body, args, fuel) == Result(v, tr))
      <==> exists n: nat, s :: Run(f, w, Start(ArgMap(ps, args)), n) == Done(v, s) && s.trace == tr
  {
    hide EmitFn, FnOk, ArgsFit, Apply, Run, ArgMap, Start;
    FitSize(ps, args);
    var f := EmitFn(cx, ps, body, tmp, lbl).blocks;
    var c := Start(ArgMap(ps, args));
    if fuel: nat :| Apply(cx, w, ps, body, args, fuel) == Result(v, tr) {
      var n, s := FnSim(cx, w, ps, body, tmp, lbl, args, fuel);
      assert Run(f, w, c, n) == Done(v, s) && s.trace == tr;
    }
    if n: nat, s :| Run(f, w, c, n) == Done(v, s) && s.trace == tr {
      var m, s' := FnSim(cx, w, ps, body, tmp, lbl, args, n + 1);
      if m <= n && Run(f, w, c, m).Done? { DoneAgree(f, w, c, m, n); }
      if n <= m { DoneAgree(f, w, c, n, m); }
      assert Apply(cx, w, ps, body, args, n + 1) == Result(v, tr);
    }
  }

  /** A function that runs for ever keeps its translation running for ever. */
  lemma {:induction false} FnDiverges(cx: Ctx, w: World, ps: seq<Param>, body: Stmts, tmp: nat, lbl: nat,
                                      args: seq<int>, n: nat)
    requires FnOk(cx, ps, body) && ArgsFit(ps, args)
    requires forall fuel: nat :: Apply(cx, w, ps, body, args, fuel).StillRunning?
    ensures Run(EmitFn(cx, ps, body, tmp, lbl).blocks, w, Start(ArgMap(ps, args)), n).Running?
  {
    hide EmitFn, FnOk, ArgsFit, Apply, Run, ArgMap, Start;
    FitSize(ps, args);
    var f, c := EmitFn(cx, ps, body, tmp, lbl).blocks, Start(ArgMap(ps, args));
    var m, s := FnSim(cx, w, ps, body, tmp, lbl, args, n);
    RunAdd(f, w, c, n, m - n);
    if Run(f, w, c, n).Done? { DoneAgree(f, w, c, n, m); }
    if Run(f, w, c, n).Stuck? { StuckStays(f, w, m - n); }
  }
}
