/** Running the code built for an expression leaves the expression's value in the returned operand,
    memory as it was, and every earlier temp as it was. */
module LowerExpr {
  import opened Words
  import opened Decimal
  import opened Fir
  import opened Source
  import opened Lower
  import opened Typing

  // ----- straight-line code -----

  function ExecCode(code: seq<Instr>, w: World, s: State): Option<State>
    decreases code
  {
    if code == [] then Some(s)
    else if IsTerm(code[0]) then None
    else
      var r := ExecInstr(code[0], w, s);
      if r.None? then None else ExecCode(code[1..], w, r.value)
  }

  lemma {:induction false} ExecAppend(a: seq<Instr>, b: seq<Instr>, w: World, s: State)
    requires ExecCode(a, w, s).Some?
    ensures ExecCode(a + b, w, s) == ExecCode(b, w, ExecCode(a, w, s).value)
    decreases a
  {
    hide ExecInstr;
    if a == [] {
      assert a + b == b;
    } else {
      assert (a + b)[1..] == a[1..] + b;
      ExecAppend(a[1..], b, w, ExecInstr(a[0], w, s).value);
    }
  }

  lemma ExecOne(i: Instr, w: World, s: State)
    requires !IsTerm(i) && ExecInstr(i, w, s).Some?
    ensures ExecCode([i], w, s) == ExecInstr(i, w, s)
  {
    hide ExecInstr;
  }

  /** Code that lies at the program counter runs in as many steps as it has instructions. */
  lemma {:induction false} CodeRun(f: seq<Block>, w: World, b: nat, pc: nat, code: seq<Instr>, s: State)
    requires b < |f| && pc + |code| <= |f[b].instrs| && f[b].instrs[pc..pc + |code|] == code
    requires ExecCode(code, w, s).Some?
    ensures Run(f, w, Running(b, pc, s), |code|) == Running(b, pc + |code|, ExecCode(code, w, s).value)
    decreases code
  {
    hide ExecInstr, ExecTerm;
    if code != [] {
      var s' := ExecInstr(code[0], w, s).value;
      assert f[b].instrs[pc] == f[b].instrs[pc..pc + |code|][0];
      assert f[b].instrs[pc + 1..pc + 1 + |code[1..]|] == code[1..];
      CodeRun(f, w, b, pc + 1, code[1..], s');
    }
  }

  // ----- source and machine states -----

  /** The table and the environment list the same variables. */
  predicate SameShape(env: Env, vars: seq<VarEntry>) {
    |env| == |vars| &&
    forall i :: 0 <= i < |env| ==>
      vars[i].name == env[i].name && vars[i].ty == env[i].ty && vars[i].slot == SlotName(env[i].name)
  }

  /** Each variable has a slot of its own, which holds its value. */
  predicate MemOk(env: Env, mem: map<string, Cell>) {
    && (forall i :: 0 <= i < |env| ==>
         && SlotName(env[i].name) in mem && mem[SlotName(env[i].name)] == Cell(env[i].ty, Some(env[i].v))
         && InRange(env[i].ty, env[i].v))
    && (forall i, j :: 0 <= i < j < |env| ==> SlotName(env[i].name) != SlotName(env[j].name))
  }

  /** No variable has the name of a compile-time constant. */
  predicate NoClash(cx: Ctx, env: Env) {
    forall i :: 0 <= i < |env| ==> ConstFrom(cx.comptime, env[i].name).None?
  }

  predicate Rel(cx: Ctx, env: Env, vars: seq<VarEntry>, mem: map<string, Cell>) {
    SameShape(env, vars) && MemOk(env, mem) && NoClash(cx, env)
  }

  lemma SameLookup(env: Env, vars: seq<VarEntry>, x: string)
    requires SameShape(env, vars)
    ensures Lookup(env, x) == VarLookup(vars, x)
  {
    var a, b := Lookup(env, x), VarLookup(vars, x);
    if a.Some? && b.Some? { assert !(a.value < b.value) && !(b.value < a.value); }
  }

  /** Temps numbered below `lo` are as they were. */
  predicate TempsKept(t: map<string, int>, t': map<string, int>, lo: int) {
    forall r :: r in t && Num(r) < lo ==> r in t' && t'[r] == t[r]
  }

  /** Operand `x`, read at type `t`, has value `v`, and will as long as temps below `hi` are kept. */
  predicate Holds(x: Operand, t: Ty, v: int, temps: map<string, int>, hi: int) {
    match x
    case Lit(n) => Wrap(t, n) == v
    case Reg(r) => r in temps && Wrap(t, temps[r]) == v && Num(r) < hi
    case Null => v == 0
    case Global(_) => false
  }

  lemma HoldsKept(x: Operand, t: Ty, v: int, temps: map<string, int>, temps': map<string, int>, hi: int, hi': int)
    requires Holds(x, t, v, temps, hi) && TempsKept(temps, temps', hi) && hi <= hi'
    ensures Holds(x, t, v, temps', hi')
  {
  }

  lemma KeptTrans(a: map<string, int>, b: map<string, int>, c: map<string, int>, lo: int, lo': int)
    requires TempsKept(a, b, lo) && TempsKept(b, c, lo') && lo <= lo'
    ensures TempsKept(a, c, lo)
  {
  }

  /** `code` ran from `s` to `s'` touching only temps from `lo` on and calling as `tr` records. */
  predicate Ran(code: seq<Instr>, w: World, s: State, s': State, lo: int) {
    ExecCode(code, w, s) == Some(s') && s'.mem == s.mem && TempsKept(s.temps, s'.temps, lo)
  }

  lemma RanThen(a: seq<Instr>, b: seq<Instr>, w: World, s: State, m: State, s': State, lo: int, lo': int)
    requires Ran(a, w, s, m, lo) && Ran(b, w, m, s', lo') && lo <= lo'
    ensures Ran(a + b, w, s, s', lo)
  {
    ExecAppend(a, b, w, s);
    KeptTrans(s.temps, m.temps, s'.temps, lo, lo');
  }

  lemma RanNothing(w: World, s: State, lo: int)
    ensures Ran([], w, s, s, lo)
  {
  }

  /** An instruction that sets temp `k`. */
  lemma SetTemp(i: Instr, k: nat, v: int, t: Ty, w: World, s: State) returns (s': State)
    requires !IsTerm(i) && ExecInstr(i, w, s) == Some(s.(temps := s.temps[TempName(k) := v])) && InRange(t, v)
    ensures s' == s.(temps := s.temps[TempName(k) := v])
    ensures Ran([i], w, s, s', k) && Holds(Reg(TempName(k)), t, v, s'.temps, k + 1)
  {
    hide ExecInstr, TempName, Num;
    s' := s.(temps := s.temps[TempName(k) := v]);
    ExecOne(i, w, s);
    WrapIdentity(t, v);
  }

  // ----- conversions -----

  /** A value of type `t` brought to another; if its type is lost, to its own. */
  lemma CoerceSim(x: Operand, t: IntTy, from: Ty, to: IntTy, tmp: nat, v: int, w: World, s: State) returns (s': State)
    requires Holds(x, t, v, s.temps, tmp) && InRange(t, v) && (from == t || (from == Ptr && to == t))
    ensures
      var c := Coerce(x, from, to, tmp);
      && Ran(c.instrs, w, s, s', tmp) && s'.trace == s.trace
      && Holds(c.op, to, Wrap(to, v), s'.temps, c.tmp)
  {
    hide TempName, Num, Wrap;
    if to == t {
      s' := s;
      WrapIdentity(to, v);
      RanNothing(w, s, tmp);
    } else {
      var c := Coerce(x, from, to, tmp);
      s' := SetTemp(c.instrs[0], tmp, Wrap(to, v), to, w, s);
    }
  }

  // ----- expressions -----

  /** What running an expression's code achieves. */
  ghost predicate Evaluated(c: Code, r: EvalResult, w: World, s: State, s': State, tmp: nat) {
    && r.Val? && Ran(c.instrs, w, s, s', tmp) && s'.trace == r.trace && (c.ty == r.ty || c.ty == Ptr)
    && InRange(r.ty, r.v) && Holds(c.op, r.ty, r.v, s'.temps, c.tmp)
  }

  lemma RelInts(cx: Ctx, env: Env, vars: seq<VarEntry>, mem: map<string, Cell>)
    requires Rel(cx, env, vars, mem)
    ensures Integers(vars)
  {
  }

  /** A value has the static type. */
  lemma {:induction false} EvalType(cx: Ctx, w: World, e: Expr, env: Env, vars: seq<VarEntry>, mem: map<string, Cell>,
                                    tr: seq<Event>)
    requires Rel(cx, env, vars, mem) && EvalExpr(cx, w, e, env, tr).Val?
    ensures EvalExpr(cx, w, e, env, tr).ty == TypeOf(cx, vars, e)
    decreases e
  {
    hide Wrap, Compute, PassArgs, EvalArgs;
    match e
    case Var(x) => SameLookup(env, vars, x);
    case Unary(_, e1) => EvalType(cx, w, e1, env, vars, mem, tr);
    case Binary(_, l, r) =>
      EvalType(cx, w, l, env, vars, mem, tr);
      EvalType(cx, w, r, env, vars, mem, EvalExpr(cx, w, l, env, tr).trace);
    case _ =>
  }

  /** What is read back for it is the type of its value, or the type is lost. */
  lemma ReadType(cx: Ctx, w: World, e: Expr, env: Env, vars: seq<VarEntry>, mem: map<string, Cell>, tr: seq<Event>,
                 tmp: nat)
    requires Rel(cx, env, vars, mem) && EvalExpr(cx, w, e, env, tr).Val? && Kept(cx, vars, e)
    ensures
      var c, r := EmitExpr(cx, vars, e, tmp), EvalExpr(cx, w, e, env, tr);
      c.ty == (if Lost(cx, vars, e) then Ptr else r.ty) && r.ty == TypeOf(cx, vars, e)
  {
    hide *;
    RelInts(cx, env, vars, mem);
    EvalType(cx, w, e, env, vars, mem, tr);
    KeptRead(cx, vars, e);
    ReadBackCode(cx, vars, e, tmp);
  }

  lemma VarSim(cx: Ctx, w: World, x: string, env: Env, vars: seq<VarEntry>, tmp: nat, s: State) returns (s': State)
    requires Rel(cx, env, vars, s.mem) && EvalExpr(cx, w, Var(x), env, s.trace).Val?
    ensures Evaluated(EmitExpr(cx, vars, Var(x), tmp), EvalExpr(cx, w, Var(x), env, s.trace), w, s, s', tmp)
  {
    hide TempName, SlotName, Wrap;
    SameLookup(env, vars, x);
    var k := Lookup(env, x);
    if k.Some? {
      var b := env[k.value];
      s' := SetTemp(Load(TempName(tmp), b.ty, SlotName(b.name)), tmp, b.v, b.ty, w, s);
    } else {
      s' := s;
      var c := ConstFrom(cx.comptime, x).value;
      WrapIdentity(I64, c);
      RanNothing(w, s, tmp);
    }
  }

  lemma PrefixSim(p: Prefix, c: Code, t: IntTy, v: int, w: World, s: State) returns (s': State)
    requires Holds(c.op, t, v, s.temps, c.tmp) && InRange(t, v) && (p.LogicalNot? || c.ty == t)
    requires EvalPrefix(p, t, v, s.trace).Val?
    ensures
      var r, o := EvalPrefix(p, t, v, s.trace), EmitPrefix(p, Code([], c.op, c.ty, c.tmp));
      Evaluated(o, r, w, s, s', c.tmp)
  {
    hide TempName, Num;
    var o := EmitPrefix(p, Code([], c.op, c.ty, c.tmp));
    var r := EvalPrefix(p, t, v, s.trace);
    assert Wrap(I1, 0) == 0;
    s' := SetTemp(o.instrs[0], c.tmp, r.v, r.ty, w, s);
    assert o.instrs == [o.instrs[0]];
  }

  lemma ComputeInRange(op: BinOp, t: IntTy, x: int, y: int)
    requires InRange(t, x) && InRange(t, y) && Compute(op, t, x, y).Some?
    ensures InRange(t, Compute(op, t, x, y).value) && InRange(ArithType(t), Compute(op, t, x, y).value)
  {
    match op
    case Div => TruncDivInRange(t, x, y);
    case Mod => TruncModInRange(t, x, y);
    case Shr => ShiftRightInRange(t, x, y);
    case _ =>
  }

  lemma OperatorSim(op: Operator, t: IntTy, a: Operand, b: Operand, x: int, y: int, tmp: nat, w: World, s: State)
      returns (s': State)
    requires Holds(a, t, x, s.temps, tmp) && Holds(b, t, y, s.temps, tmp) && InRange(t, x) && InRange(t, y)
    requires EvalOperator(op, t, x, y, s.trace).Val?
    ensures Evaluated(EmitOperator(op, t, a, b, tmp), EvalOperator(op, t, x, y, s.trace), w, s, s', tmp)
  {
    hide TempName, Num, Wrap, Compute, Compare;
    var o := EmitOperator(op, t, a, b, tmp);
    var r := EvalOperator(op, t, x, y, s.trace);
    if op.Arith? { ComputeInRange(op.op, t, x, y); }
    s' := SetTemp(o.instrs[0], tmp, r.v, r.ty, w, s);
  }

  lemma BinaryCode(cx: Ctx, vars: seq<VarEntry>, op: Operator, e1: Expr, e2: Expr, tmp: nat)
    requires EmitExpr(cx, vars, e1, tmp).ty == Ptr ==> !PointerStep(op, Ptr)
    ensures
      var a := EmitExpr(cx, vars, e1, tmp);
      var b := EmitExpr(cx, vars, e2, a.tmp);
      var t := CommonType(a.ty, b.ty);
      var x := Coerce(a.op, a.ty, t, b.tmp);
      var y := Coerce(b.op, b.ty, t, x.tmp);
      var o := EmitOperator(op, t, x.op, y.op, y.tmp);
      EmitExpr(cx, vars, Binary(op, e1, e2), tmp)
        == o.(instrs := a.instrs + b.instrs + x.instrs + y.instrs + o.instrs)
  {
    hide Coerce, EmitOperator, CommonType;
  }

  lemma BinaryValue(cx: Ctx, w: World, op: Operator, e1: Expr, e2: Expr, env: Env, tr: seq<Event>)
    requires EvalExpr(cx, w, Binary(op, e1, e2), env, tr).Val?
    ensures
      var a := EvalExpr(cx, w, e1, env, tr);
      && a.Val?
      && var b := EvalExpr(cx, w, e2, env, a.trace);
         && b.Val?
         && var t := CommonType(a.ty, b.ty);
            EvalExpr(cx, w, Binary(op, e1, e2), env, tr) == EvalOperator(op, t, Wrap(t, a.v), Wrap(t, b.v), b.trace)
  {
    hide EvalOperator, CommonType, Wrap;
  }

  // ----- calls -----

  /** The operands hold the values, at types that are theirs or are lost and the parameters'. */
  ghost predicate ArgsHold(args: seq<Arg>, vals: seq<(IntTy, int)>, params: seq<IntTy>, temps: map<string, int>,
                           hi: int) {
    |args| == |vals| &&
    forall i :: 0 <= i < |args| ==>
      && ArgSuits(args[i].ty, vals[i].0, params, i)
      && Holds(args[i].val, vals[i].0, vals[i].1, temps, hi) && InRange(vals[i].0, vals[i].1)
  }

  predicate ArgSuits(from: Ty, t: IntTy, params: seq<IntTy>, i: nat) {
    from == t || (from == Ptr && i < |params| && params[i] == t)
  }

  /** The operands, each read at its own type, are the values to pass. */
  ghost predicate PassedHold(args: seq<Arg>, vs: seq<int>, temps: map<string, int>, hi: int) {
    |args| == |vs| &&
    forall i :: 0 <= i < |args| ==> args[i].ty != Ptr && Holds(args[i].val, args[i].ty, vs[i], temps, hi)
  }

  lemma {:induction false} PassNone(vals: seq<(IntTy, int)>)
    ensures forall i :: 0 <= i < |vals| ==> PassArgs(vals, [])[i] == vals[i].1
  {
    if vals != [] {
      PassNone(vals[1..]);
      forall i | 0 < i < |vals|
        ensures PassArgs(vals, [])[i] == vals[i].1
      {
        assert PassArgs(vals, [])[i] == PassArgs(vals[1..], [])[i - 1] && vals[1..][i - 1] == vals[i];
      }
    }
  }

  lemma {:induction false} ReadPassed(args: seq<Arg>, vs: seq<int>, temps: map<string, int>, hi: int)
    requires PassedHold(args, vs, temps, hi)
    ensures ReadArgs(args, temps) == Some(vs)
  {
    hide Num, Wrap;
    if args != [] {
      ReadPassed(args[1..], vs[1..], temps, hi);
      assert Read(args[0].val, args[0].ty, temps) == Some(vs[0]);
      assert [vs[0]] + vs[1..] == vs;
    }
  }

  lemma ArgsKept(args: seq<Arg>, vals: seq<(IntTy, int)>, params: seq<IntTy>, t: map<string, int>, t': map<string, int>,
                 hi: int, hi': int)
    requires ArgsHold(args, vals, params, t, hi) && TempsKept(t, t', hi) && hi <= hi'
    ensures ArgsHold(args, vals, params, t', hi')
  {
    hide Num, Wrap, Holds, TempsKept;
    forall i | 0 <= i < |args|
      ensures Holds(args[i].val, vals[i].0, vals[i].1, t', hi')
    {
      HoldsKept(args[i].val, vals[i].0, vals[i].1, t, t', hi, hi');
    }
  }

  lemma {:induction false} PassSim(args: seq<Arg>, params: seq<IntTy>, vals: seq<(IntTy, int)>, tmp: nat, w: World,
                                   s: State)
      returns (s': State)
    requires ArgsHold(args, vals, params, s.temps, tmp)
    ensures
      var r := CoerceArgs(args, params, tmp);
      && Ran(r.instrs, w, s, s', tmp) && s'.trace == s.trace
      && PassedHold(r.args, PassArgs(vals, params), s'.temps, r.tmp)
    decreases args
  {
    hide Num, Wrap, Holds, TempsKept, Ran, Coerce;
    if args == [] || params == [] {
      s' := s;
      RanNothing(w, s, tmp);
      if params == [] { PassNone(vals); }
    } else {
      var a, v := args[0], vals[0];
      var c := Coerce(a.val, a.ty, params[0], tmp);
      assert ArgSuits(a.ty, v.0, params, 0);
      var m := CoerceSim(a.val, v.0, a.ty, params[0], tmp, v.1, w, s);
      RanKept(c.instrs, w, s, m, tmp);
      ArgsKept(args, vals, params, s.temps, m.temps, tmp, c.tmp);
      ArgsRest(args, vals, params, m.temps, c.tmp);
      s' := PassSim(args[1..], params[1..], vals[1..], c.tmp, w, m);
      var r := CoerceArgs(args[1..], params[1..], c.tmp);
      RanKept(r.instrs, w, m, s', c.tmp);
      RanThen(c.instrs, r.instrs, w, s, m, s', tmp, c.tmp);
      HoldsKept(c.op, params[0], Wrap(params[0], v.1), m.temps, s'.temps, c.tmp, r.tmp);
    }
  }

  lemma ArgsRest(args: seq<Arg>, vals: seq<(IntTy, int)>, params: seq<IntTy>, temps: map<string, int>, hi: int)
    requires ArgsHold(args, vals, params, temps, hi) && args != [] && params != []
    ensures ArgsHold(args[1..], vals[1..], params[1..], temps, hi)
  {
    hide Holds;
    forall i | 0 <= i < |args| - 1
      ensures ArgSuits(args[1..][i].ty, vals[1..][i].0, params[1..], i)
    {
      assert ArgSuits(args[i + 1].ty, vals[i + 1].0, params, i + 1);
    }
  }

  lemma RanKept(code: seq<Instr>, w: World, s: State, s': State, lo: int)
    requires Ran(code, w, s, s', lo)
    ensures TempsKept(s.temps, s'.temps, lo) && s'.mem == s.mem
  {
  }

  /** The call itself: one event, and its result in a fresh temp. */
  lemma CallSim(dst: nat, t: IntTy, fn: string, args: seq<Arg>, vs: seq<int>, w: World, s: State) returns (s': State)
    requires ReadArgs(args, s.temps) == Some(vs)
    ensures
      var v := Wrap(t, w(s.trace, fn, vs));
      && Ran([Call(TempName(dst), t, fn, args)], w, s, s', dst)
      && s'.trace == s.trace + [Event(fn, vs)]
      && Holds(Reg(TempName(dst)), t, v, s'.temps, dst + 1)
  {
    hide TempName, Num, Wrap;
    var i := Call(TempName(dst), t, fn, args);
    var v := Wrap(t, w(s.trace, fn, vs));
    s' := State(s.temps[TempName(dst) := v], s.mem, s.trace + [Event(fn, vs)]);
    assert ExecInstr(i, w, s) == Some(s');
    ExecOne(i, w, s);
    WrapIdentity(t, v);
  }

  // ----- all expressions -----

  lemma {:induction false} ExprSim(cx: Ctx, w: World, e: Expr, env: Env, vars: seq<VarEntry>, tmp: nat, s: State)
      returns (s': State)
    requires Rel(cx, env, vars, s.mem) && EvalExpr(cx, w, e, env, s.trace).Val? && Kept(cx, vars, e) && Plain(e)
    ensures Evaluated(EmitExpr(cx, vars, e, tmp), EvalExpr(cx, w, e, env, s.trace), w, s, s', tmp)
    decreases e
  {
    match e
    case Var(x) => s' := VarSim(cx, w, x, env, vars, tmp, s);
    case Unary(p, e1) => s' := UnarySim(cx, w, p, e1, env, vars, tmp, s);
    case Binary(op, e1, e2) => s' := BinarySim(cx, w, op, e1, e2, env, vars, tmp, s);
    case CallFn(fn, args) => s' := CallFnSim(cx, w, fn, args, env, vars, tmp, s);
    case _ =>
      s' := s;
      RanNothing(w, s, tmp);
      LiteralSim(cx, w, e, env, vars, tmp, s);
  }

  lemma LiteralSim(cx: Ctx, w: World, e: Expr, env: Env, vars: seq<VarEntry>, tmp: nat, s: State)
    requires e.IntLit? || e.LongLit? || e.CharLit? || e.BoolLit?
    ensures Evaluated(EmitExpr(cx, vars, e, tmp), EvalExpr(cx, w, e, env, s.trace), w, s, s, tmp)
  {
    hide Num;
    RanNothing(w, s, tmp);
    match e
    case LongLit(n) => WrapIdentity(I64, n);
    case _ =>
  }

  lemma UnarySim(cx: Ctx, w: World, p: Prefix, e1: Expr, env: Env, vars: seq<VarEntry>, tmp: nat, s: State)
      returns (s': State)
    requires Rel(cx, env, vars, s.mem) && EvalExpr(cx, w, Unary(p, e1), env, s.trace).Val?
    requires Kept(cx, vars, Unary(p, e1)) && Plain(e1)
    ensures Evaluated(EmitExpr(cx, vars, Unary(p, e1), tmp), EvalExpr(cx, w, Unary(p, e1), env, s.trace), w, s, s', tmp)
    decreases Unary(p, e1), 0
  {
    hide Num, Wrap, Rel, Holds, TempsKept, Ran, EvalPrefix;
    var m := ExprSim(cx, w, e1, env, vars, tmp, s);
    var c, r := EmitExpr(cx, vars, e1, tmp), EvalExpr(cx, w, e1, env, s.trace);
    ReadType(cx, w, e1, env, vars, s.mem, s.trace, tmp);
    s' := PrefixSim(p, c, r.ty, r.v, w, m);
    var o := EmitPrefix(p, Code([], c.op, c.ty, c.tmp));
    PrefixCode(p, c);
    RanThen(c.instrs, o.instrs, w, s, m, s', tmp, c.tmp);
  }

  lemma PrefixCode(p: Prefix, c: Code)
    ensures
      var o := EmitPrefix(p, Code([], c.op, c.ty, c.tmp));
      EmitPrefix(p, c) == o.(instrs := c.instrs + o.instrs)
  {
    hide TempName;
  }

  lemma BinarySim(cx: Ctx, w: World, op: Operator, e1: Expr, e2: Expr, env: Env, vars: seq<VarEntry>, tmp: nat,
                  s: State)
      returns (s': State)
    requires Rel(cx, env, vars, s.mem) && EvalExpr(cx, w, Binary(op, e1, e2), env, s.trace).Val?
    requires Typed(cx, vars, e1) && Typed(cx, vars, e2) && Plain(e1) && Plain(e2)
    ensures Evaluated(EmitExpr(cx, vars, Binary(op, e1, e2), tmp), EvalExpr(cx, w, Binary(op, e1, e2), env, s.trace),
        w, s, s', tmp)
    decreases Binary(op, e1, e2), 0
  {
    hide *;
    BinaryValue(cx, w, op, e1, e2, env, s.trace);
    var a := EmitExpr(cx, vars, e1, tmp);
    var b := EmitExpr(cx, vars, e2, a.tmp);
    var va := EvalExpr(cx, w, e1, env, s.trace);
    TypedKept(cx, vars, e1);
    TypedKept(cx, vars, e2);
    ReadType(cx, w, e1, env, vars, s.mem, s.trace, tmp);
    var s1 := ExprSim(cx, w, e1, env, vars, tmp, s);
    EvaluatedParts(a, va, w, s, s1, tmp);
    var vb := EvalExpr(cx, w, e2, env, va.trace);
    ReadType(cx, w, e2, env, vars, s1.mem, va.trace, a.tmp);
    var s2 := ExprSim(cx, w, e2, env, vars, a.tmp, s1);
    EvaluatedParts(b, vb, w, s1, s2, a.tmp);
    BinaryCode(cx, vars, op, e1, e2, tmp);
    RanThen(a.instrs, b.instrs, w, s, s1, s2, tmp, a.tmp);
    HoldsKept(a.op, a.ty, va.v, s1.temps, s2.temps, a.tmp, b.tmp);
    s' := OperandsSim(op, a, b, va, vb, w, s2);
    var t := CommonType(a.ty, b.ty);
    var x := Coerce(a.op, a.ty, t, b.tmp);
    var y := Coerce(b.op, b.ty, t, x.tmp);
    var o := EmitOperator(op, t, x.op, y.op, y.tmp);
    var tail := x.instrs + y.instrs + o.instrs;
    var r := EvalOperator(op, t, Wrap(t, va.v), Wrap(t, vb.v), vb.trace);
    EvaluatedParts(o.(instrs := tail), r, w, s2, s', b.tmp);
    RanThen(a.instrs + b.instrs, tail, w, s, s2, s', tmp, b.tmp);
    assert a.instrs + b.instrs + tail == a.instrs + b.instrs + x.instrs + y.instrs + o.instrs;
    EvaluatedFrom(o.(instrs := a.instrs + b.instrs + x.instrs + y.instrs + o.instrs), r, w, s, s', tmp);
  }

  lemma TypedKept(cx: Ctx, vars: seq<VarEntry>, e: Expr)
    requires Typed(cx, vars, e)
    ensures Kept(cx, vars, e) && !Lost(cx, vars, e)
  {
    hide Kept, Lost;
  }

  lemma EvaluatedParts(c: Code, r: EvalResult, w: World, s: State, s': State, tmp: nat)
    requires Evaluated(c, r, w, s, s', tmp)
    ensures r.Val? && Ran(c.instrs, w, s, s', tmp) && s'.trace == r.trace && (c.ty == r.ty || c.ty == Ptr)
        && InRange(r.ty, r.v)
    ensures Holds(c.op, r.ty, r.v, s'.temps, c.tmp) && s'.mem == s.mem && TempsKept(s.temps, s'.temps, tmp)
  {
  }

  lemma EvaluatedFrom(c: Code, r: EvalResult, w: World, s: State, s': State, tmp: nat)
    requires r.Val? && Ran(c.instrs, w, s, s', tmp) && s'.trace == r.trace && (c.ty == r.ty || c.ty == Ptr)
        && InRange(r.ty, r.v)
    requires Holds(c.op, r.ty, r.v, s'.temps, c.tmp)
    ensures Evaluated(c, r, w, s, s', tmp)
  {
  }

  /** Both operands are at hand: bring them to the common type and operate. */
  lemma OperandsSim(op: Operator, a: Code, b: Code, va: EvalResult, vb: EvalResult, w: World, s: State)
      returns (s': State)
    requires va.Val? && vb.Val? && a.ty == va.ty && b.ty == vb.ty
    requires Holds(a.op, a.ty, va.v, s.temps, b.tmp) && Holds(b.op, b.ty, vb.v, s.temps, b.tmp)
    requires InRange(a.ty, va.v) && InRange(b.ty, vb.v) && s.trace == vb.trace
    requires
      var t := CommonType(a.ty, b.ty);
      EvalOperator(op, t, Wrap(t, va.v), Wrap(t, vb.v), vb.trace).Val?
    ensures
      var t := CommonType(a.ty, b.ty);
      var x := Coerce(a.op, a.ty, t, b.tmp);
      var y := Coerce(b.op, b.ty, t, x.tmp);
      var o := EmitOperator(op, t, x.op, y.op, y.tmp);
      Evaluated(o.(instrs := x.instrs + y.instrs + o.instrs),
                EvalOperator(op, t, Wrap(t, va.v), Wrap(t, vb.v), vb.trace), w, s, s', b.tmp)
  {
    hide *;
    var t := CommonType(a.ty, b.ty);
    var x := Coerce(a.op, a.ty, t, b.tmp);
    var y := Coerce(b.op, b.ty, t, x.tmp);
    var o := EmitOperator(op, t, x.op, y.op, y.tmp);
    var s1 := CoerceSim(a.op, a.ty, a.ty, t, b.tmp, va.v, w, s);
    RanKept(x.instrs, w, s, s1, b.tmp);
    HoldsKept(b.op, b.ty, vb.v, s.temps, s1.temps, b.tmp, x.tmp);
    var s2 := CoerceSim(b.op, b.ty, b.ty, t, x.tmp, vb.v, w, s1);
    RanKept(y.instrs, w, s1, s2, x.tmp);
    RanThen(x.instrs, y.instrs, w, s, s1, s2, b.tmp, x.tmp);
    HoldsKept(x.op, t, Wrap(t, va.v), s1.temps, s2.temps, x.tmp, y.tmp);
    s' := OperatorSim(op, t, x.op, y.op, Wrap(t, va.v), Wrap(t, vb.v), y.tmp, w, s2);
    var r := EvalOperator(op, t, Wrap(t, va.v), Wrap(t, vb.v), vb.trace);
    EvaluatedParts(o, r, w, s2, s', y.tmp);
    RanThen(x.instrs + y.instrs, o.instrs, w, s, s2, s', b.tmp, y.tmp);
    EvaluatedFrom(o.(instrs := x.instrs + y.instrs + o.instrs), r, w, s, s', b.tmp);
  }

  lemma CallFnSim(cx: Ctx, w: World, fn: string, args: Exprs, env: Env, vars: seq<VarEntry>, tmp: nat, s: State)
      returns (s': State)
    requires Rel(cx, env, vars, s.mem) && EvalExpr(cx, w, CallFn(fn, args), env, s.trace).Val?
    requires KeptArgs(cx, vars, args, SigOf(cx, fn).params) && PlainArgs(args) && Length(args) <= MAX_ARGS
    ensures Evaluated(EmitExpr(cx, vars, CallFn(fn, args), tmp), EvalExpr(cx, w, CallFn(fn, args), env, s.trace), w,
        s, s', tmp)
    decreases CallFn(fn, args), 0
  {
    hide Num, Wrap, Rel, Holds, TempsKept, Ran, SigOf, TempName, CoerceArgs, PassArgs, PassedHold, KeptArgs, PlainArgs;
    var sig := SigOf(cx, fn);
    var a := EmitArgs(cx, vars, args, tmp, MAX_ARGS);
    var r := EvalArgs(cx, w, args, env, s.trace);
    var s1 := ArgsSim(cx, w, args, sig.params, env, vars, tmp, MAX_ARGS, s);
    var b := CoerceArgs(a.args, sig.params, a.tmp);
    var s2 := PassSim(a.args, sig.params, r.vals, a.tmp, w, s1);
    RanThen(a.instrs, b.instrs, w, s, s1, s2, tmp, a.tmp);
    var vs := PassArgs(r.vals, sig.params);
    ReadPassed(b.args, vs, s2.temps, b.tmp);
    s' := CallSim(b.tmp, sig.ret, fn, b.args, vs, w, s2);
    RanThen(a.instrs + b.instrs, [Call(TempName(b.tmp), sig.ret, fn, b.args)], w, s, s2, s', tmp, b.tmp);
  }

  lemma ArgsSim(cx: Ctx, w: World, args: Exprs, params: seq<IntTy>, env: Env, vars: seq<VarEntry>, tmp: nat, room: nat,
                s: State)
      returns (s': State)
    requires Rel(cx, env, vars, s.mem) && EvalArgs(cx, w, args, env, s.trace).Values?
    requires KeptArgs(cx, vars, args, params) && PlainArgs(args) && Length(args) <= room
    ensures
      var c, r := EmitArgs(cx, vars, args, tmp, room), EvalArgs(cx, w, args, env, s.trace);
      && Ran(c.instrs, w, s, s', tmp) && s'.trace == r.trace && s'.mem == s.mem
      && ArgsHold(c.args, r.vals, params, s'.temps, c.tmp)
    decreases args, 0
  {
    hide Num, Wrap, Rel, Holds, TempsKept, Ran, EmitExpr, EvalExpr, Kept, Plain, Lost, TypeOf;
    match args
    case NoExprs =>
      s' := s;
      RanNothing(w, s, tmp);
    case MoreExprs(e, rest) =>
      var c, v := EmitExpr(cx, vars, e, tmp), EvalExpr(cx, w, e, env, s.trace);
      ReadType(cx, w, e, env, vars, s.mem, s.trace, tmp);
      var s1 := ExprSim(cx, w, e, env, vars, tmp, s);
      EvaluatedParts(c, v, w, s, s1, tmp);
      var more := if params == [] then [] else params[1..];
      s' := ArgsSim(cx, w, rest, more, env, vars, c.tmp, room - 1, s1);
      var r := EmitArgs(cx, vars, rest, c.tmp, room - 1);
      RanKept(r.instrs, w, s1, s', c.tmp);
      RanThen(c.instrs, r.instrs, w, s, s1, s', tmp, c.tmp);
      HoldsKept(c.op, v.ty, v.v, s1.temps, s'.temps, c.tmp, r.tmp);
      ArgsStep(cx, w, e, rest, env, vars, tmp, room, s.trace);
      MoreHold(c, v, r.args, EvalArgs(cx, w, rest, env, v.trace).vals, params, s'.temps, r.tmp);
  }

  lemma {:induction false} ArgsStep(cx: Ctx, w: World, e: Expr, rest: Exprs, env: Env, vars: seq<VarEntry>, tmp: nat,
                                    room: nat, tr: seq<Event>)
    requires EvalArgs(cx, w, MoreExprs(e, rest), env, tr).Values? && room > 0
    ensures
      var c, v := EmitExpr(cx, vars, e, tmp), EvalExpr(cx, w, e, env, tr);
      var r := EmitArgs(cx, vars, rest, c.tmp, room - 1);
      && EmitArgs(cx, vars, MoreExprs(e, rest), tmp, room)
         == ArgCode(c.instrs + r.instrs, [Arg(c.op, c.ty)] + r.args, r.tmp)
      && v.Val? && EvalArgs(cx, w, rest, env, v.trace).Values?
      && var q := EvalArgs(cx, w, rest, env, v.trace);
         EvalArgs(cx, w, MoreExprs(e, rest), env, tr) == Values([(v.ty, v.v)] + q.vals, q.trace)
  {
    hide EmitExpr, EvalExpr;
  }

  lemma {:induction false} MoreHold(c: Code, v: EvalResult, args: seq<Arg>, vals: seq<(IntTy, int)>,
                                    params: seq<IntTy>, temps: map<string, int>, hi: int)
    requires v.Val? && ArgSuits(c.ty, v.ty, params, 0) && Holds(c.op, v.ty, v.v, temps, hi) && InRange(v.ty, v.v)
    requires ArgsHold(args, vals, if params == [] then [] else params[1..], temps, hi)
    ensures ArgsHold([Arg(c.op, c.ty)] + args, [(v.ty, v.v)] + vals, params, temps, hi)
  {
    hide Holds;
    var all, vs := [Arg(c.op, c.ty)] + args, [(v.ty, v.v)] + vals;
    forall i | 0 <= i < |all|
      ensures ArgSuits(all[i].ty, vs[i].0, params, i)
    {
      if i > 0 { assert ArgSuits(args[i - 1].ty, vals[i - 1].0, if params == [] then [] else params[1..], i - 1); }
    }
  }
}
