/** The code generator as it runs: an object whose fields the building steps update in place. Every
    method leaves the object in the state that the corresponding function of Lower gives. */
module CodegenState {
  import opened Words
  import opened Decimal
  import opened Fir
  import opened Source
  import opened Lower
  import opened LowerDefs
  import opened LowerGrow
  import opened LowerFn
  import LowerExpr

  const MAX_DEPTH := 64

  // ----- how deep a statement's scopes nest -----

  function Max(a: nat, b: nat): nat { if a < b then b else a }

  function Nest(s: Stmt): nat {
    match s
    case If(_, thn, els) => Max(1 + NestAll(thn), if els.Some? then Nest(els.value) else 0)
    case While(_, body) => 1 + NestAll(body)
    case DoWhile(body, _) => 1 + NestAll(body)
    case ForC(first, _, _, body) => 1 + Max(if first.Some? then Nest(first.value) else 0, 1 + NestAll(body))
    case Match(_, arms) => NestArms(arms)
    case Scope(body) => 1 + NestAll(body)
    case _ => 0
  }

  function NestAll(ss: Stmts): nat {
    match ss
    case NoStmts => 0
    case MoreStmts(s, rest) => Max(Nest(s), NestAll(rest))
  }

  function NestArms(arms: Arms): nat {
    match arms
    case NoArms => 0
    case MoreArms(_, body, rest) => Max(1 + Nest(body), NestArms(rest))
  }

  // ----- straight-line code in pieces -----

  lemma EmitTwice(g: Gen, a: seq<Instr>, b: seq<Instr>)
    requires |g.blocks| > 0
    ensures Emit(Emit(g, a), b) == Emit(g, a + b)
  {
    var n := |g.blocks| - 1;
    assert g.blocks[n].instrs + a + b == g.blocks[n].instrs + (a + b);
  }

  lemma StraightThen(g: Gen, a: Code, b: Code)
    requires |g.blocks| > 0 && g.tmp <= a.tmp <= b.tmp
    ensures Straight(Straight(g, a), b) == Straight(g, b.(instrs := a.instrs + b.instrs))
  {
    hide Emit;
    EmitGrows(g, a.instrs);
    EmitTwice(g, a.instrs, b.instrs);
    TmpApart(Emit(g, a.instrs), a.tmp, b.instrs);
    TmpApart(g, a.tmp, a.instrs + b.instrs);
  }

  lemma TmpApart(g: Gen, n: nat, code: seq<Instr>)
    requires |g.blocks| > 0
    ensures Emit(g.(tmp := n), code) == Emit(g, code).(tmp := n)
  {
  }

  lemma StraightTmp(g: Gen, c: Code)
    requires |g.blocks| > 0 && c.tmp >= g.tmp
    ensures Straight(g, c).tmp == c.tmp && Straight(g, c).vars == g.vars
  {
  }

  /** No code, but temps used up. */
  lemma StraightSkips(g: Gen, x: Operand, t: Ty, n: nat)
    requires |g.blocks| > 0 && n >= g.tmp
    ensures Straight(g, Code([], x, t, n)) == g.(tmp := n)
  {
    StraightNone(g, x, t);
  }

  lemma StraightNone(g: Gen, x: Operand, t: Ty)
    requires |g.blocks| > 0
    ensures Straight(g, Code([], x, t, g.tmp)) == g
  {
    var n := |g.blocks| - 1;
    assert g.blocks[n].instrs + [] == g.blocks[n].instrs;
    assert g.blocks[n := g.blocks[n]] == g.blocks;
  }

  class Codegen {
    var blocks: seq<Block>
    var tmp: nat
    var lbl: nat
    const vars: array<VarEntry>
    var nvars: nat
    const scopeBase: array<nat>
    var depth: nat
    var brk: Option<string>
    var cont: Option<string>

    ghost predicate Tables()
      reads this, scopeBase
    {
      && vars.Length == MAX_VARS && scopeBase.Length == MAX_DEPTH && (vars as object) != (scopeBase as object)
      && nvars <= MAX_VARS && depth <= MAX_DEPTH
      && (forall i, j :: 0 <= i <= j < depth ==> scopeBase[i] <= scopeBase[j])
      && (depth > 0 ==> scopeBase[depth - 1] <= nvars)
    }

    /** A function is being built. */
    ghost predicate Valid()
      reads this, scopeBase
    {
      Tables() && |blocks| > 0
    }

    ghost function State(): (g: Gen)
      requires Valid()
      reads this, vars, scopeBase
      ensures |g.blocks| > 0 && g.blocks == blocks && g.tmp == tmp && g.lbl == lbl && |g.vars| == nvars
      ensures |g.bases| == depth
      ensures g.brk == brk && g.cont == cont
    {
      Gen(blocks, tmp, lbl, vars[..nvars], scopeBase[..depth], brk, cont)
    }

    /** Between functions: no variables, no scopes, no loop. */
    ghost predicate Idle()
      reads this, scopeBase
    {
      Tables() && nvars == 0 && depth == 0 && brk.None? && cont.None?
    }

    constructor ()
      ensures Idle() && fresh(vars) && fresh(scopeBase) && tmp == 0 && lbl == 0
    {
      blocks, tmp, lbl, nvars, depth, brk, cont := [], 0, 0, 0, 0, None, None;
      vars := new VarEntry[MAX_VARS];
      scopeBase := new nat[MAX_DEPTH];
    }

    // ----- names and blocks -----

    method NewTmp() returns (s: string)
      requires Valid()
      modifies `tmp
      ensures Valid() && s == TempName(old(tmp)) && State() == old(State()).(tmp := old(tmp) + 1)
    {
      s := FmtInt("t", tmp);
      tmp := tmp + 1;
    }

    method NewLbl(k: Kind) returns (s: string)
      requires Valid()
      modifies `lbl
      ensures Valid() && s == Label(k, old(lbl)) && State() == old(State()).(lbl := old(lbl) + 1)
    {
      s := FmtInt(Text(k), lbl);
      lbl := lbl + 1;
    }

    method NewBlock(l: string)
      requires Valid()
      modifies `blocks
      ensures Valid() && State() == Place(old(State()), l)
    {
      blocks := blocks + [Block(l, [], false)];
    }

    method EmitInstr(i: Instr)
      requires Valid()
      modifies `blocks
      ensures Valid() && State() == Emit(old(State()), [i])
    {
      var n := |blocks| - 1;
      blocks := blocks[n := blocks[n].(instrs := blocks[n].instrs + [i])];
    }

    method LastIsTerm() returns (b: bool)
      requires Valid()
      ensures b <==> !Open(State())
    {
      var last := blocks[|blocks| - 1].instrs;
      b := |last| > 0 && IsTerm(last[|last| - 1]);
    }

    /** The jump that closes the current block, unless it is closed. */
    method Close(l: string)
      requires Valid()
      modifies `blocks
      ensures Valid() && State() == BrTo(old(State()), l)
    {
      var closed := LastIsTerm();
      if !closed { EmitInstr(Br(l)); }
    }

    // ----- scopes and variables -----

    method PushScope()
      requires Valid() && depth < MAX_DEPTH
      modifies `depth, scopeBase
      ensures Valid() && depth == old(depth) + 1 && State() == ScopePush(old(State()))
    {
      scopeBase[depth] := nvars;
      depth := depth + 1;
      assert scopeBase[..depth] == old(scopeBase[..depth]) + [nvars];
    }

    method PopScope()
      requires Valid() && depth > 0
      modifies `depth, `nvars
      ensures Valid() && depth == old(depth) - 1 && State() == ScopePop(old(State()))
    {
      depth := depth - 1;
      nvars := scopeBase[depth];
      assert vars[..nvars] == old(vars[..nvars])[..nvars];
      assert scopeBase[..depth] == old(scopeBase[..depth])[..depth];
    }

    /** A full table drops the definition. */
    method DefVar(x: string, t: Ty, slot: string)
      requires Valid()
      modifies `nvars, vars
      ensures Valid() && State() == old(State()).(vars := Enter(old(State()).vars, VarEntry(x, t, slot)))
    {
      if nvars < MAX_VARS {
        vars[nvars] := VarEntry(x, t, slot);
        nvars := nvars + 1;
        assert vars[..nvars] == old(vars[..nvars]) + [VarEntry(x, t, slot)];
      }
    }

    /** From the most recent definition backwards. */
    method LookupVar(x: string) returns (k: Option<nat>)
      requires Valid()
      ensures k == VarLookup(State().vars, x)
      ensures k.Some? ==> k.value < nvars
    {
      var i := nvars;
      while i > 0
        invariant 0 <= i <= nvars
        invariant VarLookup(vars[..nvars], x) == VarLookup(vars[..i], x)
      {
        assert vars[..i][..i - 1] == vars[..i - 1];
        if vars[i - 1].name == x { return Some(i - 1); }
        i := i - 1;
      }
      return None;
    }

    method LookupConst(cx: Ctx, x: string) returns (c: Option<long>)
      ensures c == ConstFrom(cx.comptime, x)
    {
      var i := 0;
      while i < |cx.comptime|
        invariant 0 <= i <= |cx.comptime|
        invariant ConstFrom(cx.comptime, x) == ConstFrom(cx.comptime[i..], x)
      {
        if cx.comptime[i].0 == x { return Some(cx.comptime[i].1); }
        assert cx.comptime[i..][1..] == cx.comptime[i + 1..];
        i := i + 1;
      }
      return None;
    }

    // ----- expressions -----

    method CoerceTo(x: Operand, from: Ty, to: Ty) returns (y: Operand)
      requires Valid()
      modifies `blocks, `tmp
      ensures Valid() && State() == Straight(old(State()), Coerce(x, from, to, old(tmp)))
      ensures y == Coerce(x, from, to, old(tmp)).op
    {
      if from == to {
        StraightNone(State(), x, to);
        return x;
      }
      var dst := NewTmp();
      if from == Ptr || to == Ptr {
        StraightSkips(old(State()), x, to, old(tmp) + 1);
        return x;
      }
      var conv := if Width(from) < Width(to) then Sext else Trunc;
      EmitInstr(Conv(conv, dst, to, from, x));
      TmpApart(old(State()), old(tmp) + 1, [Conv(conv, dst, to, from, x)]);
      return Reg(dst);
    }

    /** An instruction that sets a fresh temp. */
    lemma OneInstr(g: Gen, i: Instr, x: Operand, t: Ty)
      requires |g.blocks| > 0
      ensures Emit(g.(tmp := g.tmp + 1), [i]) == Straight(g, Code([i], x, t, g.tmp + 1))
    {
      TmpApart(g, g.tmp + 1, [i]);
    }

    method Expression(cx: Ctx, e: Expr) returns (x: Operand, t: Ty)
      requires Valid()
      modifies `blocks, `tmp
      ensures Valid()
      ensures
        var c := EmitExpr(cx, old(State()).vars, e, old(tmp));
        State() == Straight(old(State()), c) && x == c.op && t == c.ty
      decreases e
    {
      match e
      case IntLit(n) => x, t := Lit(n), I32; StraightNone(State(), x, t);
      case LongLit(n) => x, t := Lit(n), I64; StraightNone(State(), x, t);
      case CharLit(n) => x, t := Lit(n), I8; StraightNone(State(), x, t);
      case BoolLit(b) => x, t := Lit(if b then 1 else 0), I1; StraightNone(State(), x, t);
      case Var(name) => x, t := Variable(cx, name);
      case Unary(p, e1) => x, t := PrefixOf(cx, p, e1);
      case Binary(op, l, r) => x, t := BinaryOf(cx, op, l, r);
      case CallFn(fn, args) => x, t := CallOf(cx, fn, args);
    }

    method Variable(cx: Ctx, name: string) returns (x: Operand, t: Ty)
      requires Valid()
      modifies `blocks, `tmp
      ensures Valid()
      ensures
        var c := EmitExpr(cx, old(State()).vars, Var(name), old(tmp));
        State() == Straight(old(State()), c) && x == c.op && t == c.ty
    {
      hide VarLookup, ConstFrom, TempName, Straight, Emit;
      ghost var g := State();
      var c := LookupConst(cx, name);
      var k := LookupVar(name);
      if c.Some? {
        x, t := Lit(c.value), I64;
        StraightNone(g, x, t);
      } else if k.Some? {
        var v := vars[k.value];
        assert g.vars[k.value] == v;
        var dst := NewTmp();
        EmitInstr(Load(dst, v.ty, v.slot));
        x, t := Reg(dst), VarRead(v.ty);
        OneInstr(g, Load(dst, v.ty, v.slot), x, t);
      } else {
        if name in cx.sigs { x, t := Global(name), Ptr; } else { x, t := Lit(0), I32; }
        StraightNone(g, x, t);
      }
    }

    method PrefixOf(cx: Ctx, p: Prefix, e1: Expr) returns (x: Operand, t: Ty)
      requires Valid()
      modifies `blocks, `tmp
      ensures Valid()
      ensures
        var c := EmitExpr(cx, old(State()).vars, Unary(p, e1), old(tmp));
        State() == Straight(old(State()), c) && x == c.op && t == c.ty
      decreases Unary(p, e1), 0
    {
      hide *;
      ghost var g := State();
      ghost var c := EmitExpr(cx, g.vars, e1, g.tmp);
      var v, ty := Expression(cx, e1);
      StraightTmp(g, c);
      x, t := PrefixOn(p, v, ty);
      StraightThen(g, c, PrefixCode(p, v, ty, c.tmp));
      PrefixDef(cx, g.vars, p, e1, g.tmp);
    }

    ghost function PrefixCode(p: Prefix, v: Operand, t: Ty, n: nat): (c: Code)
      ensures c.tmp == n + 1
    {
      EmitPrefix(p, Code([], v, t, n))
    }

    method PrefixOn(p: Prefix, v: Operand, ty: Ty) returns (x: Operand, t: Ty)
      requires Valid()
      modifies `blocks, `tmp
      ensures Valid()
      ensures
        var c := PrefixCode(p, v, ty, old(tmp));
        State() == Straight(old(State()), c) && x == c.op && t == c.ty
    {
      hide TempName, Straight, Emit;
      ghost var g := State();
      var dst := NewTmp();
      var i := if p.LogicalNot? then Icmp(Eq, dst, I1, v, Lit(0)) else if p.Minus? then Un(Neg, dst, ty, v)
          else Un(BitNot, dst, ty, v);
      EmitInstr(i);
      x, t := Reg(dst), if p.LogicalNot? then I1 else ty;
      OneInstr(g, i, x, t);
      assert [] + [i] == [i];
    }

    lemma PrefixDef(cx: Ctx, vars: seq<VarEntry>, p: Prefix, e1: Expr, n: nat)
      ensures
        var c := EmitExpr(cx, vars, e1, n);
        var d := PrefixCode(p, c.op, c.ty, c.tmp);
        EmitExpr(cx, vars, Unary(p, e1), n) == d.(instrs := c.instrs + d.instrs)
    {
      hide TempName;
      LowerExpr.PrefixCode(p, EmitExpr(cx, vars, e1, n));
    }

    method BinaryOf(cx: Ctx, op: Operator, l: Expr, r: Expr) returns (x: Operand, t: Ty)
      requires Valid()
      modifies `blocks, `tmp
      ensures Valid()
      ensures
        var c := EmitExpr(cx, old(State()).vars, Binary(op, l, r), old(tmp));
        State() == Straight(old(State()), c) && x == c.op && t == c.ty
      decreases Binary(op, l, r), 0
    {
      hide TempName, Straight, Emit, Coerce, CommonType, EmitExpr, EmitOperator, Tables;
      ghost var g := State();
      var lv, lt := Expression(cx, l);
      ghost var a := EmitExpr(cx, g.vars, l, g.tmp);
      if PointerStep(op, lt) {
        StepDef(cx, g, op, l, r);
        return Null, Ptr;
      }
      LowerExpr.BinaryCode(cx, g.vars, op, l, r, g.tmp);
      StraightTmp(g, a);
      var rv, rt := Expression(cx, r);
      ghost var b := EmitExpr(cx, g.vars, r, a.tmp);
      StraightThen(g, a, b);
      ghost var ab := b.(instrs := a.instrs + b.instrs);
      StraightTmp(g, ab);
      var ty := CommonType(lt, rt);
      lv := CoerceTo(lv, lt, ty);
      ghost var y := Coerce(a.op, a.ty, ty, b.tmp);
      StraightThen(g, ab, y);
      ghost var aby := y.(instrs := ab.instrs + y.instrs);
      StraightTmp(g, aby);
      rv := CoerceTo(rv, rt, ty);
      ghost var z := Coerce(b.op, b.ty, ty, y.tmp);
      StraightThen(g, aby, z);
      ghost var abyz := z.(instrs := aby.instrs + z.instrs);
      StraightTmp(g, abyz);
      ghost var h := State();
      var dst := NewTmp();
      var i := if op.Cmp? then Icmp(op.pred, dst, ty, lv, rv) else Bin(op.op, dst, ty, lv, rv);
      EmitInstr(i);
      x, t := Reg(dst), if op.Cmp? then I1 else ArithType(ty);
      OneInstr(h, i, x, t);
      OperatorCode(op, ty, lv, rv, z.tmp, i);
      StraightThen(g, abyz, Code([i], x, t, h.tmp + 1));
    }

    lemma StepDef(cx: Ctx, g: Gen, op: Operator, l: Expr, r: Expr)
      requires |g.blocks| > 0 && PointerStep(op, EmitExpr(cx, g.vars, l, g.tmp).ty)
      ensures
        var a, c := EmitExpr(cx, g.vars, l, g.tmp), EmitExpr(cx, g.vars, Binary(op, l, r), g.tmp);
        Straight(g, a) == Straight(g, c) && c.op == Null && c.ty == Ptr
    {
    }

    lemma OperatorCode(op: Operator, t: Ty, a: Operand, b: Operand, n: nat, i: Instr)
      requires i == if op.Cmp? then Icmp(op.pred, TempName(n), t, a, b) else Bin(op.op, TempName(n), t, a, b)
      ensures EmitOperator(op, t, a, b, n) == Code([i], Reg(TempName(n)), if op.Cmp? then I1 else ArithType(t), n + 1)
    {
      hide TempName;
    }

    method CallOf(cx: Ctx, fn: string, args: Exprs) returns (x: Operand, t: Ty)
      requires Valid()
      modifies `blocks, `tmp
      ensures Valid()
      ensures
        var c := EmitExpr(cx, old(State()).vars, CallFn(fn, args), old(tmp));
        State() == Straight(old(State()), c) && x == c.op && t == c.ty
      decreases CallFn(fn, args), 0
    {
      hide *;
      ghost var g := State();
      var sig := SigOf(cx, fn);
      ghost var r := EmitArgs(cx, g.vars, args, g.tmp, MAX_ARGS);
      var argv := Arguments(cx, args);
      ghost var a := ArgsAsCode(r);
      StraightTmp(g, a);
      ghost var q := CoerceArgs(r.args, sig.params, r.tmp);
      argv := CoerceAll(argv, sig.params);
      ghost var b := ArgsAsCode(q);
      StraightThen(g, a, b);
      ghost var ab := b.(instrs := a.instrs + b.instrs);
      StraightTmp(g, ab);
      x := CallInstr(sig.ret, fn, argv);
      t := CallRead(sig.ret);
      StraightThen(g, ab, CallCode(sig.ret, fn, argv, q.tmp));
      CallDef(cx, g.vars, fn, args, g.tmp);
    }

    ghost function CallCode(t: Ty, fn: string, argv: seq<Arg>, n: nat): (c: Code)
      ensures c.tmp == n + 1 && c.ty == CallRead(t)
    {
      Code([Call(TempName(n), t, fn, argv)], Reg(TempName(n)), CallRead(t), n + 1)
    }

    method CallInstr(t: Ty, fn: string, argv: seq<Arg>) returns (x: Operand)
      requires Valid()
      modifies `blocks, `tmp
      ensures Valid() && State() == Straight(old(State()), CallCode(t, fn, argv, old(tmp)))
      ensures x == CallCode(t, fn, argv, old(tmp)).op
    {
      hide TempName, Straight, Emit;
      ghost var g := State();
      var dst := NewTmp();
      EmitInstr(Call(dst, t, fn, argv));
      x := Reg(dst);
      OneInstr(g, Call(dst, t, fn, argv), x, CallRead(t));
    }

    lemma CallDef(cx: Ctx, vars: seq<VarEntry>, fn: string, args: Exprs, n: nat)
      ensures
        var sig, r := SigOf(cx, fn), EmitArgs(cx, vars, args, n, MAX_ARGS);
        var q := CoerceArgs(r.args, sig.params, r.tmp);
        var c := CallCode(sig.ret, fn, q.args, q.tmp);
        EmitExpr(cx, vars, CallFn(fn, args), n) == c.(instrs := r.instrs + q.instrs + c.instrs)
    {
      hide TempName, SigOf, CoerceArgs, EmitArgs;
    }

    ghost function ArgsAsCode(r: ArgCode): (c: Code)
      ensures c.instrs == r.instrs && c.tmp == r.tmp
    {
      Code(r.instrs, Lit(0), I32, r.tmp)
    }

    /** The arguments before `al` are done, by code `done`. */
    ghost predicate Passed(cx: Ctx, vars: seq<VarEntry>, al: Exprs, argv: seq<Arg>, done: Code, all: ArgCode) {
      |argv| <= MAX_ARGS &&
      var rest := EmitArgs(cx, vars, al, done.tmp, MAX_ARGS - |argv|);
      all.instrs == done.instrs + rest.instrs && all.args == argv + rest.args && all.tmp == rest.tmp
    }

    lemma PassedNone(cx: Ctx, vars: seq<VarEntry>, args: Exprs, n: nat)
      ensures Passed(cx, vars, args, [], Code([], Lit(0), I32, n), EmitArgs(cx, vars, args, n, MAX_ARGS))
    {
      var all := EmitArgs(cx, vars, args, n, MAX_ARGS);
      assert [] + all.instrs == all.instrs && [] + all.args == all.args;
    }

    lemma PassedNext(cx: Ctx, vars: seq<VarEntry>, al: Exprs, argv: seq<Arg>, done: Code, all: ArgCode)
      requires Passed(cx, vars, al, argv, done, all) && al.MoreExprs? && |argv| < MAX_ARGS
      ensures
        var c := EmitExpr(cx, vars, al.head, done.tmp);
        Passed(cx, vars, al.tail, argv + [Arg(c.op, c.ty)], Code(done.instrs + c.instrs, Lit(0), I32, c.tmp), all)
    {
      hide EmitExpr;
      var c := EmitExpr(cx, vars, al.head, done.tmp);
      var next := EmitArgs(cx, vars, al.tail, c.tmp, MAX_ARGS - |argv| - 1);
      assert done.instrs + (c.instrs + next.instrs) == done.instrs + c.instrs + next.instrs;
      assert argv + ([Arg(c.op, c.ty)] + next.args) == argv + [Arg(c.op, c.ty)] + next.args;
    }

    lemma PassedAll(cx: Ctx, vars: seq<VarEntry>, al: Exprs, argv: seq<Arg>, done: Code, all: ArgCode)
      requires Passed(cx, vars, al, argv, done, all) && (al.NoExprs? || |argv| == MAX_ARGS)
      ensures argv == all.args && done.instrs == all.instrs && done.tmp == all.tmp
    {
      assert done.instrs + [] == done.instrs && argv + [] == argv;
    }

    /** Each argument in turn, until there is no more room. */
    method Arguments(cx: Ctx, args: Exprs) returns (argv: seq<Arg>)
      requires Valid()
      modifies `blocks, `tmp
      ensures Valid()
      ensures
        var r := EmitArgs(cx, old(State()).vars, args, old(tmp), MAX_ARGS);
        State() == Straight(old(State()), ArgsAsCode(r)) && argv == r.args
      decreases args, 0
    {
      hide *;
      ghost var g := State();
      argv := [];
      var al := args;
      ghost var done := Code([], Lit(0), I32, g.tmp);
      ghost var all := EmitArgs(cx, g.vars, args, g.tmp, MAX_ARGS);
      StraightNone(g, Lit(0), I32);
      PassedNone(cx, g.vars, args, g.tmp);
      while al.MoreExprs? && |argv| < MAX_ARGS
        invariant |argv| <= MAX_ARGS
        invariant Valid() && done.tmp >= g.tmp && State() == Straight(g, done) && State().vars == g.vars
        invariant tmp == done.tmp
        invariant (al == args || al < args) && Passed(cx, g.vars, al, argv, done, all)
        decreases al
      {
        PassedNext(cx, g.vars, al, argv, done, all);
        ghost var c := EmitExpr(cx, g.vars, al.head, done.tmp);
        var x, t := Expression(cx, al.head);
        StraightThen(g, done, c);
        argv := argv + [Arg(x, t)];
        done := Code(done.instrs + c.instrs, Lit(0), I32, c.tmp);
        SameStraight(g, c.(instrs := done.instrs), done);
        StraightTmp(g, done);
        al := al.tail;
      }
      PassedAll(cx, g.vars, al, argv, done, all);
      SameStraight(g, done, ArgsAsCode(all));
    }

    /** The operand that code leaves is not part of the state. */
    lemma SameStraight(g: Gen, a: Code, b: Code)
      requires |g.blocks| > 0 && a.instrs == b.instrs && a.tmp == b.tmp && a.tmp >= g.tmp
      ensures Straight(g, a) == Straight(g, b)
    {
    }

    /** The first `i` arguments are done, by code `done`. */
    ghost predicate Coerced(args: seq<Arg>, params: seq<Ty>, i: nat, argv: seq<Arg>, done: Code, all: ArgCode) {
      && i <= |args| == |argv| && i <= |params| && argv[i..] == args[i..]
      && var rest := CoerceArgs(args[i..], params[i..], done.tmp);
         all.instrs == done.instrs + rest.instrs && all.args == argv[..i] + rest.args && all.tmp == rest.tmp
    }

    lemma CoercedNone(args: seq<Arg>, params: seq<Ty>, n: nat)
      ensures Coerced(args, params, 0, args, Code([], Lit(0), I32, n), CoerceArgs(args, params, n))
    {
      var all := CoerceArgs(args, params, n);
      assert [] + all.instrs == all.instrs && args[..0] + all.args == all.args && args[0..] == args
          && params[0..] == params;
    }

    lemma CoercedNext(args: seq<Arg>, params: seq<Ty>, i: nat, argv: seq<Arg>, done: Code, all: ArgCode)
      requires Coerced(args, params, i, argv, done, all) && i < |args| && i < |params|
      ensures argv[i] == args[i]
      ensures
        var c := Coerce(args[i].val, args[i].ty, params[i], done.tmp);
        Coerced(args, params, i + 1, argv[i := Arg(c.op, params[i])],
            Code(done.instrs + c.instrs, Lit(0), I32, c.tmp), all)
    {
      hide Coerce;
      var c := Coerce(args[i].val, args[i].ty, params[i], done.tmp);
      var argv' := argv[i := Arg(c.op, params[i])];
      var next := CoerceArgs(args[i + 1..], params[i + 1..], c.tmp);
      assert args[i..][1..] == args[i + 1..] && params[i..][1..] == params[i + 1..];
      assert argv[i] == argv[i..][0];
      assert argv'[..i + 1] == argv[..i] + [Arg(c.op, params[i])];
      assert argv'[i + 1..] == argv[i..][1..];
      assert done.instrs + (c.instrs + next.instrs) == done.instrs + c.instrs + next.instrs;
    }

    lemma CoercedAll(args: seq<Arg>, params: seq<Ty>, i: nat, argv: seq<Arg>, done: Code, all: ArgCode)
      requires Coerced(args, params, i, argv, done, all) && (i == |args| || i == |params|)
      ensures argv == all.args && done.instrs == all.instrs && done.tmp == all.tmp
    {
      assert done.instrs + [] == done.instrs && argv[..i] + argv[i..] == argv;
    }

    /** Arguments are brought to the parameters' types, as far as both lists reach. */
    method CoerceAll(args: seq<Arg>, params: seq<Ty>) returns (argv: seq<Arg>)
      requires Valid()
      modifies `blocks, `tmp
      ensures Valid()
      ensures
        var r := CoerceArgs(args, params, old(tmp));
        State() == Straight(old(State()), ArgsAsCode(r)) && argv == r.args
    {
      hide *;
      ghost var g := State();
      argv := args;
      var i := 0;
      ghost var done := Code([], Lit(0), I32, g.tmp);
      ghost var all := CoerceArgs(args, params, g.tmp);
      StraightNone(g, Lit(0), I32);
      CoercedNone(args, params, g.tmp);
      while i < |args| && i < |params|
        invariant 0 <= i <= |args| == |argv| && i <= |params| && Coerced(args, params, i, argv, done, all)
        invariant Valid() && done.tmp >= g.tmp && State() == Straight(g, done) && tmp == done.tmp
      {
        CoercedNext(args, params, i, argv, done, all);
        ghost var c := Coerce(args[i].val, args[i].ty, params[i], done.tmp);
        var x := CoerceTo(argv[i].val, argv[i].ty, params[i]);
        StraightThen(g, done, c);
        argv := argv[i := Arg(x, params[i])];
        done := Code(done.instrs + c.instrs, Lit(0), I32, c.tmp);
        SameStraight(g, c.(instrs := done.instrs), done);
        StraightTmp(g, done);
        i := i + 1;
      }
      CoercedAll(args, params, i, argv, done, all);
      SameStraight(g, done, ArgsAsCode(all));
    }

    // ----- conditions and effects -----

    method Condition(cx: Ctx, e: Expr) returns (x: Operand)
      requires Valid()
      modifies `blocks, `tmp
      ensures Valid()
      ensures
        var c := EmitTest(cx, old(State()).vars, e, old(tmp));
        State() == Straight(old(State()), c) && x == c.op
    {
      hide *;
      ghost var g := State();
      var v, t := Expression(cx, e);
      ghost var a := EmitExpr(cx, g.vars, e, g.tmp);
      StraightTmp(g, a);
      v := CoerceTo(v, t, I1);
      ghost var b := Coerce(a.op, a.ty, I1, a.tmp);
      StraightThen(g, a, b);
      ghost var ab := b.(instrs := a.instrs + b.instrs);
      StraightTmp(g, ab);
      ghost var h := State();
      x := Test(v);
      StraightThen(g, ab, NonZeroCode(v, h.tmp));
      TestCode(cx, g.vars, e, g.tmp);
    }

    ghost function NonZeroCode(v: Operand, n: nat): (c: Code)
      ensures c.tmp == n + 1 && c.op == Reg(TempName(n))
    {
      Code([Icmp(Ne, TempName(n), I1, v, Lit(0))], Reg(TempName(n)), I1, n + 1)
    }

    method Test(v: Operand) returns (x: Operand)
      requires Valid()
      modifies `blocks, `tmp
      ensures Valid() && State() == Straight(old(State()), NonZeroCode(v, old(tmp))) && x == NonZeroCode(v, old(tmp)).op
    {
      hide Straight, Emit, TempName;
      ghost var g := State();
      var dst := NewTmp();
      EmitInstr(Icmp(Ne, dst, I1, v, Lit(0)));
      x := Reg(dst);
      OneInstr(g, Icmp(Ne, dst, I1, v, Lit(0)), x, I1);
    }

    lemma TestCode(cx: Ctx, vars: seq<VarEntry>, e: Expr, n: nat)
      ensures
        var a := EmitExpr(cx, vars, e, n);
        var b := Coerce(a.op, a.ty, I1, a.tmp);
        var c := NonZeroCode(b.op, b.tmp);
        EmitTest(cx, vars, e, n) == c.(instrs := a.instrs + b.instrs + c.instrs)
    {
      hide EmitExpr, Coerce, TempName;
    }

    /** A condition and the branch on it. */
    method BranchOn(cx: Ctx, e: Expr, thn: string, els: string)
      requires Valid()
      modifies `blocks, `tmp
      ensures Valid() && State() == EmitBranch(cx, old(State()), e, thn, els)
    {
      hide *;
      ghost var g := State();
      var x := Condition(cx, e);
      EmitInstr(BrCond(x, thn, els));
      BranchCode(cx, g, g.lbl, e, thn, els);
    }

    /** The labels may be made before the condition's code or after it. */
    lemma BranchCode(cx: Ctx, g: Gen, n: nat, e: Expr, thn: string, els: string)
      requires |g.blocks| > 0
      ensures
        var c := EmitTest(cx, g.vars, e, g.tmp);
        EmitBranch(cx, g.(lbl := n), e, thn, els) == Emit(Straight(g, c).(lbl := n), [BrCond(c.op, thn, els)])
    {
      hide EmitTest;
      var c := EmitTest(cx, g.vars, e, g.tmp);
      EmitTwice(g, c.instrs, [BrCond(c.op, thn, els)]);
    }

    method StoreTo(x: string, t: Ty, a: Operand)
      requires Valid()
      modifies `blocks
      ensures Valid() && State() == Emit(old(State()), EmitStore(old(State()).vars, x, t, a))
    {
      hide VarLookup, Emit;
      var k := LookupVar(x);
      if k.Some? {
        assert State().vars[k.value] == vars[k.value];
        EmitInstr(Fir.Store(vars[k.value].slot, t, a));
      } else {
        EmitNone(State());
      }
    }

    lemma EmitNone(g: Gen)
      requires |g.blocks| > 0
      ensures Emit(g, []) == g
    {
      StraightNone(g, Lit(0), I32);
    }

    method Effect(cx: Ctx, eff: Effect)
      requires Valid()
      modifies `blocks, `tmp
      ensures Valid() && State() == Straight(old(State()), EmitEffect(cx, old(State()).vars, eff, old(tmp)))
    {
      hide *;
      match eff
      case Assign(x, e) => AssignTo(cx, x, e);
      case Compound(op, x, e) => CompoundTo(cx, op, x, e);
      case Increment(x) =>
        StepBy(cx, Add, x);
        EffectCode(cx, old(State()).vars, eff, old(tmp));
      case Decrement(x) =>
        StepBy(cx, Sub, x);
        EffectCode(cx, old(State()).vars, eff, old(tmp));
      case Eval(e) =>
        var x, t := Expression(cx, e);
        EffectCode(cx, old(State()).vars, eff, old(tmp));
    }

    lemma EffectCode(cx: Ctx, vars: seq<VarEntry>, eff: Effect, n: nat)
      ensures eff.Increment? ==> EmitEffect(cx, vars, eff, n) == EmitStepBy(cx, vars, Add, eff.x, n)
      ensures eff.Decrement? ==> EmitEffect(cx, vars, eff, n) == EmitStepBy(cx, vars, Sub, eff.x, n)
      ensures eff.Eval? ==> EmitEffect(cx, vars, eff, n) == EmitExpr(cx, vars, eff.e, n)
    {
      hide EmitStepBy, EmitExpr;
    }

    method AssignTo(cx: Ctx, x: string, e: Expr)
      requires Valid()
      modifies `blocks, `tmp
      ensures Valid() && State() == Straight(old(State()), EmitEffect(cx, old(State()).vars, Assign(x, e), old(tmp)))
    {
      hide Straight, Emit, EmitExpr, Coerce, VarLookup;
      ghost var g := State();
      var v, t := Expression(cx, e);
      ghost var a := EmitExpr(cx, g.vars, e, g.tmp);
      StraightTmp(g, a);
      var k := LookupVar(x);
      if k.Some? {
        var s := vars[k.value];
        assert g.vars[k.value] == s;
        ghost var c := Coerce(a.op, a.ty, s.ty, a.tmp);
        v := CoerceTo(v, t, s.ty);
        StraightThen(g, a, c);
        EmitInstr(Fir.Store(s.slot, s.ty, v));
        StraightEmit(g, c.(instrs := a.instrs + c.instrs), [Fir.Store(s.slot, s.ty, v)]);
      }
    }

    lemma StraightEmit(g: Gen, c: Code, code: seq<Instr>)
      requires |g.blocks| > 0 && c.tmp >= g.tmp
      ensures Emit(Straight(g, c), code) == Straight(g, c.(instrs := c.instrs + code))
    {
      EmitTwice(g, c.instrs, code);
    }

    /** The old value of what is assigned to. */
    method Target(cx: Ctx, x: string) returns (v: Operand, t: Ty)
      requires Valid()
      modifies `blocks, `tmp
      ensures Valid()
      ensures
        var c := EmitTarget(cx, old(State()).vars, x, old(tmp));
        State() == Straight(old(State()), c) && v == c.op && t == c.ty
    {
      hide Straight, Emit, EmitExpr, VarLookup, TempName;
      ghost var g := State();
      var k := LookupVar(x);
      if k.Some? {
        var s := vars[k.value];
        assert g.vars[k.value] == s;
        var dst := NewTmp();
        EmitInstr(Load(dst, s.ty, s.slot));
        v, t := Reg(dst), s.ty;
        OneInstr(g, Load(dst, s.ty, s.slot), v, t);
      } else {
        v, t := Expression(cx, Var(x));
      }
    }

    /** A two-operand instruction into a fresh temp. */
    method Operate(op: BinOp, t: Ty, a: Operand, b: Operand) returns (x: Operand)
      requires Valid()
      modifies `blocks, `tmp
      ensures Valid() && State() == Straight(old(State()), OperateCode(op, t, a, b, old(tmp)))
      ensures x == Reg(TempName(old(tmp)))
    {
      hide Straight, Emit, TempName;
      ghost var g := State();
      var dst := NewTmp();
      EmitInstr(Bin(op, dst, t, a, b));
      x := Reg(dst);
      OneInstr(g, Bin(op, dst, t, a, b), x, t);
    }

    ghost function OperateCode(op: BinOp, t: Ty, a: Operand, b: Operand, n: nat): (c: Code)
      ensures c.tmp == n + 1
    {
      Code([Bin(op, TempName(n), t, a, b)], Reg(TempName(n)), t, n + 1)
    }

    method CompoundTo(cx: Ctx, op: BinOp, x: string, e: Expr)
      requires Valid()
      modifies `blocks, `tmp
      ensures Valid()
      ensures State() == Straight(old(State()), EmitEffect(cx, old(State()).vars, Compound(op, x, e), old(tmp)))
    {
      hide *;
      ghost var g := State();
      var lv, t := Target(cx, x);
      ghost var o := EmitTarget(cx, g.vars, x, g.tmp);
      StraightTmp(g, o);
      var rv, rt := Expression(cx, e);
      ghost var v := EmitExpr(cx, g.vars, e, o.tmp);
      StraightThen(g, o, v);
      ghost var ov := v.(instrs := o.instrs + v.instrs);
      StraightTmp(g, ov);
      rv := CoerceTo(rv, rt, t);
      ghost var c := Coerce(v.op, v.ty, o.ty, v.tmp);
      StraightThen(g, ov, c);
      ghost var ovc := c.(instrs := ov.instrs + c.instrs);
      StraightTmp(g, ovc);
      var dst := Operate(op, t, lv, rv);
      ghost var b := OperateCode(op, t, lv, rv, c.tmp);
      StraightThen(g, ovc, b);
      ghost var ovcb := b.(instrs := ovc.instrs + b.instrs);
      StraightTmp(g, ovcb);
      StoreTo(x, t, dst);
      StraightEmit(g, ovcb, EmitStore(g.vars, x, t, dst));
      CompoundCode(cx, g, op, x, e);
    }

    lemma CompoundCode(cx: Ctx, g: Gen, op: BinOp, x: string, e: Expr)
      requires |g.blocks| > 0
      ensures
        var o := EmitTarget(cx, g.vars, x, g.tmp);
        var v := EmitExpr(cx, g.vars, e, o.tmp);
        var c := Coerce(v.op, v.ty, o.ty, v.tmp);
        var b := OperateCode(op, o.ty, o.op, c.op, c.tmp);
        var all := o.instrs + v.instrs + c.instrs + b.instrs + EmitStore(g.vars, x, o.ty, Reg(TempName(c.tmp)));
        Straight(g, EmitEffect(cx, g.vars, Compound(op, x, e), g.tmp)) == Straight(g, b.(instrs := all))
    {
      hide EmitTarget, EmitExpr, Coerce, TempName, EmitStore, Emit;
    }

    method StepBy(cx: Ctx, op: BinOp, x: string)
      requires Valid()
      modifies `blocks, `tmp
      ensures Valid() && State() == Straight(old(State()), EmitStepBy(cx, old(State()).vars, op, x, old(tmp)))
    {
      hide *;
      ghost var g := State();
      var v, t := Expression(cx, Var(x));
      ghost var a := EmitExpr(cx, g.vars, Var(x), g.tmp);
      StraightTmp(g, a);
      var dst := Operate(op, t, v, Lit(1));
      ghost var b := OperateCode(op, t, v, Lit(1), a.tmp);
      StraightThen(g, a, b);
      ghost var ab := b.(instrs := a.instrs + b.instrs);
      StraightTmp(g, ab);
      StoreTo(x, t, dst);
      StraightEmit(g, ab, EmitStore(g.vars, x, t, dst));
      StepCode(cx, g, op, x);
    }

    lemma StepCode(cx: Ctx, g: Gen, op: BinOp, x: string)
      requires |g.blocks| > 0
      ensures
        var a := EmitExpr(cx, g.vars, Var(x), g.tmp);
        var b := OperateCode(op, a.ty, a.op, Lit(1), a.tmp);
        var all := a.instrs + b.instrs + EmitStore(g.vars, x, a.ty, Reg(TempName(a.tmp)));
        Straight(g, EmitStepBy(cx, g.vars, op, x, g.tmp)) == Straight(g, b.(instrs := all))
    {
      hide EmitExpr, TempName, EmitStore, Emit;
    }

    // ----- statements without others inside -----

    method Declare(cx: Ctx, x: string, ty: Option<Ty>, init: Option<Expr>)
      requires Valid()
      modifies `blocks, `tmp, `nvars, vars
      ensures Valid() && State() == EmitDecl(cx, old(State()), x, ty, init)
    {
      hide Straight, Emit, EmitExpr, Coerce, Enter, DeclCode, DeclEntry;
      ghost var g := State();
      var t, slot;
      if ty.None? && init.Some? {
        t, slot := DeclareInferred(cx, x, init.value);
      } else {
        t, slot := DeclareTyped(cx, x, if ty.Some? then ty.value else I32, init);
        TypedDef(cx, g.vars, x, ty, init, g.tmp);
      }
      StraightTmp(g, DeclCode(cx, g.vars, x, ty, init, g.tmp));
      if !(x == DISCARD && ty.None? && init.Some?) { DefVar(x, t, slot); }
    }

    /** A discarded value takes a temp's number for its slot. */
    method NewSlot(x: string) returns (slot: string)
      requires Valid()
      modifies `tmp
      ensures Valid() && slot == DeclSlot(x, old(tmp)) && tmp == DeclTmp(x, old(tmp))
      ensures State() == old(State()).(tmp := DeclTmp(x, old(tmp)))
    {
      if x == DISCARD {
        slot := FmtInt("var._.", tmp);
        tmp := tmp + 1;
      } else {
        slot := SlotName(x);
      }
    }

    method DeclareInferred(cx: Ctx, x: string, e: Expr) returns (t: Ty, slot: string)
      requires Valid()
      modifies `blocks, `tmp
      ensures Valid()
      ensures
        var g := old(State());
        && State() == Straight(g, DeclCode(cx, g.vars, x, None, Some(e), g.tmp))
        && VarEntry(x, t, slot) == DeclEntry(cx, g.vars, x, None, Some(e), g.tmp)
    {
      hide Straight, Emit, EmitExpr, DeclSlot, DeclTmp;
      ghost var g := State();
      ghost var c := EmitExpr(cx, g.vars, e, g.tmp);
      var v;
      v, t := Expression(cx, e);
      StraightTmp(g, c);
      slot := NewSlot(x);
      StraightLater(g, c, tmp);
      var code := [Alloca(slot, t), Fir.Store(slot, t, v)];
      EmitInstr(code[0]);
      EmitInstr(code[1]);
      EmitTwice(Straight(g, c.(tmp := tmp)), [code[0]], [code[1]]);
      assert [code[0]] + [code[1]] == code;
      StraightEmit(g, c.(tmp := tmp), code);
    }

    lemma StraightLater(g: Gen, c: Code, n: nat)
      requires |g.blocks| > 0 && g.tmp <= c.tmp <= n
      ensures Straight(g, c).(tmp := n) == Straight(g, c.(tmp := n))
    {
    }

    method DeclareTyped(cx: Ctx, x: string, ty: Ty, init: Option<Expr>) returns (t: Ty, slot: string)
      requires Valid()
      modifies `blocks, `tmp
      ensures Valid()
      ensures
        var g := old(State());
        && State() == Straight(g, DeclCode(cx, g.vars, x, Some(ty), init, g.tmp))
        && VarEntry(x, t, slot) == DeclEntry(cx, g.vars, x, Some(ty), init, g.tmp)
    {
      hide Straight, Emit, EmitExpr, Coerce, DeclSlot, DeclTmp, Enter;
      ghost var g := State();
      t := ty;
      slot := NewSlot(x);
      EmitInstr(Alloca(slot, t));
      ghost var h := State();
      SlotCode(g, tmp, Alloca(slot, t), Lit(0), t);
      ghost var s := Code([Alloca(slot, t)], Lit(0), t, tmp);
      StraightTmp(g, s);
      ghost var n := tmp;
      var v, vt := Lit(0), t;
      if init.Some? {
        v, vt := Expression(cx, init.value);
      } else {
        StraightNone(h, v, t);
      }
      ghost var a := if init.Some? then EmitExpr(cx, g.vars, init.value, n) else Code([], Lit(0), t, n);
      StraightTmp(h, a);
      StraightThen(g, s, a);
      v := CoerceTo(v, vt, t);
      ghost var c := Coerce(a.op, a.ty, t, a.tmp);
      ghost var sa := a.(instrs := s.instrs + a.instrs);
      StraightThen(g, sa, c);
      EmitInstr(Fir.Store(slot, t, v));
      StraightEmit(g, c.(instrs := sa.instrs + c.instrs), [Fir.Store(slot, t, v)]);
    }

    lemma SlotCode(g: Gen, n: nat, i: Instr, x: Operand, t: Ty)
      requires |g.blocks| > 0 && n >= g.tmp
      ensures Emit(g.(tmp := n), [i]) == Straight(g, Code([i], x, t, n))
    {
    }

    /** A type that is not written is int. */
    lemma TypedDef(cx: Ctx, vars: seq<VarEntry>, x: string, ty: Option<Ty>, init: Option<Expr>, n: nat)
      requires !(ty.None? && init.Some?)
      ensures
        var t := Some(if ty.Some? then ty.value else I32);
        && DeclCode(cx, vars, x, ty, init, n) == DeclCode(cx, vars, x, t, init, n)
        && DeclEntry(cx, vars, x, ty, init, n) == DeclEntry(cx, vars, x, t, init, n)
    {
      hide EmitExpr, Coerce;
    }

    lemma EmitKeeps(g: Gen, code: seq<Instr>)
      requires |g.blocks| > 0
      ensures Emit(g, code).tmp == g.tmp && Emit(g, code).vars == g.vars && Emit(g, code).lbl == g.lbl
    {
    }

    /** Away, and on in a block that nothing leads to. */
    method Away(i: Instr, k: Kind)
      requires Valid()
      modifies `blocks, `lbl
      ensures Valid()
      ensures
        var h := Emit(old(State()), [i]);
        State() == Place(h, Label(k, h.lbl)).(lbl := h.lbl + 1)
    {
      hide *;
      EmitInstr(i);
      var l := NewLbl(k);
      NewBlock(l);
      EmitKeeps(old(State()), [i]);
      PlaceApart(Emit(old(State()), [i]), l, old(lbl) + 1);
    }

    lemma PlaceApart(g: Gen, l: string, n: nat)
      ensures Place(g.(lbl := n), l) == Place(g, l).(lbl := n)
    {
    }

    method ReturnFrom(cx: Ctx, val: Option<Expr>)
      requires Valid()
      modifies `blocks, `tmp, `lbl
      ensures Valid() && State() == EmitReturn(cx, old(State()), val)
    {
      hide Straight, Emit, EmitExpr, Coerce, Place, Label;
      ghost var g := State();
      if val.None? || cx.ret.None? {
        Away(RetVoid, Dead);
      } else {
        var t := cx.ret.value;
        ghost var a := EmitExpr(cx, g.vars, val.value, g.tmp);
        var v, vt := Expression(cx, val.value);
        StraightTmp(g, a);
        ghost var c := Coerce(a.op, a.ty, t, a.tmp);
        v := CoerceTo(v, vt, t);
        StraightThen(g, a, c);
        StraightEmit(g, c.(instrs := a.instrs + c.instrs), [Ret(t, v)]);
        Away(Ret(t, v), Dead);
      }
    }

    method LeaveLoop(target: Option<string>, k: Kind)
      requires Valid()
      modifies `blocks, `lbl
      ensures Valid() && State() == EmitLeave(old(State()), target, k)
    {
      hide Emit, Place, Label;
      EmitKeeps(State(), [if target.Some? then Br(target.value) else Unreachable]);
      Away(if target.Some? then Br(target.value) else Unreachable, k);
    }

    method SetLabels(b: Option<string>, c: Option<string>)
      requires Valid()
      modifies `brk, `cont
      ensures Valid() && State() == old(State()).(brk := b, cont := c)
    {
      brk, cont := b, c;
    }

    // ----- all statements -----

    lemma NestMeaning(s: Stmt)
      ensures s.If? ==> Nest(s) >= 1 + NestAll(s.thn) && (s.els.Some? ==> Nest(s) >= Nest(s.els.value))
      ensures s.While? || s.DoWhile? || s.Scope? ==> Nest(s) == 1 + NestAll(s.body)
      ensures s.ForC? ==> Nest(s) >= 2 + NestAll(s.body) && (s.first.Some? ==> Nest(s) >= 1 + Nest(s.first.value))
      ensures s.Match? ==> Nest(s) == NestArms(s.arms)
    {
    }

    lemma NestMore(s: Stmt, rest: Stmts)
      ensures NestAll(MoreStmts(s, rest)) >= Nest(s) && NestAll(MoreStmts(s, rest)) >= NestAll(rest)
    {
    }

    lemma NestArm(p: Pattern, body: Stmt, rest: Arms)
      ensures NestArms(MoreArms(p, body, rest)) >= 1 + Nest(body) && NestArms(MoreArms(p, body, rest)) >= NestArms(rest)
    {
    }

    method Statement(cx: Ctx, s: Stmt)
      requires Valid() && depth + Nest(s) <= MAX_DEPTH
      modifies this, vars, scopeBase
      ensures Valid() && depth == old(depth) && State() == EmitStmt(cx, old(State()), s)
      decreases s, 1
    {
      hide *;
      StmtDefs(cx, State(), s);
      NestMeaning(s);
      match s
      case Decl(x, ty, init, _) => Declare(cx, x, ty, init);
      case Do(eff) => Effect(cx, eff);
      case Return(val) => ReturnFrom(cx, val);
      case If(_, _, _) => IfStatement(cx, s);
      case While(_, _) => WhileStatement(cx, s);
      case DoWhile(_, _) => DoStatement(cx, s);
      case ForC(_, _, _, _) => ForStatement(cx, s);
      case Match(e, arms) => MatchStatement(cx, e, arms);
      case Break => LeaveLoop(brk, Brkd);
      case Continue => LeaveLoop(cont, Cntd);
      case Scope(body) => BlockOf(cx, body);
    }

    /** The statements of a block, in a scope of their own. */
    method BlockOf(cx: Ctx, ss: Stmts)
      requires Valid() && depth + 1 + NestAll(ss) <= MAX_DEPTH
      modifies this, vars, scopeBase
      ensures Valid() && depth == old(depth) && State() == EmitScope(cx, old(State()), ss)
      decreases ss, 1
    {
      hide *;
      ghost var g := State();
      PushScope();
      ghost var h := State();
      var it := ss;
      while it.MoreStmts?
        invariant Valid() && depth == old(depth) + 1 && depth + NestAll(it) <= MAX_DEPTH
        invariant (it == ss || it < ss) && EmitStmts(cx, h, ss) == EmitStmts(cx, State(), it)
        decreases it
      {
        NestMore(it.head, it.tail);
        StmtsCode(cx, State(), it.head, it.tail);
        Statement(cx, it.head);
        it := it.tail;
      }
      StmtsCode(cx, State(), Break, NoStmts);
      PopScope();
      ScopeCode(cx, g, ss);
    }

    lemma StmtsCode(cx: Ctx, g: Gen, s: Stmt, rest: Stmts)
      requires |g.blocks| > 0
      ensures EmitStmts(cx, g, MoreStmts(s, rest)) == EmitStmts(cx, EmitStmt(cx, g, s), rest)
      ensures EmitStmts(cx, g, NoStmts) == g
    {
      hide EmitStmt;
    }

    lemma ScopeCode(cx: Ctx, g: Gen, ss: Stmts)
      requires |g.blocks| > 0
      ensures ScopePush(g).blocks == g.blocks
      ensures EmitScope(cx, g, ss) == ScopePop(EmitStmts(cx, ScopePush(g), ss))
    {
      hide EmitStmts;
    }

    /** A labelled block holding a scope and closed by a jump. */
    method BodyAt(cx: Ctx, l: string, body: Stmts, t: string)
      requires Valid() && depth + 1 + NestAll(body) <= MAX_DEPTH
      modifies this, vars, scopeBase
      ensures Valid() && depth == old(depth)
      ensures State() == BrTo(EmitScope(cx, Place(old(State()), l), body), t)
      decreases body, 2
    {
      hide *;
      NewBlock(l);
      BlockOf(cx, body);
      Close(t);
    }

    method IfStatement(cx: Ctx, s: Stmt)
      requires Valid() && s.If? && depth + Nest(s) <= MAX_DEPTH
      modifies this, vars, scopeBase
      ensures Valid() && depth == old(depth) && State() == EmitIf(cx, old(State()), s)
      decreases s, 0, 2
    {
      hide *;
      ghost var g := State();
      IfDefs(cx, g, s);
      NestMeaning(s);
      var x := Condition(cx, s.cond);
      var tl := NewLbl(IfT);
      var fl := NewLbl(IfF);
      var ml := NewLbl(IfM);
      var els := if s.els.Some? then fl else ml;
      StraightLbl(g, EmitTest(cx, g.vars, s.cond, g.tmp));
      EmitInstr(BrCond(x, tl, els));
      BranchCode(cx, g, g.lbl + 3, s.cond, tl, els);
      IfSides(cx, g, s, tl, fl, ml);
      NewBlock(ml);
    }

    method IfSides(cx: Ctx, ghost g: Gen, s: Stmt, tl: string, fl: string, ml: string)
      requires Valid() && s.If? && |g.blocks| > 0 && State() == IfTest(cx, g, s) && depth + Nest(s) <= MAX_DEPTH
      requires tl == Label(IfT, g.lbl) && fl == Label(IfF, g.lbl + 1) && ml == Label(IfM, g.lbl + 2)
      modifies this, vars, scopeBase
      ensures Valid() && depth == old(depth) && State() == IfElse(cx, g, s)
      decreases s, 0, 1
    {
      hide *;
      IfDefs(cx, g, s);
      NestMeaning(s);
      BodyAt(cx, tl, s.thn, ml);
      if s.els.Some? {
        NewBlock(fl);
        Statement(cx, s.els.value);
        Close(ml);
      }
    }

    lemma StraightLbl(g: Gen, c: Code)
      requires |g.blocks| > 0 && c.tmp >= g.tmp
      ensures Straight(g, c).lbl == g.lbl
    {
    }

    method WhileStatement(cx: Ctx, s: Stmt)
      requires Valid() && s.While? && depth + Nest(s) <= MAX_DEPTH
      modifies this, vars, scopeBase
      ensures Valid() && depth == old(depth) && State() == EmitWhile(cx, old(State()), s)
      decreases s, 0, 2
    {
      hide *;
      ghost var g := State();
      WhileDefs(cx, g, s);
      var hl := NewLbl(Wh);
      var bl := NewLbl(Wb);
      var el := NewLbl(We);
      var prevBrk, prevCont := brk, cont;
      SetLabels(Some(el), Some(hl));
      WhileInside(cx, g, s, hl, bl, el);
      NewBlock(el);
      SetLabels(prevBrk, prevCont);
    }

    method WhileInside(cx: Ctx, ghost g: Gen, s: Stmt, hl: string, bl: string, el: string)
      requires Valid() && s.While? && |g.blocks| > 0 && depth + Nest(s) <= MAX_DEPTH
      requires hl == Label(Wh, g.lbl) && bl == Label(Wb, g.lbl + 1) && el == Label(We, g.lbl + 2)
      requires State() == g.(lbl := g.lbl + 3, brk := Some(el), cont := Some(hl))
      modifies this, vars, scopeBase
      ensures Valid() && depth == old(depth) && State() == WhileBody(cx, g, s)
      decreases s, 0, 1
    {
      hide *;
      WhileDefs(cx, g, s);
      NestMeaning(s);
      Close(hl);
      NewBlock(hl);
      BranchOn(cx, s.cond, bl, el);
      BodyAt(cx, bl, s.body, hl);
    }

    method DoStatement(cx: Ctx, s: Stmt)
      requires Valid() && s.DoWhile? && depth + Nest(s) <= MAX_DEPTH
      modifies this, vars, scopeBase
      ensures Valid() && depth == old(depth) && State() == EmitDoWhile(cx, old(State()), s)
      decreases s, 0, 2
    {
      hide *;
      ghost var g := State();
      DoDefs(cx, g, s);
      var bl := NewLbl(Dw);
      var hl := NewLbl(Dwh);
      var el := NewLbl(Dwe);
      var prevBrk, prevCont := brk, cont;
      SetLabels(Some(el), Some(hl));
      DoInside(cx, g, s, bl, hl, el);
      NewBlock(el);
      SetLabels(prevBrk, prevCont);
    }

    method DoInside(cx: Ctx, ghost g: Gen, s: Stmt, bl: string, hl: string, el: string)
      requires Valid() && s.DoWhile? && |g.blocks| > 0 && depth + Nest(s) <= MAX_DEPTH
      requires bl == Label(Dw, g.lbl) && hl == Label(Dwh, g.lbl + 1) && el == Label(Dwe, g.lbl + 2)
      requires State() == g.(lbl := g.lbl + 3, brk := Some(el), cont := Some(hl))
      modifies this, vars, scopeBase
      ensures Valid() && depth == old(depth) && State() == DoTest(cx, g, s)
      decreases s, 0, 1
    {
      hide *;
      DoDefs(cx, g, s);
      NestMeaning(s);
      Close(bl);
      BodyAt(cx, bl, s.body, hl);
      NewBlock(hl);
      BranchOn(cx, s.cond, bl, el);
    }

    method ForStatement(cx: Ctx, s: Stmt)
      requires Valid() && s.ForC? && depth + Nest(s) <= MAX_DEPTH
      modifies this, vars, scopeBase
      ensures Valid() && depth == old(depth) && State() == EmitFor(cx, old(State()), s)
      decreases s, 0, 2
    {
      hide *;
      ghost var g := State();
      ForDefs(cx, g, s);
      NestMeaning(s);
      var prevBrk, prevCont := brk, cont;
      var hl, bl, sl, el := EnterFor();
      ForUpToTest(cx, g, s, hl, bl, el);
      ForBodyAndStep(cx, g, s, bl, sl);
      Close(hl);
      NewBlock(el);
      PopScope();
      SetLabels(prevBrk, prevCont);
    }

    method EnterFor() returns (hl: string, bl: string, sl: string, el: string)
      requires Valid() && depth < MAX_DEPTH
      modifies this, scopeBase
      ensures Valid() && depth == old(depth) + 1 && State() == ForEnter(old(State()))
      ensures hl == Label(Fh, old(lbl)) && bl == Label(Fb, old(lbl) + 1)
      ensures sl == Label(Fs, old(lbl) + 2) && el == Label(Fe, old(lbl) + 3)
    {
      hide *;
      ghost var g := State();
      hl := NewLbl(Fh);
      bl := NewLbl(Fb);
      sl := NewLbl(Fs);
      el := NewLbl(Fe);
      SetLabels(Some(el), Some(sl));
      PushScope();
      EnterDef(g);
      EnterCode(g, el, sl);
    }

    lemma EnterDef(g: Gen)
      ensures ForEnter(g)
           == ScopePush(g).(lbl := g.lbl + 4, brk := Some(Label(Fe, g.lbl + 3)), cont := Some(Label(Fs, g.lbl + 2)))
    {
      hide Label;
    }

    lemma EnterCode(g: Gen, el: string, sl: string)
      ensures ScopePush(g.(lbl := g.lbl + 4, brk := Some(el), cont := Some(sl)))
           == ScopePush(g).(lbl := g.lbl + 4, brk := Some(el), cont := Some(sl))
    {
    }

    method ForUpToTest(cx: Ctx, ghost g: Gen, s: Stmt, hl: string, bl: string, el: string)
      requires Valid() && s.ForC? && |g.blocks| > 0 && State() == ForEnter(g) && depth + Nest(s) <= MAX_DEPTH + 1
      requires hl == Label(Fh, g.lbl) && bl == Label(Fb, g.lbl + 1) && el == Label(Fe, g.lbl + 3)
      modifies this, vars, scopeBase
      ensures Valid() && depth == old(depth) && State() == ForTest(cx, g, s)
      decreases s, 0, 1
    {
      hide *;
      ForDefs(cx, g, s);
      NestMeaning(s);
      if s.first.Some? { Statement(cx, s.first.value); }
      Close(hl);
      NewBlock(hl);
      if s.test.Some? {
        BranchOn(cx, s.test.value, bl, el);
      } else {
        EmitInstr(Br(bl));
      }
    }

    method ForBodyAndStep(cx: Ctx, ghost g: Gen, s: Stmt, bl: string, sl: string)
      requires Valid() && s.ForC? && |g.blocks| > 0 && State() == ForTest(cx, g, s) && depth + Nest(s) <= MAX_DEPTH + 1
      requires bl == Label(Fb, g.lbl + 1) && sl == Label(Fs, g.lbl + 2)
      modifies this, vars, scopeBase
      ensures Valid() && depth == old(depth) && State() == ForStep(cx, g, s)
      decreases s, 0, 1
    {
      hide *;
      ForDefs(cx, g, s);
      NestMeaning(s);
      BodyAt(cx, bl, s.body, sl);
      NewBlock(sl);
      if s.step.Some? { Effect(cx, s.step.value); }
    }

    // ----- match -----

    /** Every arm's label is made before any arm is built. */
    method MatchStatement(cx: Ctx, e: Expr, arms: Arms)
      requires Valid() && depth + NestArms(arms) <= MAX_DEPTH
      modifies this, vars, scopeBase
      ensures Valid() && depth == old(depth) && State() == EmitMatch(cx, old(State()), e, arms)
      decreases arms, 1
    {
      hide *;
      ghost var g := State();
      MatchDefs(cx, g, e, arms);
      ghost var v := EmitExpr(cx, g.vars, e, g.tmp);
      var mv, mty := Expression(cx, e);
      StraightLbl(g, v);
      var el := NewLbl(Mend);
      var narms := CountArms(arms);
      var labels := ArmLabels(narms);
      LblApart(g, g.lbl + 1 + narms, v);
      ArmStatements(cx, mv, mty, arms, labels, old(lbl) + 1, el);
      Close(el);
      NewBlock(el);
    }

    method CountArms(arms: Arms) returns (n: nat)
      ensures n == ArmCount(arms)
    {
      n := 0;
      var al := arms;
      while al.MoreArms?
        invariant n + ArmCount(al) == ArmCount(arms)
        decreases al
      {
        n := n + 1;
        al := al.rest;
      }
    }

    method ArmLabels(narms: nat) returns (labels: array<string>)
      requires Valid()
      modifies `lbl
      ensures Valid() && State() == old(State()).(lbl := old(lbl) + narms)
      ensures fresh(labels) && labels.Length == narms
      ensures forall k :: 0 <= k < narms ==> labels[k] == Label(Marm, old(lbl) + k)
    {
      hide Label;
      labels := new string[narms];
      var ai := 0;
      while ai < narms
        invariant 0 <= ai <= narms && Valid() && State() == old(State()).(lbl := old(lbl) + ai)
        invariant forall k :: 0 <= k < ai ==> labels[k] == Label(Marm, old(lbl) + k)
      {
        labels[ai] := NewLbl(Marm);
        ai := ai + 1;
      }
    }

    method ArmStatements(cx: Ctx, x: Operand, t: Ty, arms: Arms, labels: array<string>, ghost first: nat, el: string)
      requires Valid() && depth + NestArms(arms) <= MAX_DEPTH && labels.Length == ArmCount(arms)
      requires (labels as object) != (vars as object) && (labels as object) != (scopeBase as object)
      requires forall k :: 0 <= k < labels.Length ==> labels[k] == Label(Marm, first + k)
      modifies this, vars, scopeBase
      ensures Valid() && depth == old(depth) && State() == EmitArms(cx, old(State()), x, t, arms, first, el)
      decreases arms, 0
    {
      hide *;
      ghost var g := State();
      var al, ai := arms, 0;
      while al.MoreArms?
        invariant Valid() && depth == old(depth) && depth + NestArms(al) <= MAX_DEPTH
        invariant 0 <= ai && ai + ArmCount(al) == labels.Length && (al == arms || al < arms)
        invariant forall k :: 0 <= k < labels.Length ==> labels[k] == Label(Marm, first + k)
        invariant EmitArms(cx, g, x, t, arms, first, el) == EmitArms(cx, State(), x, t, al, first + ai, el)
        decreases al
      {
        NestArm(al.pat, al.body, al.rest);
        ArmsDef(cx, State(), x, t, al, first + ai, el);
        if al.pat.Wildcard? {
          EmitInstr(Br(labels[ai]));
          ArmAt(cx, labels[ai], al.body, el);
        } else {
          TestedArm(cx, x, t, al.pat, al.body, labels[ai], el);
        }
        al, ai := al.rest, ai + 1;
      }
      ArmsDef(cx, State(), x, t, NoArms, first + ai, el);
    }

    method ArmAt(cx: Ctx, l: string, body: Stmt, el: string)
      requires Valid() && depth + 1 + Nest(body) <= MAX_DEPTH
      modifies this, vars, scopeBase
      ensures Valid() && depth == old(depth) && State() == EmitArm(cx, old(State()), l, body, el)
      decreases body, 2
    {
      hide *;
      ArmDef(cx, State(), l, body, el);
      NewBlock(l);
      ScopeDefs(State());
      PushScope();
      Statement(cx, body);
      ScopeDefs(State());
      PopScope();
      Close(el);
    }

    method TestedArm(cx: Ctx, x: Operand, t: Ty, p: Pattern, body: Stmt, l: string, el: string)
      requires Valid() && depth + 1 + Nest(body) <= MAX_DEPTH && !p.Wildcard?
      modifies this, vars, scopeBase
      ensures Valid() && depth == old(depth) && State() == EmitTested(cx, old(State()), x, t, p, body, l, el)
      decreases body, 3
    {
      hide *;
      ghost var g := State();
      TestedDef(cx, g, x, t, p, body, l, el);
      var nl := NewLbl(Mcnext);
      ghost var h := State();
      ghost var c := EmitPattern(p, x, t, h.tmp);
      var cond := TestPattern(p, x, t);
      EmitInstr(BrCond(cond, l, nl));
      StraightEmit(h, c, [BrCond(cond, l, nl)]);
      ArmAt(cx, l, body, el);
      NewBlock(nl);
    }

    /** A temp is set aside for the comparison before a range takes its own. */
    method TestPattern(p: Pattern, x: Operand, t: Ty) returns (cond: Operand)
      requires Valid() && !p.Wildcard?
      modifies `blocks, `tmp
      ensures Valid()
      ensures
        var c := EmitPattern(p, x, t, old(tmp));
        State() == Straight(old(State()), c) && cond == c.op
    {
      hide *;
      ghost var g := State();
      if p.Literal? {
        var dst := NewTmp();
        EmitInstr(Icmp(Eq, dst, t, x, Lit(p.n)));
        cond := Reg(dst);
        TmpApart(g, g.tmp + 1, [Icmp(Eq, dst, t, x, Lit(p.n))]);
        LiteralCode(g, p, x, t);
      } else {
        var unused := NewTmp();
        var clo := NewTmp();
        var chi := NewTmp();
        var i1, i2 := Icmp(Sge, clo, t, x, Lit(p.lo)), Icmp(Sle, chi, t, x, Lit(p.hi));
        EmitInstr(i1);
        EmitInstr(i2);
        EmitKeeps(g.(tmp := g.tmp + 3), [i1]);
        EmitKeeps(Emit(g.(tmp := g.tmp + 3), [i1]), [i2]);
        var dst := NewTmp();
        var i3 := Bin(And, dst, I1, Reg(clo), Reg(chi));
        EmitInstr(i3);
        cond := Reg(dst);
        RangeCode(g, i1, i2, i3);
        RangePatternCode(g, p, x, t);
      }
    }

    lemma LiteralCode(g: Gen, p: Pattern, x: Operand, t: Ty)
      requires |g.blocks| > 0 && p.Literal?
      ensures
        var c := EmitPattern(p, x, t, g.tmp);
        && c.op == Reg(TempName(g.tmp))
        && Straight(g, c) == Emit(g, [Icmp(Eq, TempName(g.tmp), t, x, Lit(p.n))]).(tmp := g.tmp + 1)
    {
      hide TempName, Emit;
    }

    lemma RangePatternCode(g: Gen, p: Pattern, x: Operand, t: Ty)
      requires |g.blocks| > 0 && p.Range?
      ensures
        var a, b, d := TempName(g.tmp + 1), TempName(g.tmp + 2), TempName(g.tmp + 3);
        var c := EmitPattern(p, x, t, g.tmp);
        && c.op == Reg(d)
        && Straight(g, c)
             == Emit(g, [Icmp(Sge, a, t, x, Lit(p.lo)), Icmp(Sle, b, t, x, Lit(p.hi)), Bin(And, d, I1, Reg(a), Reg(b))])
                  .(tmp := g.tmp + 4)
    {
      hide TempName, Emit;
    }

    lemma RangeCode(g: Gen, i1: Instr, i2: Instr, i3: Instr)
      requires |g.blocks| > 0
      ensures
        Emit(Emit(Emit(g.(tmp := g.tmp + 3), [i1]), [i2]).(tmp := g.tmp + 4), [i3])
        == Emit(g, [i1, i2, i3]).(tmp := g.tmp + 4)
    {
      hide Emit;
      TmpApart(g, g.tmp + 3, [i1]);
      TmpApart(Emit(g, [i1]), g.tmp + 3, [i2]);
      EmitTwice(g, [i1], [i2]);
      var h := Emit(g, [i1] + [i2]);
      TmpApart(h, g.tmp + 4, [i3]);
      EmitTwice(g, [i1] + [i2], [i3]);
      assert [i1] + [i2] + [i3] == [i1, i2, i3];
    }

    // ----- functions -----

    /** A function from its parameters to its last return. The counters go on; everything else is put back. */
    method Function(cx: Ctx, ps: seq<Param>, body: Stmts) returns (f: seq<Block>)
      requires Idle() && 2 + NestAll(body) <= MAX_DEPTH
      modifies this, vars, scopeBase
      ensures Idle() && f == EmitFn(cx, ps, body, old(tmp), old(lbl)).blocks && WellFormed(f)
      ensures tmp >= old(tmp)
    {
      hide *;
      FnWellFormed(cx, ps, body, tmp, lbl);
      StartFunction();
      ghost var g := State();
      Parameters(ps);
      ghost var p := State();
      BlockOf(cx, body);
      StartGood(old(tmp), old(lbl));
      FnGrows(cx, g, p, ps, body);
      ghost var b := State();
      FnBodyDef(cx, ps, body, old(tmp), old(lbl));
      FnFinal(cx, ps, body, old(tmp), old(lbl));
      EmitInstrIfOpen(if cx.ret.None? then RetVoid else Ret(cx.ret.value, Lit(0)));
      FallOffDef(cx);
      f := blocks;
      EmitKeepsLoop(b, [FallOff(cx)]);
      PopScope();
      EndFunction(Emit(b, [FallOff(cx)]));
    }

    method StartFunction()
      requires Idle()
      modifies this, scopeBase
      ensures Valid() && depth == 1 && State() == FnStart(old(tmp), old(lbl)) && brk.None? && cont.None?
      ensures tmp == old(tmp) && State().bases == [0]
    {
      blocks := [Block("entry", [], false)];
      assert vars[..0] == [] && scopeBase[..0] == [];
      PushScope();
    }

    method EmitInstrIfOpen(i: Instr)
      requires Valid()
      modifies `blocks
      ensures Valid() && (old(Open(State())) ==> State() == Emit(old(State()), [i]))
    {
      var closed := LastIsTerm();
      if !closed { EmitInstr(i); }
    }

    lemma FallOffDef(cx: Ctx)
      ensures FallOff(cx) == if cx.ret.None? then RetVoid else Ret(cx.ret.value, Lit(0))
    {
    }

    lemma EmitKeepsLoop(g: Gen, code: seq<Instr>)
      requires |g.blocks| > 0
      ensures
        var r := Emit(g, code);
        r.tmp == g.tmp && r.vars == g.vars && r.bases == g.bases && r.brk == g.brk && r.cont == g.cont
    {
    }

    lemma EndFunction(g: Gen)
      requires Valid() && State() == ScopePop(g) && g.bases == [0] && g.brk.None? && g.cont.None?
      ensures Idle() && tmp == g.tmp
    {
    }

    /** Building a function keeps the loop labels and only counts temps up. */
    lemma FnGrows(cx: Ctx, g: Gen, p: Gen, ps: seq<Param>, body: Stmts)
      requires |g.blocks| > 0 && p == EmitParams(g, ps) && Open(g)
      ensures
        var r := EmitScope(cx, p, body);
        r.brk == g.brk && r.cont == g.cont && r.tmp >= g.tmp && r.bases == g.bases
    {
      hide *;
      ParamsKeep(g, ps);
      ScopeGrows(cx, p, body);
      GrowsParts(p, EmitScope(cx, p, body));
    }

    lemma GrowsParts(g: Gen, r: Gen)
      requires Grows(g, r)
      ensures r.brk == g.brk && r.cont == g.cont && r.tmp >= g.tmp && r.bases == g.bases
    {
      hide Within;
    }

    lemma {:induction false} ParamsKeep(g: Gen, ps: seq<Param>)
      requires |g.blocks| > 0 && Open(g)
      ensures
        var r := EmitParams(g, ps);
        r.brk == g.brk && r.cont == g.cont && r.tmp == g.tmp && r.bases == g.bases && Open(r)
      decreases |ps|
    {
      if ps != [] {
        hide SlotName, ArgName, VarDef;
        ParamsKeep(g, ps[..|ps| - 1]);
      }
    }

    method Parameters(ps: seq<Param>)
      requires Valid()
      modifies `blocks, `nvars, vars
      ensures Valid() && State() == EmitParams(old(State()), ps)
    {
      hide *;
      ghost var g := State();
      ParamsNone(g);
      assert ps[..0] == [];
      var i := 0;
      while i < |ps|
        invariant 0 <= i <= |ps| && Valid() && State() == EmitParams(g, ps[..i])
      {
        var slot := SlotName(ps[i].name);
        ParamStep(g, ps, i);
        EmitInstr(Alloca(slot, ps[i].ty));
        EmitInstr(Fir.Store(slot, ps[i].ty, Reg(ArgName(ps[i].name))));
        EmitTwice(EmitParams(g, ps[..i]), [Alloca(slot, ps[i].ty)],
            [Fir.Store(slot, ps[i].ty, Reg(ArgName(ps[i].name)))]);
        EmitKeeps(EmitParams(g, ps[..i]),
            [Alloca(slot, ps[i].ty)] + [Fir.Store(slot, ps[i].ty, Reg(ArgName(ps[i].name)))]);
        DefVar(ps[i].name, ps[i].ty, slot);
        i := i + 1;
      }
      assert ps[..|ps|] == ps;
    }

    lemma ParamStep(g: Gen, ps: seq<Param>, i: nat)
      requires |g.blocks| > 0 && i < |ps|
      ensures
        var q, h := ps[i], EmitParams(g, ps[..i]);
        EmitParams(g, ps[..i + 1])
        == Emit(h, [Alloca(SlotName(q.name), q.ty)] + [Fir.Store(SlotName(q.name), q.ty, Reg(ArgName(q.name)))])
             .(vars := Enter(h.vars, VarEntry(q.name, q.ty, SlotName(q.name))))
    {
      hide Emit, SlotName, ArgName, Enter;
      assert ps[..i + 1][..i] == ps[..i] && ps[..i + 1][i] == ps[i];
      assert [Alloca(SlotName(ps[i].name), ps[i].ty)]
          + [Fir.Store(SlotName(ps[i].name), ps[i].ty, Reg(ArgName(ps[i].name)))]
          == [Alloca(SlotName(ps[i].name), ps[i].ty),
              Fir.Store(SlotName(ps[i].name), ps[i].ty, Reg(ArgName(ps[i].name)))];
    }
  }
}
