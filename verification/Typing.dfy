/** Static types against the types that the generator reads back. It keeps a node's type under a name, and
    the names of the short type, and of the byte and short types of a call's result, read back as a pointer.
    A value so lost may be stored, passed or returned at its own type and nothing else: exactly then the
    generator does what the static types ask. */
module Typing {
  import opened Words
  import opened Fir
  import opened Source
  import opened Lower

  // ----- types -----

  /** The static type of an expression. */
  function TypeOf(cx: Ctx, vars: seq<VarEntry>, e: Expr): Ty {
    match e
    case IntLit(_) => I32
    case LongLit(_) => I64
    case CharLit(_) => I8
    case BoolLit(_) => I1
    case Var(x) =>
      var k := VarLookup(vars, x);
      if ConstFrom(cx.comptime, x).Some? then I64 else if k.Some? then vars[k.value].ty else I32
    case Unary(p, e1) => if p.LogicalNot? then I1 else TypeOf(cx, vars, e1)
    case Binary(op, l, r) => if op.Cmp? then I1 else ArithType(CommonType(TypeOf(cx, vars, l), TypeOf(cx, vars, r)))
    case CallFn(fn, _) => SigOf(cx, fn).ret
  }

  /** The type that is read back. */
  function ReadBack(cx: Ctx, vars: seq<VarEntry>, e: Expr): Ty {
    match e
    case Var(x) =>
      var k := VarLookup(vars, x);
      if ConstFrom(cx.comptime, x).Some? then I64
      else if k.Some? then VarRead(vars[k.value].ty)
      else if x in cx.sigs then Ptr
      else I32
    case Unary(p, e1) => if p.LogicalNot? then I1 else ReadBack(cx, vars, e1)
    case Binary(op, l, r) =>
      var t := ReadBack(cx, vars, l);
      if PointerStep(op, t) then Ptr
      else if op.Cmp? then I1
      else ArithType(CommonType(t, ReadBack(cx, vars, r)))
    case CallFn(fn, _) => CallRead(SigOf(cx, fn).ret)
    case _ => TypeOf(cx, vars, e)
  }

  lemma {:induction false} ReadBackCode(cx: Ctx, vars: seq<VarEntry>, e: Expr, tmp: nat)
    ensures EmitExpr(cx, vars, e, tmp).ty == ReadBack(cx, vars, e)
    decreases e
  {
    hide TempName, CoerceArgs;
    match e
    case Unary(_, e1) => ReadBackCode(cx, vars, e1, tmp);
    case Binary(op, l, r) =>
      ReadBackCode(cx, vars, l, tmp);
      ReadBackCode(cx, vars, r, EmitExpr(cx, vars, l, tmp).tmp);
    case _ =>
  }

  /** The type of what is assigned to. */
  function TargetType(cx: Ctx, vars: seq<VarEntry>, x: string): Ty {
    var k := VarLookup(vars, x);
    if k.Some? then vars[k.value].ty else TypeOf(cx, vars, Var(x))
  }

  /** What a statement enters in the table. */
  function VarsAfter(cx: Ctx, vars: seq<VarEntry>, s: Stmt): seq<VarEntry> {
    if !s.Decl? || Discarded(s.x, s.ty, s.init) then vars
    else
      var t := if s.ty.Some? then s.ty.value else if s.init.None? then I32 else TypeOf(cx, vars, s.init.value);
      VarDef(vars, s.x, t)
  }

  function FirstVars(cx: Ctx, vars: seq<VarEntry>, first: Option<Stmt>): seq<VarEntry> {
    if first.Some? then VarsAfter(cx, vars, first.value) else vars
  }

  // ----- where the type read back is not the static one -----

  predicate Lost(cx: Ctx, vars: seq<VarEntry>, e: Expr) {
    match e
    case Var(x) =>
      var k := VarLookup(vars, x);
      ConstFrom(cx.comptime, x).None? && if k.Some? then vars[k.value].ty == I16 else x in cx.sigs
    case CallFn(fn, _) => SigOf(cx, fn).ret == I8 || SigOf(cx, fn).ret == I16
    case _ => false
  }

  /** No operator inside is given a lost value, and no call one that its parameter is not declared with. */
  predicate Kept(cx: Ctx, vars: seq<VarEntry>, e: Expr)
    decreases e, 0
  {
    match e
    case Unary(p, e1) => Kept(cx, vars, e1) && (p.LogicalNot? || !Lost(cx, vars, e1))
    case Binary(_, l, r) => Typed(cx, vars, l) && Typed(cx, vars, r)
    case CallFn(fn, args) => KeptArgs(cx, vars, args, SigOf(cx, fn).params)
    case _ => true
  }

  /** An expression whose type is asked for. */
  predicate Typed(cx: Ctx, vars: seq<VarEntry>, e: Expr)
    decreases e, 1
  {
    Kept(cx, vars, e) && !Lost(cx, vars, e)
  }

  /** An expression brought to a known type. */
  predicate Suits(cx: Ctx, vars: seq<VarEntry>, e: Expr, t: Ty)
    decreases e, 1
  {
    Kept(cx, vars, e) && (Lost(cx, vars, e) ==> TypeOf(cx, vars, e) == t)
  }

  predicate KeptArgs(cx: Ctx, vars: seq<VarEntry>, args: Exprs, params: seq<IntTy>)
    decreases args
  {
    match args
    case NoExprs => true
    case MoreExprs(e, rest) =>
      && (if params == [] then Typed(cx, vars, e) else Suits(cx, vars, e, params[0]))
      && KeptArgs(cx, vars, rest, if params == [] then [] else params[1..])
  }

  predicate KeptEffect(cx: Ctx, vars: seq<VarEntry>, eff: Effect) {
    match eff
    case Assign(x, e) =>
      if VarLookup(vars, x).Some? then Suits(cx, vars, e, TargetType(cx, vars, x)) else Kept(cx, vars, e)
    case Compound(_, x, e) =>
      && (VarLookup(vars, x).None? ==> Typed(cx, vars, Var(x)))
      && Suits(cx, vars, e, TargetType(cx, vars, x))
    case Increment(x) => Typed(cx, vars, Var(x))
    case Decrement(x) => Typed(cx, vars, Var(x))
    case Eval(e) => Kept(cx, vars, e)
  }

  predicate KeptStmt(cx: Ctx, vars: seq<VarEntry>, s: Stmt)
    decreases s, 0
  {
    match s
    case Decl(_, ty, init, _) =>
      init.Some? ==> if ty.Some? then Suits(cx, vars, init.value, ty.value) else Typed(cx, vars, init.value)
    case Do(eff) => KeptEffect(cx, vars, eff)
    case Return(val) => val.Some? && cx.ret.Some? ==> Suits(cx, vars, val.value, cx.ret.value)
    case If(c, thn, els) => Typed(cx, vars, c) && KeptAll(cx, vars, thn)
        && (els.Some? ==> KeptStmt(cx, vars, els.value))
    case While(c, body) => Typed(cx, vars, c) && KeptAll(cx, vars, body)
    case DoWhile(body, c) => Typed(cx, vars, c) && KeptAll(cx, vars, body)
    case ForC(first, test, step, body) =>
      var v := FirstVars(cx, vars, first);
      && (first.Some? ==> KeptStmt(cx, vars, first.value)) && (test.Some? ==> Typed(cx, v, test.value))
      && (step.Some? ==> KeptEffect(cx, v, step.value)) && KeptAll(cx, v, body)
    case Match(e, arms) => Typed(cx, vars, e) && KeptArms(cx, vars, arms)
    case Scope(body) => KeptAll(cx, vars, body)
    case _ => true
  }

  predicate KeptAll(cx: Ctx, vars: seq<VarEntry>, ss: Stmts)
    decreases ss, 0
  {
    match ss
    case NoStmts => true
    case MoreStmts(s, rest) => KeptStmt(cx, vars, s) && KeptAll(cx, VarsAfter(cx, vars, s), rest)
  }

  predicate KeptArms(cx: Ctx, vars: seq<VarEntry>, arms: Arms)
    decreases arms, 0
  {
    match arms
    case NoArms => true
    case MoreArms(_, body, rest) => KeptStmt(cx, vars, body) && KeptArms(cx, vars, rest)
  }

  // ----- what has code of its own -----

  /** Callees that get code of their own, or whose result type is fixed. */
  const RESERVED: set<string> := {
    "Ok", "Err", "alloc", "realloc", "fe_alloc", "fe_realloc", "fe_region_alloc", "malloc", "calloc", "fe_input",
    "fe_concat", "fe_to_upper", "fe_to_lower", "fe_trim", "fe_slice", "fe_replace", "fe_int_to_str",
    "fe_float_to_str", "fe_getcwd", "fe_read_file", "fe_str_split", "fe_split", "memcpy", "memmove", "memset",
    "strcpy", "strcat", "strstr", "getenv", "fgets", "fopen", "fe_time", "fe_sleep", "fe_flush", "free", "exit"
  }

  function Length(es: Exprs): nat {
    match es
    case NoExprs => 0
    case MoreExprs(_, rest) => 1 + Length(rest)
  }

  predicate Plain(e: Expr) {
    match e
    case Unary(_, e1) => Plain(e1)
    case Binary(_, l, r) => Plain(l) && Plain(r)
    case CallFn(fn, args) => fn !in RESERVED && Length(args) <= MAX_ARGS && PlainArgs(args)
    case _ => true
  }

  predicate PlainArgs(es: Exprs) {
    match es
    case NoExprs => true
    case MoreExprs(e, rest) => Plain(e) && PlainArgs(rest)
  }

  predicate PlainEffect(eff: Effect) {
    eff.Assign? || eff.Compound? || eff.Eval? ==> Plain(eff.e)
  }

  predicate PlainTest(e: Option<Expr>) { e.Some? ==> Plain(e.value) }

  /** No such callee, no call with more arguments than there is room for, no discarded declaration. */
  predicate PlainStmt(s: Stmt)
    decreases s, 0
  {
    match s
    case Decl(x, _, init, _) => x != DISCARD && PlainTest(init)
    case Do(eff) => PlainEffect(eff)
    case Return(val) => PlainTest(val)
    case If(c, thn, els) => Plain(c) && PlainAll(thn) && (els.Some? ==> PlainStmt(els.value))
    case While(c, body) => Plain(c) && PlainAll(body)
    case DoWhile(body, c) => Plain(c) && PlainAll(body)
    case ForC(first, test, step, body) =>
      && (first.Some? ==> PlainStmt(first.value)) && PlainTest(test) && (step.Some? ==> PlainEffect(step.value))
      && PlainAll(body)
    case Match(e, arms) => Plain(e) && PlainArms(arms)
    case Scope(body) => PlainAll(body)
    case _ => true
  }

  predicate PlainAll(ss: Stmts)
    decreases ss, 0
  {
    match ss
    case NoStmts => true
    case MoreStmts(s, rest) => PlainStmt(s) && PlainAll(rest)
  }

  predicate PlainArms(arms: Arms)
    decreases arms, 0
  {
    match arms
    case NoArms => true
    case MoreArms(_, body, rest) => PlainStmt(body) && PlainArms(rest)
  }

  // ----- a typed expression reads back as its type -----

  /** Every variable has an integer type. */
  predicate Integers(vars: seq<VarEntry>) {
    forall i :: 0 <= i < |vars| ==> vars[i].ty != Ptr
  }

  lemma {:induction false} StaticInt(cx: Ctx, vars: seq<VarEntry>, e: Expr)
    requires Integers(vars)
    ensures TypeOf(cx, vars, e) != Ptr
    decreases e
  {
    match e
    case Unary(_, e1) => StaticInt(cx, vars, e1);
    case _ =>
  }

  /** What is read back is the static type, unless that is lost. */
  lemma {:induction false} KeptRead(cx: Ctx, vars: seq<VarEntry>, e: Expr)
    requires Integers(vars) && Kept(cx, vars, e)
    ensures ReadBack(cx, vars, e) == if Lost(cx, vars, e) then Ptr else TypeOf(cx, vars, e)
    decreases e
  {
    match e
    case Unary(_, e1) => KeptRead(cx, vars, e1);
    case Binary(_, l, r) =>
      KeptRead(cx, vars, l);
      KeptRead(cx, vars, r);
      StaticInt(cx, vars, l);
    case _ =>
  }
}
