/** The source statements the lowering covers, and what they mean.

    The meaning is given directly on an environment: a list of bindings, innermost last, so that a
    block's declarations disappear when it ends and an inner declaration hides an outer one. Loops are
    run with fuel; a run that needs more reports OutOfFuel. A step the language gives no meaning
    (an undeclared name, a zero divisor, a condition that is not a bool) is Wrong. */
module Source {
  import opened Words
  import opened Fir

  // ----- syntax -----

  datatype Operator = Arith(op: BinOp) | Cmp(pred: Pred)
  datatype Prefix = LogicalNot | Minus | Complement

  datatype Expr =
    | IntLit(n: long)
    | LongLit(n: long)
    | CharLit(c: long)
    | BoolLit(b: bool)
    | Var(x: string)
    | Unary(prefix: Prefix, e: Expr)
    | Binary(op: Operator, l: Expr, r: Expr)
    | CallFn(fn: string, args: Exprs)

  datatype Exprs = NoExprs | MoreExprs(head: Expr, tail: Exprs)

  /** An expression run for its effect. */
  datatype Effect =
    | Assign(x: string, e: Expr)
    | Compound(op: BinOp, x: string, e: Expr)
    | Increment(x: string)
    | Decrement(x: string)
    | Eval(e: Expr)

  datatype Stmt =
    | Decl(x: string, ty: Option<IntTy>, init: Option<Expr>, mut: bool)
    | Do(eff: Effect)
    | Return(val: Option<Expr>)
    | If(cond: Expr, thn: Stmts, els: Option<Stmt>)
    | While(cond: Expr, body: Stmts)
    | DoWhile(body: Stmts, cond: Expr)
    | ForC(first: Option<Stmt>, test: Option<Expr>, step: Option<Effect>, body: Stmts)
    | Match(e: Expr, arms: Arms)
    | Break
    | Continue
    | Scope(body: Stmts)

  datatype Stmts = NoStmts | MoreStmts(head: Stmt, tail: Stmts)

  datatype Pattern = Literal(n: long) | Range(lo: long, hi: long) | Wildcard

  datatype Arms = NoArms | MoreArms(pat: Pattern, body: Stmt, rest: Arms)

  // ----- context -----

  datatype Sig = Sig(params: seq<IntTy>, ret: IntTy)

  /** What a function body is compiled against: compile-time constants, known signatures, and the
      type the function returns (None for a unit). */
  datatype Ctx = Ctx(comptime: seq<(string, long)>, sigs: map<string, Sig>, ret: Option<IntTy>)

  function ConstFrom(cs: seq<(string, long)>, x: string): Option<long> {
    if cs == [] then None
    else if cs[0].0 == x then Some(cs[0].1)
    else ConstFrom(cs[1..], x)
  }

  /** The first entry of that name decides; there is none if and only if no entry has the name. */
  lemma {:induction false} ConstFirst(cs: seq<(string, long)>, x: string)
    ensures forall k ::
      0 <= k < |cs| && cs[k].0 == x && (forall j :: 0 <= j < k ==> cs[j].0 != x) ==> ConstFrom(cs, x) == Some(cs[k].1)
    ensures ConstFrom(cs, x) == None <==> forall k :: 0 <= k < |cs| ==> cs[k].0 != x
  {
    if cs != [] {
      ConstFirst(cs[1..], x);
      assert forall k :: 0 <= k < |cs| - 1 ==> cs[1..][k] == cs[k + 1];
      forall k | 0 <= k < |cs| && cs[k].0 == x && forall j :: 0 <= j < k ==> cs[j].0 != x
        ensures ConstFrom(cs, x) == Some(cs[k].1)
      {
        if k > 0 { assert cs[1..][k - 1] == cs[k] && cs[0].0 != x; }
      }
      if forall k :: 0 <= k < |cs[1..]| ==> cs[1..][k].0 != x {
        assert forall k :: 0 < k < |cs| ==> cs[k] == cs[1..][k - 1];
      }
    }
  }

  /** An unknown function is taken to return int. */
  function SigOf(cx: Ctx, fn: string): Sig {
    if fn in cx.sigs then cx.sigs[fn] else Sig([], I32)
  }

  // ----- values -----

  datatype Binding = Binding(name: string, ty: IntTy, v: int)

  type Env = seq<Binding>

  /** The innermost binding of `x`. */
  function Lookup(env: Env, x: string): (r: Option<nat>)
    ensures r.Some? ==> r.value < |env| && env[r.value].name == x
    ensures r.Some? ==> forall j :: r.value < j < |env| ==> env[j].name != x
    ensures r.None? ==> forall j :: 0 <= j < |env| ==> env[j].name != x
  {
    if env == [] then None
    else if env[|env| - 1].name == x then Some(|env| - 1)
    else Lookup(env[..|env| - 1], x)
  }

  /** The type two operands are brought to. */
  function CommonType(a: Ty, b: Ty): (t: Ty)
    ensures t == Ptr ==> a == Ptr || b == Ptr
  {
    if a == I64 || b == I64 then I64
    else if a == Ptr || b == Ptr then Ptr
    else if a == I8 && b == I8 then I8
    else if a == I16 || b == I16 then I16
    else I32
  }

  /** Arithmetic yields a long or an int, whatever width it was done at. */
  function ArithType(t: Ty): IntTy {
    if t == I64 then I64 else I32
  }

  datatype EvalResult = Val(ty: IntTy, v: int, trace: seq<Event>) | Failed

  datatype ArgsResult = Values(vals: seq<(IntTy, int)>, trace: seq<Event>) | ArgsFailed

  function EvalPrefix(p: Prefix, t: IntTy, v: int, tr: seq<Event>): EvalResult {
    match p
    case LogicalNot => if t == I1 then Val(I1, Truth(v == 0), tr) else Failed
    case Minus => Val(t, Wrap(t, -v), tr)
    case Complement => Val(t, Wrap(t, -v - 1), tr)
  }

  function EvalOperator(op: Operator, t: Ty, x: int, y: int, tr: seq<Event>): EvalResult {
    match op
    case Arith(a) =>
      var r := Compute(a, t, x, y);
      if r.Some? then Val(ArithType(t), r.value, tr) else Failed
    case Cmp(p) => Val(I1, Truth(Compare(p, t, x, y)), tr)
  }

  /** Arguments are brought to the declared parameter types, as far as there are any. */
  function PassArgs(vals: seq<(IntTy, int)>, params: seq<IntTy>): (r: seq<int>)
    ensures |r| == |vals|
  {
    if vals == [] then []
    else
      var v := if params == [] then vals[0].1 else Wrap(params[0], vals[0].1);
      [v] + PassArgs(vals[1..], if params == [] then [] else params[1..])
  }

  function EvalExpr(cx: Ctx, w: World, e: Expr, env: Env, tr: seq<Event>): EvalResult
    decreases e
  {
    match e
    case IntLit(n) => Val(I32, Wrap(I32, n), tr)
    case LongLit(n) => Val(I64, n, tr)
    case CharLit(c) => Val(I8, Wrap(I8, c), tr)
    case BoolLit(b) => Val(I1, Truth(b), tr)
    case Var(x) =>
      var k := Lookup(env, x);
      if k.Some? then Val(env[k.value].ty, env[k.value].v, tr)
      else
        var c := ConstFrom(cx.comptime, x);
        if c.Some? then Val(I64, c.value, tr) else Failed
    case Unary(p, e1) =>
      var r := EvalExpr(cx, w, e1, env, tr);
      if r.Failed? then Failed else EvalPrefix(p, r.ty, r.v, r.trace)
    case Binary(op, e1, e2) =>
      var a := EvalExpr(cx, w, e1, env, tr);
      if a.Failed? then Failed
      else
        var b := EvalExpr(cx, w, e2, env, a.trace);
        if b.Failed? then Failed
        else
          var t := CommonType(a.ty, b.ty);
          EvalOperator(op, t, Wrap(t, a.v), Wrap(t, b.v), b.trace)
    case CallFn(fn, args) =>
      var r := EvalArgs(cx, w, args, env, tr);
      if r.ArgsFailed? then Failed
      else
        var sig := SigOf(cx, fn);
        var vs := PassArgs(r.vals, sig.params);
        Val(sig.ret, Wrap(sig.ret, w(r.trace, fn, vs)), r.trace + [Event(fn, vs)])
  }

  function EvalArgs(cx: Ctx, w: World, args: Exprs, env: Env, tr: seq<Event>): ArgsResult
    decreases args
  {
    match args
    case NoExprs => Values([], tr)
    case MoreExprs(e, rest) =>
      var a := EvalExpr(cx, w, e, env, tr);
      if a.Failed? then ArgsFailed
      else
        var r := EvalArgs(cx, w, rest, env, a.trace);
        if r.ArgsFailed? then ArgsFailed else Values([(a.ty, a.v)] + r.vals, r.trace)
  }

  // ----- statements -----

  datatype Outcome =
    | Normal(env: Env, trace: seq<Event>)
    | Broke(env: Env, trace: seq<Event>)
    | Continued(env: Env, trace: seq<Event>)
    | Returned(val: Option<int>, trace: seq<Event>)
    | OutOfFuel
    | Wrong

  function SetVar(env: Env, k: nat, v: int): Env
    requires k < |env|
  {
    env[k := env[k].(v := Wrap(env[k].ty, v))]
  }

  function ExecEffect(cx: Ctx, w: World, eff: Effect, env: Env, tr: seq<Event>): Outcome {
    match eff
    case Assign(x, e) =>
      var r := EvalExpr(cx, w, e, env, tr);
      var k := Lookup(env, x);
      if r.Failed? || k.None? then Wrong else Normal(SetVar(env, k.value, r.v), r.trace)
    case Compound(op, x, e) =>
      var r := EvalExpr(cx, w, e, env, tr);
      var k := Lookup(env, x);
      if r.Failed? || k.None? then Wrong
      else
        var b := env[k.value];
        var c := Compute(op, b.ty, b.v, Wrap(b.ty, r.v));
        if c.None? then Wrong else Normal(SetVar(env, k.value, c.value), r.trace)
    case Increment(x) =>
      var k := Lookup(env, x);
      if k.None? then Wrong else Normal(SetVar(env, k.value, env[k.value].v + 1), tr)
    case Decrement(x) =>
      var k := Lookup(env, x);
      if k.None? then Wrong else Normal(SetVar(env, k.value, env[k.value].v - 1), tr)
    case Eval(e) =>
      var r := EvalExpr(cx, w, e, env, tr);
      if r.Failed? then Wrong else Normal(env, r.trace)
  }

  function ExecDecl(cx: Ctx, w: World, x: string, ty: Option<IntTy>, init: Option<Expr>, env: Env,
                    tr: seq<Event>): Outcome {
    if init.None? then
      Normal(env + [Binding(x, if ty.Some? then ty.value else I32, 0)], tr)
    else
      var r := EvalExpr(cx, w, init.value, env, tr);
      if r.Failed? then Wrong
      else
        var t := if ty.Some? then ty.value else r.ty;
        Normal(env + [Binding(x, t, Wrap(t, r.v))], r.trace)
  }

  /** Leaving a scope drops the bindings made since it was entered with `n` of them. */
  function Leave(o: Outcome, n: nat): Outcome {
    if (o.Normal? || o.Broke? || o.Continued?) && |o.env| >= n then o.(env := o.env[..n]) else o
  }

  /** Only a bool can be tested. */
  function Test(cx: Ctx, w: World, c: Expr, env: Env, tr: seq<Event>): EvalResult {
    var r := EvalExpr(cx, w, c, env, tr);
    if r.Failed? || r.ty != I1 then Failed else r
  }

  predicate Matches(p: Pattern, t: Ty, v: int) {
    match p
    case Literal(n) => v == Wrap(t, n)
    case Range(lo, hi) => Wrap(t, lo) <= v <= Wrap(t, hi)
    case Wildcard => true
  }

  function Exec(cx: Ctx, w: World, s: Stmt, env: Env, tr: seq<Event>, fuel: nat): Outcome
    decreases fuel, s, 0
  {
    match s
    case Decl(x, ty, init, _) => ExecDecl(cx, w, x, ty, init, env, tr)
    case Do(eff) => ExecEffect(cx, w, eff, env, tr)
    case Return(val) =>
      if val.None? || cx.ret.None? then Returned(None, tr)
      else
        var r := EvalExpr(cx, w, val.value, env, tr);
        if r.Failed? then Wrong else Returned(Some(Wrap(cx.ret.value, r.v)), r.trace)
    case If(c, thn, els) =>
      var r := Test(cx, w, c, env, tr);
      if r.Failed? then Wrong
      else if r.v != 0 then ExecScope(cx, w, thn, env, r.trace, fuel)
      else if els.None? then Normal(env, r.trace)
      else Leave(Exec(cx, w, els.value, env, r.trace, fuel), |env|)
    case While(c, body) => ExecWhile(cx, w, c, body, env, tr, fuel)
    case DoWhile(body, c) => ExecDoWhile(cx, w, body, c, env, tr, fuel)
    case ForC(first, test, step, body) =>
      var o := if first.None? then Normal(env, tr) else Exec(cx, w, first.value, env, tr, fuel);
      if o.Normal? then Leave(ExecFor(cx, w, test, step, body, o.env, o.trace, fuel), |env|)
      else Leave(o, |env|)
    case Match(e, arms) =>
      var r := EvalExpr(cx, w, e, env, tr);
      if r.Failed? then Wrong else ExecArms(cx, w, arms, r.ty, r.v, env, r.trace, fuel)
    case Break => Broke(env, tr)
    case Continue => Continued(env, tr)
    case Scope(body) => ExecScope(cx, w, body, env, tr, fuel)
  }

  function ExecStmts(cx: Ctx, w: World, ss: Stmts, env: Env, tr: seq<Event>, fuel: nat): Outcome
    decreases fuel, ss, 0
  {
    match ss
    case NoStmts => Normal(env, tr)
    case MoreStmts(s, rest) =>
      var o := Exec(cx, w, s, env, tr, fuel);
      if o.Normal? then ExecStmts(cx, w, rest, o.env, o.trace, fuel) else o
  }

  function ExecScope(cx: Ctx, w: World, ss: Stmts, env: Env, tr: seq<Event>, fuel: nat): Outcome
    decreases fuel, ss, 1
  {
    Leave(ExecStmts(cx, w, ss, env, tr, fuel), |env|)
  }

  function ExecWhile(cx: Ctx, w: World, c: Expr, body: Stmts, env: Env, tr: seq<Event>, fuel: nat): Outcome
    decreases fuel, body, 2
  {
    if fuel == 0 then OutOfFuel
    else
      var r := Test(cx, w, c, env, tr);
      if r.Failed? then Wrong
      else if r.v == 0 then Normal(env, r.trace)
      else
        var o := ExecScope(cx, w, body, env, r.trace, fuel - 1);
        if o.Normal? || o.Continued? then ExecWhile(cx, w, c, body, o.env, o.trace, fuel - 1)
        else if o.Broke? then Normal(o.env, o.trace)
        else o
  }

  function ExecDoWhile(cx: Ctx, w: World, body: Stmts, c: Expr, env: Env, tr: seq<Event>, fuel: nat): Outcome
    decreases fuel, body, 2
  {
    if fuel == 0 then OutOfFuel
    else
      var o := ExecScope(cx, w, body, env, tr, fuel - 1);
      if o.Normal? || o.Continued? then
        var r := Test(cx, w, c, o.env, o.trace);
        if r.Failed? then Wrong
        else if r.v == 0 then Normal(o.env, r.trace)
        else ExecDoWhile(cx, w, body, c, o.env, r.trace, fuel - 1)
      else if o.Broke? then Normal(o.env, o.trace)
      else o
  }

  function ExecFor(cx: Ctx, w: World, test: Option<Expr>, step: Option<Effect>, body: Stmts,
                   env: Env, tr: seq<Event>, fuel: nat): Outcome
    decreases fuel, body, 2
  {
    if fuel == 0 then OutOfFuel
    else
      var r := if test.None? then Val(I1, Truth(true), tr) else Test(cx, w, test.value, env, tr);
      if r.Failed? then Wrong
      else if r.v == 0 then Normal(env, r.trace)
      else
        var o := ExecScope(cx, w, body, env, r.trace, fuel - 1);
        if o.Normal? || o.Continued? then
          var n := if step.None? then Normal(o.env, o.trace) else ExecEffect(cx, w, step.value, o.env, o.trace);
          if n.Normal? then ExecFor(cx, w, test, step, body, n.env, n.trace, fuel - 1) else n
        else if o.Broke? then Normal(o.env, o.trace)
        else o
  }

  /** The first arm that matches is run. */
  function ExecArms(cx: Ctx, w: World, arms: Arms, t: Ty, v: int, env: Env, tr: seq<Event>, fuel: nat): Outcome
    decreases fuel, arms, 0
  {
    match arms
    case NoArms => Normal(env, tr)
    case MoreArms(p, body, rest) =>
      if Matches(p, t, v) then Leave(Exec(cx, w, body, env, tr, fuel), |env|)
      else ExecArms(cx, w, rest, t, v, env, tr, fuel)
  }
}
