/** How statements become blocks: the code generator's building steps as functions of the builder's
    state. */
module Lower {
  import opened Words
  import opened Decimal
  import opened Fir
  import opened Source

  const MAX_VARS := 256

  datatype VarEntry = VarEntry(name: string, ty: Ty, slot: string)

  /** The builder: the function's blocks (the last one is current), the two counters, the flat table of
      variables with the marks where scopes began, and where break and continue lead. */
  datatype Gen = Gen(blocks: seq<Block>, tmp: nat, lbl: nat, vars: seq<VarEntry>, bases: seq<nat>,
                     brk: Option<string>, cont: Option<string>)

  // ----- blocks -----

  /** `g` is a beginning of `f`: the same blocks under the same names, each grown at its end. */
  predicate Within(g: seq<Block>, f: seq<Block>) {
    |g| <= |f| &&
    forall i :: 0 <= i < |g| ==> f[i].name == g[i].name && f[i].dead == g[i].dead && g[i].instrs <= f[i].instrs
  }

  /** What a building step leaves as it was. */
  predicate Continues(g: Gen, r: Gen) {
    && Within(g.blocks, r.blocks)
    && g.lbl <= r.lbl && g.tmp <= r.tmp
    && r.bases == g.bases && r.brk == g.brk && r.cont == g.cont
  }

  function Last(g: Gen): seq<Instr>
    requires |g.blocks| > 0
  {
    g.blocks[|g.blocks| - 1].instrs
  }

  /** The current block does not end in a terminator. */
  predicate Open(g: Gen)
    requires |g.blocks| > 0
  {
    |Last(g)| > 0 ==> !IsTerm(Last(g)[|Last(g)| - 1])
  }

  function Emit(g: Gen, code: seq<Instr>): (r: Gen)
    requires |g.blocks| > 0
    ensures |r.blocks| == |g.blocks|
  {
    var n := |g.blocks| - 1;
    g.(blocks := g.blocks[n := g.blocks[n].(instrs := g.blocks[n].instrs + code)])
  }

  function Place(g: Gen, l: string): (r: Gen)
    ensures |r.blocks| == |g.blocks| + 1
  {
    g.(blocks := g.blocks + [Block(l, [], false)])
  }

  /** A jump, unless the current block already ends in one. */
  function BrTo(g: Gen, l: string): (r: Gen)
    requires |g.blocks| > 0
    ensures |r.blocks| == |g.blocks|
  {
    if Open(g) then Emit(g, [Br(l)]) else g
  }

  /** What a label marks. */
  datatype Kind =
    | IfT | IfF | IfM | Wh | Wb | We | Dw | Dwh | Dwe | Fh | Fb | Fs | Fe | Mend | Marm | Mcnext
    | Dead | Brkd | Cntd

  function Text(k: Kind): (p: string)
    ensures EndsBeforeDigits(p)
  {
    match k
    case IfT => "if_t"
    case IfF => "if_f"
    case IfM => "if_m"
    case Wh => "wh"
    case Wb => "wb"
    case We => "we"
    case Dw => "dw"
    case Dwh => "dwh"
    case Dwe => "dwe"
    case Fh => "fh"
    case Fb => "fb"
    case Fs => "fs"
    case Fe => "fe"
    case Mend => "mend"
    case Marm => "marm"
    case Mcnext => "mcnext"
    case Dead => "dead"
    case Brkd => "brkd"
    case Cntd => "cntd"
  }

  /** A label's text carries the counter it was made with. */
  function Label(k: Kind, n: nat): (s: string)
    ensures Num(s) == n
  {
    Name(Text(k), n)
  }

  function TempName(n: nat): (s: string)
    ensures Num(s) == n && |s| > 0 && s[0] == 't'
  {
    Name("t", n)
  }

  // ----- variables -----

  const SLOT_MAX := 127

  /** The slot's name is printed into a buffer, which cuts it off. */
  function SlotName(x: string): string {
    var s := "var." + x;
    if |s| <= SLOT_MAX then s else s[..SLOT_MAX]
  }

  /** A full table drops what is entered. */
  function Enter(vars: seq<VarEntry>, e: VarEntry): seq<VarEntry> {
    if |vars| < MAX_VARS then vars + [e] else vars
  }

  function VarDef(vars: seq<VarEntry>, x: string, t: Ty): seq<VarEntry> {
    Enter(vars, VarEntry(x, t, SlotName(x)))
  }

  const DISCARD := "_"

  /** A discarded value gets a slot numbered like a temp. */
  function DeclSlot(x: string, tmp: nat): string {
    if x == DISCARD then "var._." + Dec(tmp) else SlotName(x)
  }

  function DeclTmp(x: string, tmp: nat): (r: nat)
    ensures r >= tmp
  {
    if x == DISCARD then tmp + 1 else tmp
  }

  /** The most recent entry for `x`. */
  function VarLookup(vars: seq<VarEntry>, x: string): (r: Option<nat>)
    ensures r.Some? ==> r.value < |vars| && vars[r.value].name == x
    ensures r.Some? ==> forall j :: r.value < j < |vars| ==> vars[j].name != x
    ensures r.None? ==> forall j :: 0 <= j < |vars| ==> vars[j].name != x
  {
    if vars == [] then None
    else if vars[|vars| - 1].name == x then Some(|vars| - 1)
    else VarLookup(vars[..|vars| - 1], x)
  }

  function ScopePush(g: Gen): Gen {
    g.(bases := g.bases + [|g.vars|])
  }

  function ScopePop(g: Gen): Gen {
    if g.bases == [] then g
    else
      var n := g.bases[|g.bases| - 1];
      g.(vars := if n <= |g.vars| then g.vars[..n] else g.vars, bases := g.bases[..|g.bases| - 1])
  }

  // ----- expressions: straight-line code -----

  /** Code, the operand that holds its result, the operand's type, and the next temp. */
  datatype Code = Code(instrs: seq<Instr>, op: Operand, ty: Ty, tmp: nat)

  /** Between an integer and a pointer type nothing is converted, but a temp is used up. */
  function Coerce(x: Operand, from: Ty, to: Ty, tmp: nat): (c: Code)
    ensures c.ty == to && c.tmp >= tmp
  {
    if from == to then Code([], x, to, tmp)
    else if from == Ptr || to == Ptr then Code([], x, to, tmp + 1)
    else
      var conv := if Width(from) < Width(to) then Sext else Trunc;
      Code([Conv(conv, TempName(tmp), to, from, x)], Reg(TempName(tmp)), to, tmp + 1)
  }

  function BoolText(b: bool): long { if b then 1 else 0 }

  function EmitPrefix(p: Prefix, c: Code): (r: Code)
    ensures r.tmp == c.tmp + 1
  {
    var dst := TempName(c.tmp);
    match p
    case LogicalNot => Code(c.instrs + [Icmp(Eq, dst, I1, c.op, Lit(0))], Reg(dst), I1, c.tmp + 1)
    case Minus => Code(c.instrs + [Un(Neg, dst, c.ty, c.op)], Reg(dst), c.ty, c.tmp + 1)
    case Complement => Code(c.instrs + [Un(BitNot, dst, c.ty, c.op)], Reg(dst), c.ty, c.tmp + 1)
  }

  function EmitOperator(op: Operator, t: Ty, x: Operand, y: Operand, tmp: nat): Code {
    var dst := TempName(tmp);
    match op
    case Arith(a) => Code([Bin(a, dst, t, x, y)], Reg(dst), ArithType(t), tmp + 1)
    case Cmp(p) => Code([Icmp(p, dst, t, x, y)], Reg(dst), I1, tmp + 1)
  }

  /** The type that a variable's value is read back with: the name of the short type reads as that of a
      class. */
  function VarRead(t: Ty): Ty { if t == I16 then Ptr else t }

  /** And the type of a call's result. */
  function CallRead(t: Ty): Ty { if t == I8 || t == I16 then Ptr else t }

  /** A left operand read back as a pointer makes plus and minus pointer arithmetic, which is reported; the
      right operand is not built. */
  predicate PointerStep(op: Operator, t: Ty) {
    t == Ptr && (op == Arith(Add) || op == Arith(Sub))
  }

  const MAX_ARGS: nat := 64

  datatype ArgCode = ArgCode(instrs: seq<Instr>, args: seq<Arg>, tmp: nat)

  function CoerceArgs(args: seq<Arg>, params: seq<Ty>, tmp: nat): (r: ArgCode)
    ensures r.tmp >= tmp && |r.args| == |args|
  {
    if args == [] || params == [] then ArgCode([], args, tmp)
    else
      var c := Coerce(args[0].val, args[0].ty, params[0], tmp);
      var r := CoerceArgs(args[1..], params[1..], c.tmp);
      ArgCode(c.instrs + r.instrs, [Arg(c.op, params[0])] + r.args, r.tmp)
  }

  function EmitExpr(cx: Ctx, vars: seq<VarEntry>, e: Expr, tmp: nat): (c: Code)
    ensures c.tmp >= tmp
    decreases e
  {
    match e
    case IntLit(n) => Code([], Lit(n), I32, tmp)
    case LongLit(n) => Code([], Lit(n), I64, tmp)
    case CharLit(n) => Code([], Lit(n), I8, tmp)
    case BoolLit(b) => Code([], Lit(BoolText(b)), I1, tmp)
    case Var(x) =>
      var c := ConstFrom(cx.comptime, x);
      var k := VarLookup(vars, x);
      if c.Some? then Code([], Lit(c.value), I64, tmp)
      else if k.Some? then
        var v := vars[k.value];
        Code([Load(TempName(tmp), v.ty, v.slot)], Reg(TempName(tmp)), VarRead(v.ty), tmp + 1)
      else if x in cx.sigs then Code([], Global(x), Ptr, tmp)
      else Code([], Lit(0), I32, tmp)
    case Unary(p, e1) => EmitPrefix(p, EmitExpr(cx, vars, e1, tmp))
    case Binary(op, e1, e2) =>
      var a := EmitExpr(cx, vars, e1, tmp);
      if PointerStep(op, a.ty) then Code(a.instrs, Null, Ptr, a.tmp)
      else
        var b := EmitExpr(cx, vars, e2, a.tmp);
        var t := CommonType(a.ty, b.ty);
        var x := Coerce(a.op, a.ty, t, b.tmp);
        var y := Coerce(b.op, b.ty, t, x.tmp);
        var o := EmitOperator(op, t, x.op, y.op, y.tmp);
        o.(instrs := a.instrs + b.instrs + x.instrs + y.instrs + o.instrs)
    case CallFn(fn, args) =>
      var sig := SigOf(cx, fn);
      var a := EmitArgs(cx, vars, args, tmp, MAX_ARGS);
      var b := CoerceArgs(a.args, sig.params, a.tmp);
      var dst := TempName(b.tmp);
      Code(a.instrs + b.instrs + [Call(dst, sig.ret, fn, b.args)], Reg(dst), CallRead(sig.ret), b.tmp + 1)
  }

  /** No more arguments than there is room for. */
  function EmitArgs(cx: Ctx, vars: seq<VarEntry>, args: Exprs, tmp: nat, room: nat): (r: ArgCode)
    ensures r.tmp >= tmp
    decreases args
  {
    match args
    case NoExprs => ArgCode([], [], tmp)
    case MoreExprs(_, _) =>
      if room == 0 then ArgCode([], [], tmp)
      else
        var c := EmitExpr(cx, vars, args.head, tmp);
        var r := EmitArgs(cx, vars, args.tail, c.tmp, room - 1);
        ArgCode(c.instrs + r.instrs, [Arg(c.op, c.ty)] + r.args, r.tmp)
  }

  /** A condition: the value brought to one bit and compared with zero. */
  function EmitTest(cx: Ctx, vars: seq<VarEntry>, e: Expr, tmp: nat): (c: Code)
    ensures c.tmp >= tmp
  {
    var v := EmitExpr(cx, vars, e, tmp);
    var b := Coerce(v.op, v.ty, I1, v.tmp);
    var dst := TempName(b.tmp);
    Code(v.instrs + b.instrs + [Icmp(Ne, dst, I1, b.op, Lit(0))], Reg(dst), I1, b.tmp + 1)
  }

  function EmitEffect(cx: Ctx, vars: seq<VarEntry>, eff: Effect, tmp: nat): (c: Code)
    ensures c.tmp >= tmp
  {
    match eff
    case Assign(x, e) =>
      var v := EmitExpr(cx, vars, e, tmp);
      var k := VarLookup(vars, x);
      if k.None? then v
      else
        var s := vars[k.value];
        var c := Coerce(v.op, v.ty, s.ty, v.tmp);
        c.(instrs := v.instrs + c.instrs + [Store(s.slot, s.ty, c.op)])
    case Compound(op, x, e) =>
      var o := EmitTarget(cx, vars, x, tmp);
      var v := EmitExpr(cx, vars, e, o.tmp);
      var c := Coerce(v.op, v.ty, o.ty, v.tmp);
      var dst := TempName(c.tmp);
      Code(o.instrs + v.instrs + c.instrs + [Bin(op, dst, o.ty, o.op, c.op)] + EmitStore(vars, x, o.ty, Reg(dst)),
           Reg(dst), o.ty, c.tmp + 1)
    case Increment(x) => EmitStepBy(cx, vars, Add, x, tmp)
    case Decrement(x) => EmitStepBy(cx, vars, Sub, x, tmp)
    case Eval(e) => EmitExpr(cx, vars, e, tmp)
  }

  /** The old value of what is assigned to: a variable is loaded, any other name is an expression. */
  function EmitTarget(cx: Ctx, vars: seq<VarEntry>, x: string, tmp: nat): (c: Code)
    ensures c.tmp >= tmp
  {
    var k := VarLookup(vars, x);
    if k.None? then EmitExpr(cx, vars, Var(x), tmp)
    else
      var s := vars[k.value];
      Code([Load(TempName(tmp), s.ty, s.slot)], Reg(TempName(tmp)), s.ty, tmp + 1)
  }

  /** Only a variable is stored to. */
  function EmitStore(vars: seq<VarEntry>, x: string, t: Ty, a: Operand): seq<Instr> {
    var k := VarLookup(vars, x);
    if k.None? then [] else [Fir.Store(vars[k.value].slot, t, a)]
  }

  function EmitStepBy(cx: Ctx, vars: seq<VarEntry>, op: BinOp, x: string, tmp: nat): (c: Code)
    ensures c.tmp >= tmp
  {
    var v := EmitExpr(cx, vars, Var(x), tmp);
    var dst := TempName(v.tmp);
    Code(v.instrs + [Bin(op, dst, v.ty, v.op, Lit(1))] + EmitStore(vars, x, v.ty, Reg(dst)), Reg(dst), v.ty, v.tmp + 1)
  }

  // ----- statements -----

  function Straight(g: Gen, c: Code): (r: Gen)
    requires |g.blocks| > 0 && c.tmp >= g.tmp
    ensures |r.blocks| == |g.blocks|
  {
    Emit(g, c.instrs).(tmp := c.tmp)
  }

  /** The type is taken from the initialiser. */
  predicate Inferred(ty: Option<Ty>, init: Option<Expr>) {
    ty.None? && init.Some?
  }

  /** A declaration's slot is allocated before the initialiser when the type is written, after it when the
      type is taken from it. */
  function DeclCode(cx: Ctx, vars: seq<VarEntry>, x: string, ty: Option<Ty>, init: Option<Expr>, tmp: nat): (c: Code)
    ensures c.tmp >= tmp
  {
    if Inferred(ty, init) then
      var v := EmitExpr(cx, vars, init.value, tmp);
      var slot := DeclSlot(x, v.tmp);
      v.(instrs := v.instrs + [Alloca(slot, v.ty), Fir.Store(slot, v.ty, v.op)], tmp := DeclTmp(x, v.tmp))
    else
      var t := if ty.Some? then ty.value else I32;
      var slot, n := DeclSlot(x, tmp), DeclTmp(x, tmp);
      var v := if init.Some? then EmitExpr(cx, vars, init.value, n) else Code([], Lit(0), t, n);
      var c := Coerce(v.op, v.ty, t, v.tmp);
      c.(instrs := [Alloca(slot, t)] + v.instrs + c.instrs + [Fir.Store(slot, t, c.op)])
  }

  function DeclEntry(cx: Ctx, vars: seq<VarEntry>, x: string, ty: Option<Ty>, init: Option<Expr>, tmp: nat): VarEntry {
    if Inferred(ty, init) then
      var v := EmitExpr(cx, vars, init.value, tmp);
      VarEntry(x, v.ty, DeclSlot(x, v.tmp))
    else VarEntry(x, if ty.Some? then ty.value else I32, DeclSlot(x, tmp))
  }

  /** A discarded value whose type is not written is not entered in the table. */
  predicate Discarded(x: string, ty: Option<Ty>, init: Option<Expr>) {
    x == DISCARD && Inferred(ty, init)
  }

  function EmitDecl(cx: Ctx, g: Gen, x: string, ty: Option<Ty>, init: Option<Expr>): (r: Gen)
    requires |g.blocks| > 0
    ensures |r.blocks| == |g.blocks|
  {
    Straight(g, DeclCode(cx, g.vars, x, ty, init, g.tmp))
      .(vars := if Discarded(x, ty, init) then g.vars else Enter(g.vars, DeclEntry(cx, g.vars, x, ty, init, g.tmp)))
  }

  function EmitReturn(cx: Ctx, g: Gen, val: Option<Expr>): (r: Gen)
    requires |g.blocks| > 0
    ensures |r.blocks| >= |g.blocks|
  {
    var h :=
      if val.None? || cx.ret.None? then Emit(g, [RetVoid])
      else
        var v := EmitExpr(cx, g.vars, val.value, g.tmp);
        var c := Coerce(v.op, v.ty, cx.ret.value, v.tmp);
        Straight(g, c.(instrs := v.instrs + c.instrs + [Ret(cx.ret.value, c.op)]));
    Place(h, Label(Dead, h.lbl)).(lbl := h.lbl + 1)
  }

  /** Break and continue: a jump if there is a loop, then a block nothing leads to. */
  function EmitLeave(g: Gen, target: Option<string>, k: Kind): (r: Gen)
    requires |g.blocks| > 0
    ensures |r.blocks| >= |g.blocks|
  {
    var h := Emit(g, [if target.Some? then Br(target.value) else Unreachable]);
    Place(h, Label(k, g.lbl)).(lbl := g.lbl + 1)
  }

  /** The test of a two-way branch, and the branch. */
  function EmitBranch(cx: Ctx, g: Gen, c: Expr, thn: string, els: string): (r: Gen)
    requires |g.blocks| > 0
    ensures |r.blocks| == |g.blocks|
  {
    var v := EmitTest(cx, g.vars, c, g.tmp);
    Straight(g, v.(instrs := v.instrs + [BrCond(v.op, thn, els)]))
  }

  function SetLoop(g: Gen, brk: Option<string>, cont: Option<string>): Gen {
    g.(brk := brk, cont := cont)
  }

  function EmitStmt(cx: Ctx, g: Gen, s: Stmt): (r: Gen)
    requires |g.blocks| > 0
    ensures |r.blocks| >= |g.blocks|
    decreases s, 1
  {
    match s
    case Decl(x, ty, init, _) => EmitDecl(cx, g, x, ty, init)
    case Do(eff) => Straight(g, EmitEffect(cx, g.vars, eff, g.tmp))
    case Return(val) => EmitReturn(cx, g, val)
    case If(_, _, _) => EmitIf(cx, g, s)
    case While(_, _) => EmitWhile(cx, g, s)
    case DoWhile(_, _) => EmitDoWhile(cx, g, s)
    case ForC(_, _, _, _) => EmitFor(cx, g, s)
    case Match(e, arms) => EmitMatch(cx, g, e, arms)
    case Break => EmitLeave(g, g.brk, Brkd)
    case Continue => EmitLeave(g, g.cont, Cntd)
    case Scope(body) => EmitScope(cx, g, body)
  }

  function EmitStmts(cx: Ctx, g: Gen, ss: Stmts): (r: Gen)
    requires |g.blocks| > 0
    ensures |r.blocks| >= |g.blocks|
    decreases ss, 0
  {
    match ss
    case NoStmts => g
    case MoreStmts(s, rest) => EmitStmts(cx, EmitStmt(cx, g, s), rest)
  }

  /** A block of statements: the variables it declares are dropped at its end. */
  function EmitScope(cx: Ctx, g: Gen, ss: Stmts): (r: Gen)
    requires |g.blocks| > 0
    ensures |r.blocks| >= |g.blocks|
    decreases ss, 1
  {
    ScopePop(EmitStmts(cx, ScopePush(g), ss))
  }

  // A compound statement is built in stages, each named after what it ends with.

  function IfTest(cx: Ctx, g: Gen, s: Stmt): (r: Gen)
    requires |g.blocks| > 0 && s.If?
    ensures |r.blocks| >= |g.blocks|
  {
    EmitBranch(cx, g.(lbl := g.lbl + 3), s.cond, Label(IfT, g.lbl),
               if s.els.Some? then Label(IfF, g.lbl + 1) else Label(IfM, g.lbl + 2))
  }

  function IfThen(cx: Ctx, g: Gen, s: Stmt): (r: Gen)
    requires |g.blocks| > 0 && s.If?
    ensures |r.blocks| >= |g.blocks|
    decreases s, 0, 0
  {
    BrTo(EmitScope(cx, Place(IfTest(cx, g, s), Label(IfT, g.lbl)), s.thn), Label(IfM, g.lbl + 2))
  }

  function IfElse(cx: Ctx, g: Gen, s: Stmt): (r: Gen)
    requires |g.blocks| > 0 && s.If?
    ensures |r.blocks| >= |g.blocks|
    decreases s, 0, 1
  {
    var h := IfThen(cx, g, s);
    if s.els.None? then h
    else BrTo(EmitStmt(cx, Place(h, Label(IfF, g.lbl + 1)), s.els.value), Label(IfM, g.lbl + 2))
  }

  function EmitIf(cx: Ctx, g: Gen, s: Stmt): (r: Gen)
    requires |g.blocks| > 0 && s.If?
    ensures |r.blocks| >= |g.blocks|
    decreases s, 0, 2
  {
    Place(IfElse(cx, g, s), Label(IfM, g.lbl + 2))
  }

  function WhileHead(g: Gen): (r: Gen)
    requires |g.blocks| > 0
    ensures |r.blocks| >= |g.blocks|
  {
    var h := SetLoop(g.(lbl := g.lbl + 3), Some(Label(We, g.lbl + 2)), Some(Label(Wh, g.lbl)));
    Place(BrTo(h, Label(Wh, g.lbl)), Label(Wh, g.lbl))
  }

  function WhileTest(cx: Ctx, g: Gen, s: Stmt): (r: Gen)
    requires |g.blocks| > 0 && s.While?
    ensures |r.blocks| >= |g.blocks|
  {
    EmitBranch(cx, WhileHead(g), s.cond, Label(Wb, g.lbl + 1), Label(We, g.lbl + 2))
  }

  function WhileBody(cx: Ctx, g: Gen, s: Stmt): (r: Gen)
    requires |g.blocks| > 0 && s.While?
    ensures |r.blocks| >= |g.blocks|
    decreases s, 0, 0
  {
    BrTo(EmitScope(cx, Place(WhileTest(cx, g, s), Label(Wb, g.lbl + 1)), s.body), Label(Wh, g.lbl))
  }

  function EmitWhile(cx: Ctx, g: Gen, s: Stmt): (r: Gen)
    requires |g.blocks| > 0 && s.While?
    ensures |r.blocks| >= |g.blocks|
    decreases s, 0, 1
  {
    SetLoop(Place(WhileBody(cx, g, s), Label(We, g.lbl + 2)), g.brk, g.cont)
  }

  function DoStart(g: Gen): (r: Gen)
    requires |g.blocks| > 0
    ensures |r.blocks| >= |g.blocks|
  {
    var h := SetLoop(g.(lbl := g.lbl + 3), Some(Label(Dwe, g.lbl + 2)), Some(Label(Dwh, g.lbl + 1)));
    BrTo(h, Label(Dw, g.lbl))
  }

  function DoBody(cx: Ctx, g: Gen, s: Stmt): (r: Gen)
    requires |g.blocks| > 0 && s.DoWhile?
    ensures |r.blocks| >= |g.blocks|
    decreases s, 0, 0
  {
    BrTo(EmitScope(cx, Place(DoStart(g), Label(Dw, g.lbl)), s.body), Label(Dwh, g.lbl + 1))
  }

  function DoTest(cx: Ctx, g: Gen, s: Stmt): (r: Gen)
    requires |g.blocks| > 0 && s.DoWhile?
    ensures |r.blocks| >= |g.blocks|
    decreases s, 0, 1
  {
    EmitBranch(cx, Place(DoBody(cx, g, s), Label(Dwh, g.lbl + 1)), s.cond, Label(Dw, g.lbl), Label(Dwe, g.lbl + 2))
  }

  function EmitDoWhile(cx: Ctx, g: Gen, s: Stmt): (r: Gen)
    requires |g.blocks| > 0 && s.DoWhile?
    ensures |r.blocks| >= |g.blocks|
    decreases s, 0, 2
  {
    SetLoop(Place(DoTest(cx, g, s), Label(Dwe, g.lbl + 2)), g.brk, g.cont)
  }

  function ForEnter(g: Gen): Gen {
    ScopePush(SetLoop(g.(lbl := g.lbl + 4), Some(Label(Fe, g.lbl + 3)), Some(Label(Fs, g.lbl + 2))))
  }

  function ForFirst(cx: Ctx, g: Gen, s: Stmt): (r: Gen)
    requires |g.blocks| > 0 && s.ForC?
    ensures |r.blocks| >= |g.blocks|
    decreases s, 0, 0
  {
    if s.first.Some? then EmitStmt(cx, ForEnter(g), s.first.value) else ForEnter(g)
  }

  function ForHead(cx: Ctx, g: Gen, s: Stmt): (r: Gen)
    requires |g.blocks| > 0 && s.ForC?
    ensures |r.blocks| >= |g.blocks|
    decreases s, 0, 1
  {
    Place(BrTo(ForFirst(cx, g, s), Label(Fh, g.lbl)), Label(Fh, g.lbl))
  }

  function ForTest(cx: Ctx, g: Gen, s: Stmt): (r: Gen)
    requires |g.blocks| > 0 && s.ForC?
    ensures |r.blocks| >= |g.blocks|
    decreases s, 0, 2
  {
    var h := ForHead(cx, g, s);
    if s.test.Some? then EmitBranch(cx, h, s.test.value, Label(Fb, g.lbl + 1), Label(Fe, g.lbl + 3))
    else Emit(h, [Br(Label(Fb, g.lbl + 1))])
  }

  function ForBody(cx: Ctx, g: Gen, s: Stmt): (r: Gen)
    requires |g.blocks| > 0 && s.ForC?
    ensures |r.blocks| >= |g.blocks|
    decreases s, 0, 3
  {
    BrTo(EmitScope(cx, Place(ForTest(cx, g, s), Label(Fb, g.lbl + 1)), s.body), Label(Fs, g.lbl + 2))
  }

  function ForStep(cx: Ctx, g: Gen, s: Stmt): (r: Gen)
    requires |g.blocks| > 0 && s.ForC?
    ensures |r.blocks| >= |g.blocks|
    decreases s, 0, 4
  {
    var h := Place(ForBody(cx, g, s), Label(Fs, g.lbl + 2));
    if s.step.Some? then Straight(h, EmitEffect(cx, h.vars, s.step.value, h.tmp)) else h
  }

  function EmitFor(cx: Ctx, g: Gen, s: Stmt): (r: Gen)
    requires |g.blocks| > 0 && s.ForC?
    ensures |r.blocks| >= |g.blocks|
    decreases s, 0, 5
  {
    var h := Place(BrTo(ForStep(cx, g, s), Label(Fh, g.lbl)), Label(Fe, g.lbl + 3));
    SetLoop(ScopePop(h), g.brk, g.cont)
  }

  function ArmCount(arms: Arms): nat {
    match arms
    case NoArms => 0
    case MoreArms(_, _, rest) => 1 + ArmCount(rest)
  }

  /** The scrutinee; the labels of all arms are made before any arm is built. */
  function MatchStart(cx: Ctx, g: Gen, e: Expr, arms: Arms): (r: Gen)
    requires |g.blocks| > 0
    ensures |r.blocks| >= |g.blocks|
  {
    Straight(g, EmitExpr(cx, g.vars, e, g.tmp)).(lbl := g.lbl + 1 + ArmCount(arms))
  }

  function MatchArms(cx: Ctx, g: Gen, e: Expr, arms: Arms): (r: Gen)
    requires |g.blocks| > 0
    ensures |r.blocks| >= |g.blocks|
    decreases arms, 3
  {
    var v := EmitExpr(cx, g.vars, e, g.tmp);
    var el := Label(Mend, g.lbl);
    BrTo(EmitArms(cx, MatchStart(cx, g, e, arms), v.op, v.ty, arms, g.lbl + 1, el), el)
  }

  function EmitMatch(cx: Ctx, g: Gen, e: Expr, arms: Arms): (r: Gen)
    requires |g.blocks| > 0
    ensures |r.blocks| >= |g.blocks|
    decreases arms, 4
  {
    Place(MatchArms(cx, g, e, arms), Label(Mend, g.lbl))
  }

  /** The test of one arm: a range takes three temps beside the one set aside before. */
  function EmitPattern(p: Pattern, x: Operand, t: Ty, tmp: nat): (c: Code)
    requires !p.Wildcard?
    ensures c.tmp >= tmp
  {
    match p
    case Literal(n) => Code([Icmp(Eq, TempName(tmp), t, x, Lit(n))], Reg(TempName(tmp)), I1, tmp + 1)
    case Range(lo, hi) =>
      var a, b, c := TempName(tmp + 1), TempName(tmp + 2), TempName(tmp + 3);
      Code([Icmp(Sge, a, t, x, Lit(lo)), Icmp(Sle, b, t, x, Lit(hi)), Bin(And, c, I1, Reg(a), Reg(b))],
           Reg(c), I1, tmp + 4)
  }

  function EmitArm(cx: Ctx, g: Gen, l: string, body: Stmt, el: string): (r: Gen)
    requires |g.blocks| > 0
    ensures |r.blocks| >= |g.blocks|
    decreases body, 2
  {
    BrTo(ScopePop(EmitStmt(cx, ScopePush(Place(g, l)), body)), el)
  }

  /** A tested arm: on a match its body runs, otherwise control goes on in the block after it. */
  function EmitTested(cx: Ctx, g: Gen, x: Operand, t: Ty, p: Pattern, body: Stmt, l: string, el: string): (r: Gen)
    requires |g.blocks| > 0 && !p.Wildcard?
    ensures |r.blocks| >= |g.blocks|
    decreases body, 3
  {
    Place(EmitArm(cx, ArmTest(g, x, t, p, l), l, body, el), Label(Mcnext, g.lbl))
  }

  function ArmTest(g: Gen, x: Operand, t: Ty, p: Pattern, l: string): (r: Gen)
    requires |g.blocks| > 0 && !p.Wildcard?
    ensures |r.blocks| >= |g.blocks|
  {
    var c := EmitPattern(p, x, t, g.tmp);
    Straight(g, c.(instrs := c.instrs + [BrCond(c.op, l, Label(Mcnext, g.lbl))])).(lbl := g.lbl + 1)
  }

  function EmitArms(cx: Ctx, g: Gen, x: Operand, t: Ty, arms: Arms, first: nat, el: string): (r: Gen)
    requires |g.blocks| > 0
    ensures |r.blocks| >= |g.blocks|
    decreases arms, 2
  {
    match arms
    case NoArms => g
    case MoreArms(p, body, rest) =>
      var l := Label(Marm, first);
      var h := if p.Wildcard? then EmitArm(cx, Emit(g, [Br(l)]), l, body, el)
               else EmitTested(cx, g, x, t, p, body, l, el);
      EmitArms(cx, h, x, t, rest, first + 1, el)
  }
}
