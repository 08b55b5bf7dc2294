/** FIR, the compiler's intermediate language, restricted to integer functions, and its meaning.

    A function is a list of labelled blocks; execution starts at the first. A block ends at its
    first terminator, and a block marked dead is not emitted, so no jump finds it. Whatever the
    back end leaves undefined (a zero divisor, an out-of-range shift, an unset temp, a slot read at
    another type than it was allocated with) gets the machine stuck. */
module Fir {
  import opened Words
  import opened Bits

  datatype Option<+T> = None | Some(value: T)

  /** An operand string is the text of a literal, the name of a temp or argument, `null`, or a function's
      name. */
  datatype Operand = Lit(value: long) | Reg(name: string) | Null | Global(fn: string)

  datatype BinOp = Add | Sub | Mul | Div | Mod | Udiv | Urem | And | Or | Xor | Shl | Shr | Lshr
  datatype UnOp = Neg | Not | BitNot
  datatype ConvOp = Zext | Sext | Trunc
  datatype Pred = Eq | Ne | Slt | Sle | Sgt | Sge | Ult | Ule | Ugt | Uge

  datatype Arg = Arg(val: Operand, ty: Ty)

  datatype Instr =
    | Alloca(dst: string, ty: Ty)
    | Store(dst: string, ty: Ty, src: Operand)
    | Load(dst: string, ty: Ty, slot: string)
    | Bin(op: BinOp, dst: string, ty: Ty, a: Operand, b: Operand)
    | Icmp(pred: Pred, dst: string, ty: Ty, a: Operand, b: Operand)
    | Un(uop: UnOp, dst: string, ty: Ty, a: Operand)
    | Conv(conv: ConvOp, dst: string, ty: Ty, from: Ty, a: Operand)
    | Select(dst: string, ty: Ty, cond: Operand, a: Operand, b: Operand)
    | Call(dst: string, ty: Ty, fn: string, args: seq<Arg>)
    | Br(target: string)
    | BrCond(cond: Operand, thn: string, els: string)
    | Ret(ty: Ty, val: Operand)
    | RetVoid
    | Unreachable
    | Nop

  datatype Block = Block(name: string, instrs: seq<Instr>, dead: bool)

  predicate IsTerm(i: Instr) {
    i.Br? || i.BrCond? || i.Ret? || i.RetVoid? || i.Unreachable?
  }

  // ----- values -----

  /** The w-bit operation on values of type `t`; None where it is undefined. */
  function Compute(op: BinOp, t: Ty, x: int, y: int): Option<int> {
    match op
    case Add => Some(Wrap(t, x + y))
    case Sub => Some(Wrap(t, x - y))
    case Mul => Some(Wrap(t, x * y))
    case Div => if DivUndefined(t, x, y) then None else Some(TruncDiv(x, y))
    case Mod => if DivUndefined(t, x, y) then None else Some(TruncMod(x, y))
    case Udiv => if y == 0 then None else Some(Wrap(t, UnsignedDiv(Unsigned(t, x), Unsigned(t, y))))
    case Urem => if y == 0 then None else Some(Wrap(t, UnsignedMod(Unsigned(t, x), Unsigned(t, y))))
    case And => Some(Wrap(t, BitOp(BitAnd, x, y)))
    case Or => Some(Wrap(t, BitOp(BitOr, x, y)))
    case Xor => Some(Wrap(t, BitOp(BitXor, x, y)))
    case Shl => if 0 <= y < Width(t) then Some(Wrap(t, x * Pow2(y))) else None
    case Shr => if 0 <= y < Width(t) then Some(x / Pow2(y)) else None
    case Lshr => if 0 <= y < Width(t) then Some(Wrap(t, Unsigned(t, x) / Pow2(y))) else None
  }

  predicate DivUndefined(t: Ty, x: int, y: int) {
    y == 0 || (x == -(Modulus(t) / 2) && y == -1)
  }

  function UnsignedDiv(x: int, y: int): int { if y == 0 then 0 else x / y }

  function UnsignedMod(x: int, y: int): int { if y == 0 then 0 else x % y }

  /** A truth value as the one-bit integer it is. */
  function Truth(b: bool): int { if b then -1 else 0 }

  function Compare(p: Pred, t: Ty, x: int, y: int): bool {
    match p
    case Eq => x == y
    case Ne => x != y
    case Slt => x < y
    case Sle => x <= y
    case Sgt => x > y
    case Sge => x >= y
    case Ult => Unsigned(t, x) < Unsigned(t, y)
    case Ule => Unsigned(t, x) <= Unsigned(t, y)
    case Ugt => Unsigned(t, x) > Unsigned(t, y)
    case Uge => Unsigned(t, x) >= Unsigned(t, y)
  }

  function ComputeUn(op: UnOp, t: Ty, x: int): int {
    match op
    case Neg => Wrap(t, -x)
    case Not => Truth(x == 0)
    case BitNot => Wrap(t, -x - 1)
  }

  function Convert(op: ConvOp, t: Ty, from: Ty, x: int): int {
    match op
    case Zext => Wrap(t, Unsigned(from, x))
    case Sext => Wrap(t, x)
    case Trunc => Wrap(t, x)
  }

  // ----- states -----

  /** A stack slot: the type it was allocated with and its contents, if it has been written. */
  datatype Cell = Cell(ty: Ty, val: Option<int>)

  /** A call that left the function, with the arguments it passed. */
  datatype Event = Event(fn: string, args: seq<int>)

  datatype State = State(temps: map<string, int>, mem: map<string, Cell>, trace: seq<Event>)

  /** What callees return, given everything called before. */
  type World = (seq<Event>, string, seq<int>) -> int

  /** An operand read at type `t`: literals and temps of other widths are truncated or sign extended, and a
      null read as an integer is zero. Addresses are not read. */
  function Read(x: Operand, t: Ty, temps: map<string, int>): Option<int> {
    if t == Ptr then None
    else
      match x
      case Lit(n) => Some(Wrap(t, n))
      case Reg(r) => if r in temps then Some(Wrap(t, temps[r])) else None
      case Null => Some(0)
      case Global(_) => None
  }

  function ReadArgs(args: seq<Arg>, temps: map<string, int>): Option<seq<int>> {
    if args == [] then Some([])
    else
      var v := Read(args[0].val, args[0].ty, temps);
      var vs := ReadArgs(args[1..], temps);
      if v.Some? && vs.Some? then Some([v.value] + vs.value) else None
  }

  function Set(s: State, dst: string, v: Option<int>): Option<State> {
    if v.None? then None else Some(s.(temps := s.temps[dst := v.value]))
  }

  /** One instruction that is not a terminator. */
  function ExecInstr(i: Instr, w: World, s: State): Option<State>
    requires !IsTerm(i)
  {
    match i
    case Alloca(x, t) => Some(s.(mem := s.mem[x := Cell(t, None)]))
    case Store(x, t, src) =>
      var v := Read(src, t, s.temps);
      if v.Some? && x in s.mem && s.mem[x].ty == t then Some(s.(mem := s.mem[x := Cell(t, v)])) else None
    case Load(dst, t, x) =>
      if t != Ptr && x in s.mem && s.mem[x].ty == t then Set(s, dst, s.mem[x].val) else None
    case Bin(op, dst, t, a, b) =>
      var x, y := Read(a, t, s.temps), Read(b, t, s.temps);
      if x.Some? && y.Some? then Set(s, dst, Compute(op, t, x.value, y.value)) else None
    case Icmp(p, dst, t, a, b) =>
      var x, y := Read(a, t, s.temps), Read(b, t, s.temps);
      if x.Some? && y.Some? then Set(s, dst, Some(Truth(Compare(p, t, x.value, y.value)))) else None
    case Un(op, dst, t, a) =>
      var x := Read(a, t, s.temps);
      if x.Some? then Set(s, dst, Some(ComputeUn(op, t, x.value))) else None
    case Conv(op, dst, t, from, a) =>
      var x := Read(a, from, s.temps);
      if x.Some? && t != Ptr then Set(s, dst, Some(Convert(op, t, from, x.value))) else None
    case Select(dst, t, c, a, b) =>
      var v, x, y := Read(c, I1, s.temps), Read(a, t, s.temps), Read(b, t, s.temps);
      if v.Some? && x.Some? && y.Some? then Set(s, dst, if v.value != 0 then x else y) else None
    case Call(dst, t, fn, args) =>
      var vs := ReadArgs(args, s.temps);
      if vs.None? || t == Ptr then None
      else Some(s.(temps := s.temps[dst := Wrap(t, w(s.trace, fn, vs.value))],
                   trace := s.trace + [Event(fn, vs.value)]))
    case Nop => Some(s)
  }

  // ----- runs -----

  /** The first emitted block with label `l`, from block `k` on. */
  function FindFrom(f: seq<Block>, l: string, k: nat): (r: Option<nat>)
    requires k <= |f|
    ensures r.Some? ==> k <= r.value < |f| && f[r.value].name == l && !f[r.value].dead
    ensures r.Some? ==> forall j :: k <= j < r.value ==> f[j].name != l || f[j].dead
    ensures r.None? ==> forall j :: k <= j < |f| ==> f[j].name != l || f[j].dead
    decreases |f| - k
  {
    if k == |f| then None
    else if f[k].name == l && !f[k].dead then Some(k)
    else FindFrom(f, l, k + 1)
  }

  function Find(f: seq<Block>, l: string): (r: Option<nat>)
    ensures r.Some? ==> r.value < |f| && f[r.value].name == l && !f[r.value].dead
    ensures r.Some? ==> forall j :: 0 <= j < r.value ==> f[j].name != l || f[j].dead
    ensures r.None? ==> forall j :: 0 <= j < |f| ==> f[j].name != l || f[j].dead
  {
    FindFrom(f, l, 0)
  }

  datatype Config =
    | Running(blk: nat, pc: nat, st: State)
    | Done(ret: Option<int>, st: State)
    | Stuck

  function Goto(k: Option<nat>, s: State): Config {
    if k.Some? then Running(k.value, 0, s) else Stuck
  }

  function ExecTerm(f: seq<Block>, i: Instr, s: State): Config
    requires IsTerm(i)
  {
    match i
    case Br(l) => Goto(Find(f, l), s)
    case BrCond(c, t, e) =>
      var v := Read(c, I1, s.temps);
      if v.None? then Stuck
      else if Find(f, t).Some? && Find(f, e).Some? then Goto(Find(f, if v.value != 0 then t else e), s)
      else Goto(Find(f, t), s)
    case Ret(t, x) =>
      var v := Read(x, t, s.temps);
      if v.None? then Stuck else Done(v, s)
    case RetVoid => Done(None, s)
    case Unreachable => Stuck
  }

  function Step(f: seq<Block>, w: World, c: Config): Config {
    match c
    case Running(b, pc, s) =>
      if b >= |f| || pc >= |f[b].instrs| then Stuck
      else
        var i := f[b].instrs[pc];
        if IsTerm(i) then ExecTerm(f, i, s)
        else
          var r := ExecInstr(i, w, s);
          if r.None? then Stuck else Running(b, pc + 1, r.value)
    case _ => c
  }

  function Run(f: seq<Block>, w: World, c: Config, n: nat): Config
    decreases n
  {
    if n == 0 then c else Run(f, w, Step(f, w, c), n - 1)
  }

  function Start(args: map<string, int>): Config {
    Running(0, 0, State(args, map[], []))
  }

  lemma {:induction false} RunAdd(f: seq<Block>, w: World, c: Config, m: nat, n: nat)
    ensures Run(f, w, c, m + n) == Run(f, w, Run(f, w, c, m), n)
    decreases m
  {
    if m > 0 { RunAdd(f, w, Step(f, w, c), m - 1, n); }
  }

  lemma {:induction false} StuckStays(f: seq<Block>, w: World, n: nat)
    ensures Run(f, w, Stuck, n) == Stuck
    decreases n
  {
    if n > 0 { StuckStays(f, w, n - 1); }
  }

  /** If a run is not stuck after `n` steps it was not stuck before. */
  lemma NotStuckBefore(f: seq<Block>, w: World, c: Config, n: nat)
    requires !Run(f, w, c, n).Stuck? && n > 0
    ensures !Step(f, w, c).Stuck?
  {
    if Step(f, w, c).Stuck? { StuckStays(f, w, n - 1); }
  }
}
