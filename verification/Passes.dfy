/** The optimiser's passes over a whole function, and the proof that their composition follows every
    defined run of the original step by step: same block, same instruction, same temps, same memory,
    same calls, same result. */
module Passes {
  import opened Words
  import opened Fir
  import opened Folding

  // ----- instructions after the first terminator -----

  function FirstTerm(instrs: seq<Instr>): (k: nat)
    ensures k <= |instrs|
    ensures k < |instrs| ==> IsTerm(instrs[k])
    ensures forall j :: 0 <= j < k ==> !IsTerm(instrs[j])
  {
    if instrs == [] || IsTerm(instrs[0]) then 0
    else
      var k := FirstTerm(instrs[1..]);
      assert forall j :: 0 < j < k + 1 ==> instrs[j] == instrs[1..][j - 1];
      k + 1
  }

  function TrimInstrs(instrs: seq<Instr>): seq<Instr> {
    var k := FirstTerm(instrs);
    if k < |instrs| then instrs[..k + 1] else instrs
  }

  /** Terminators stand only at the end. */
  predicate Trimmed(instrs: seq<Instr>) {
    forall k :: 0 <= k < |instrs| - 1 ==> !IsTerm(instrs[k])
  }

  function TrimAll(f: seq<Block>): (r: seq<Block>)
    ensures |r| == |f|
  {
    seq(|f|, k requires 0 <= k < |f| => f[k].(instrs := TrimInstrs(f[k].instrs)))
  }

  predicate AllTrimmed(f: seq<Block>) {
    forall b :: 0 <= b < |f| ==> Trimmed(f[b].instrs)
  }

  // ----- reachable blocks -----

  predicate Targets(i: Instr, l: string) {
    (i.Br? && i.target == l) || (i.BrCond? && (i.thn == l || i.els == l))
  }

  /** Block `i`'s last instruction may jump to a block named like block `j`. */
  predicate Edge(f: seq<Block>, i: nat, j: nat) {
    i < |f| && j < |f| && |f[i].instrs| > 0 && Targets(f[i].instrs[|f[i].instrs| - 1], f[j].name)
  }

  ghost predicate IsPath(f: seq<Block>, p: seq<nat>) {
    && |p| > 0 && p[0] == 0 && p[|p| - 1] < |f|
    && forall k :: 0 <= k < |p| - 1 ==> Edge(f, p[k], p[k + 1])
  }

  ghost predicate Reachable(f: seq<Block>, i: nat) {
    exists p :: IsPath(f, p) && p[|p| - 1] == i
  }

  lemma EntryReachable(f: seq<Block>)
    requires |f| > 0
    ensures Reachable(f, 0)
  {
    assert IsPath(f, [0]);
  }

  lemma ReachableStep(f: seq<Block>, i: nat, j: nat)
    requires Reachable(f, i) && Edge(f, i, j)
    ensures Reachable(f, j)
  {
    var p :| IsPath(f, p) && p[|p| - 1] == i;
    assert IsPath(f, p + [j]);
  }

  /** A set of blocks that holds the entry and is closed under edges holds every reachable block. */
  lemma {:induction false} ReachableWithin(f: seq<Block>, live: set<nat>, p: seq<nat>)
    requires IsPath(f, p) && 0 in live
    requires forall i, j :: i in live && Edge(f, i, j) ==> j in live
    ensures p[|p| - 1] in live
    decreases |p|
  {
    if |p| > 1 {
      var q := p[..|p| - 1];
      assert Edge(f, p[|p| - 2], p[|p| - 1]);
      assert IsPath(f, q);
      ReachableWithin(f, live, q);
    }
  }

  /** A function with at least the edges of `g` reaches at least what `g` reaches. */
  lemma ReachableMono(f: seq<Block>, g: seq<Block>, i: nat)
    requires |f| == |g| && Reachable(g, i)
    requires forall a, b :: Edge(g, a, b) ==> Edge(f, a, b)
    ensures Reachable(f, i)
  {
    var p :| IsPath(g, p) && p[|p| - 1] == i;
    assert IsPath(f, p);
  }

  ghost function Mark(f: seq<Block>): (r: seq<Block>)
    ensures |r| == |f|
    ensures forall k :: 0 <= k < |f| ==> r[k] == f[k].(dead := !Reachable(f, k))
  {
    seq(|f|, k requires 0 <= k < |f| => f[k].(dead := !Reachable(f, k)))
  }

  // ----- passes over live blocks -----

  function FoldLive(f: seq<Block>): (r: seq<Block>)
    ensures |r| == |f|
  {
    seq(|f|, k requires 0 <= k < |f| => if f[k].dead then f[k] else f[k].(instrs := FoldBlock(f[k].instrs)))
  }

  function PeepInstr(i: Instr): Instr {
    if i.Conv? && !i.conv.Trunc? && i.a.Lit? then Copy(i.dst, i.ty, i.a)
    else if i.Icmp? && i.pred == Eq && SameTemp(i.a, i.b) then Copy(i.dst, I1, Lit(1))
    else i
  }

  function PeepBlock(instrs: seq<Instr>): (r: seq<Instr>)
    ensures |r| == |instrs|
  {
    seq(|instrs|, k requires 0 <= k < |instrs| => PeepInstr(instrs[k]))
  }

  function PeepLive(f: seq<Block>): (r: seq<Block>)
    ensures |r| == |f|
  {
    seq(|f|, k requires 0 <= k < |f| => if f[k].dead then f[k] else f[k].(instrs := PeepBlock(f[k].instrs)))
  }

  /** A conditional jump on a literal becomes a jump to the side that a nonzero test picks. */
  function ResolveBranch(i: Instr): Instr {
    if i.BrCond? && i.cond.Lit? then Br(if i.cond.value != 0 then i.thn else i.els) else i
  }

  function ResolveTail(instrs: seq<Instr>): seq<Instr> {
    var n := |instrs|;
    if n == 0 then instrs else instrs[n - 1 := ResolveBranch(instrs[n - 1])]
  }

  function ResolveLive(f: seq<Block>): (r: seq<Block>)
    ensures |r| == |f|
  {
    seq(|f|, k requires 0 <= k < |f| => if f[k].dead then f[k] else f[k].(instrs := ResolveTail(f[k].instrs)))
  }

  ghost function Optimize(f: seq<Block>): (r: seq<Block>)
    ensures |r| == |f|
  {
    Mark(ResolveLive(PeepLive(FoldLive(Mark(TrimAll(f))))))
  }

  // ----- when the rewrites are right -----

  /** Extending a literal is replaced by the literal: right when the literal already has the value. */
  predicate ConvSafe(i: Instr) {
    i.Conv? && i.a.Lit? ==>
      match i.conv
      case Sext => InRange(i.from, Wrap(i.ty, i.a.value))
      case Zext => 0 <= Wrap(i.ty, i.a.value) < Modulus(i.from)
      case Trunc => true
  }

  predicate HasLabel(f: seq<Block>, l: string) {
    exists k :: 0 <= k < |f| && f[k].name == l
  }

  /** The emitter truncates a branch condition to one bit, so a literal condition must be zero or odd
      for the nonzero test to agree; both sides must be blocks. */
  predicate BranchSafe(f: seq<Block>, i: Instr) {
    i.BrCond? && i.cond.Lit? ==>
      && (i.cond.value == 0 || i.cond.value % 2 == 1)
      && HasLabel(f, i.thn) && HasLabel(f, i.els)
  }

  predicate InstrSafe(f: seq<Block>, i: Instr) {
    FoldInstrSafe(i) && ConvSafe(i) && BranchSafe(f, i)
  }

  predicate OptSafe(f: seq<Block>) {
    forall b, k :: 0 <= b < |f| && 0 <= k < |f[b].instrs| ==> InstrSafe(f, f[b].instrs[k])
  }

  predicate NoneDead(f: seq<Block>) {
    forall b :: 0 <= b < |f| ==> !f[b].dead
  }

  /** The wider modulus is a multiple of the narrower one. */
  lemma ModulusDivides(s: Ty, t: Ty) returns (r: int)
    requires Width(s) <= Width(t)
    ensures r >= 1 && Modulus(t) == r * Modulus(s)
    ensures Width(s) < Width(t) ==> Modulus(t) >= 2 * Modulus(s)
  {
    Pow2IsModulus(s);
    Pow2IsModulus(t);
    Pow2Add(Width(t) - Width(s), Width(s));
    r := Pow2(Width(t) - Width(s));
  }

  /** Narrowing sees only the low bits, signed or unsigned. */
  lemma WrapNarrow(s: Ty, t: Ty, v: int)
    requires Width(s) <= Width(t)
    ensures Wrap(s, Wrap(t, v)) == Wrap(s, v)
    ensures Unsigned(s, Wrap(t, v)) == Unsigned(s, v)
    ensures Wrap(s, Unsigned(t, v)) == Wrap(s, v)
  {
    hide Wrap, Carry, Modulus;
    var r := ModulusDivides(s, t);
    var k, q, m := Carry(t, v), v / Modulus(t), Modulus(s);
    MulAssoc(k, r, m);
    MulAssoc(q, r, m);
    WrapCongruent(s, v, Wrap(t, v), k * r);
    ModCongruent(m, v, Wrap(t, v), k * r);
    FloorParts(v, Modulus(t));
    WrapCongruent(s, v, Unsigned(t, v), q * r);
  }

  lemma FloorParts(v: int, m: int)
    requires m > 0
    ensures v == v % m + (v / m) * m
  {
  }

  lemma MulAssoc(a: int, b: int, c: int)
    ensures a * (b * c) == (a * b) * c
  {
  }

  /** Replacing the extension of a literal is right exactly when ConvSafe holds. */
  lemma {:induction false} ConvSafeExact(c: ConvOp, dst: string, t: Ty, from: Ty, n: long)
    requires Width(from) < Width(t) && !c.Trunc?
    ensures ConvSafe(Conv(c, dst, t, from, Lit(n))) <==> Convert(c, t, from, Wrap(from, n)) == Wrap(t, n)
  {
    var v := Wrap(t, n);
    var _ := ModulusDivides(from, t);
    WrapNarrow(from, t, n);
    if c.Sext? {
      WrapIdentity(t, Wrap(from, n));
      if InRange(from, v) { WrapIdentity(from, v); }
    } else {
      WrapNarrow(from, from, n);
      WrapIdentity(t, Unsigned(from, n));
      UnsignedIdentity(from, v);
    }
  }

  lemma UnsignedIdentity(t: Ty, v: int)
    ensures Unsigned(t, v) == v <==> 0 <= v < Modulus(t)
  {
  }

  /** `sext i1 1` is -1, but the peephole leaves 1. */
  lemma {:induction false} SextOfTrueChanges()
    ensures Convert(Sext, I32, I1, Wrap(I1, 1)) == -1
    ensures PeepInstr(Conv(Sext, "t0", I32, I1, Lit(1))) == Copy("t0", I32, Lit(1)) && Wrap(I32, 1) == 1
  {
  }

  /** The nonzero test agrees with the one-bit test exactly on zero and odd literals. */
  lemma {:induction false} BranchLiteralExact(n: long)
    ensures (n != 0) == (Wrap(I1, n) != 0) <==> n == 0 || n % 2 == 1
  {
  }

  /** The literal 2: the branch goes one way before the pass and the other way after it. */
  lemma {:induction false} BranchOnTwo(f: seq<Block>, w: World, b: nat, pc: nat, s: State, thn: string, els: string)
    requires b < |f| && pc < |f[b].instrs| && f[b].instrs[pc] == BrCond(Lit(2), thn, els)
    requires Find(f, thn).Some? && Find(f, els).Some?
    ensures Step(f, w, Running(b, pc, s)) == Goto(Find(f, els), s) && ResolveBranch(f[b].instrs[pc]) == Br(thn)
  {
    assert Wrap(I1, 2) == 0;
  }

  // ----- following a run through one pass -----

  lemma FindSame(f: seq<Block>, g: seq<Block>, l: string)
    requires |f| == |g|
    requires forall k :: 0 <= k < |f| ==> f[k].name == g[k].name
    requires forall k :: 0 <= k < |f| && f[k].name == l ==> f[k].dead == g[k].dead
    ensures Find(f, l) == Find(g, l)
  {
    var x, y := Find(f, l), Find(g, l);
    if x.Some? && y.Some? {
      assert !(x.value < y.value) && !(y.value < x.value);
    }
  }

  predicate SameShape(f: seq<Block>, g: seq<Block>) {
    |f| == |g| && forall k :: 0 <= k < |f| ==> f[k].name == g[k].name && f[k].dead == g[k].dead
  }

  lemma TermSame(f: seq<Block>, g: seq<Block>, i: Instr, s: State)
    requires IsTerm(i) && SameShape(f, g)
    ensures ExecTerm(f, i, s) == ExecTerm(g, i, s)
  {
    match i
    case Br(l) => FindSame(f, g, l);
    case BrCond(_, t, e) => FindSame(f, g, t); FindSame(f, g, e);
    case _ =>
  }

  // Trimming: a run never passes a terminator.

  predicate BeforeTerm(f: seq<Block>, c: Config) {
    c.Running? ==> c.blk < |f| && c.pc <= FirstTerm(f[c.blk].instrs)
  }

  lemma TrimStep(f: seq<Block>, w: World, c: Config)
    requires BeforeTerm(f, c) && !Step(f, w, c).Stuck?
    ensures Step(TrimAll(f), w, c) == Step(f, w, c) && BeforeTerm(f, Step(f, w, c))
  {
    if c.Running? {
      var i := f[c.blk].instrs[c.pc];
      assert TrimAll(f)[c.blk].instrs[c.pc] == i;
      if IsTerm(i) { TermSame(f, TrimAll(f), i, c.st); }
    }
  }

  lemma {:induction false} TrimRun(f: seq<Block>, w: World, c: Config, n: nat)
    requires BeforeTerm(f, c) && !Run(f, w, c, n).Stuck?
    ensures Run(TrimAll(f), w, c, n) == Run(f, w, c, n)
    decreases n
  {
    if n > 0 {
      NotStuckBefore(f, w, c, n);
      TrimStep(f, w, c);
      TrimRun(f, w, Step(f, w, c), n - 1);
    }
  }

  // Marking: a run never leaves the reachable blocks.

  /** No reachable block is marked dead. */
  ghost predicate ReachableLive(f: seq<Block>) {
    forall b :: 0 <= b < |f| && Reachable(f, b) ==> !f[b].dead
  }

  ghost predicate InReach(f: seq<Block>, c: Config) {
    c.Running? ==> c.blk < |f| && Reachable(f, c.blk)
  }

  lemma FindMarked(f: seq<Block>, b: nat, l: string)
    requires ReachableLive(f) && b < |f| && Reachable(f, b)
    requires |f[b].instrs| > 0 && Targets(f[b].instrs[|f[b].instrs| - 1], l)
    ensures Find(Mark(f), l) == Find(f, l)
    ensures Find(f, l).Some? ==> Reachable(f, Find(f, l).value)
  {
    forall j: nat | j < |f| && f[j].name == l
      ensures Reachable(f, j)
    {
      ReachableStep(f, b, j);
    }
    FindSame(Mark(f), f, l);
  }

  lemma MarkStep(f: seq<Block>, w: World, c: Config)
    requires AllTrimmed(f) && ReachableLive(f) && InReach(f, c) && !Step(f, w, c).Stuck?
    ensures Step(Mark(f), w, c) == Step(f, w, c) && InReach(f, Step(f, w, c))
  {
    if c.Running? {
      var i := f[c.blk].instrs[c.pc];
      assert Mark(f)[c.blk].instrs == f[c.blk].instrs;
      if IsTerm(i) {
        assert c.pc == |f[c.blk].instrs| - 1;
        match i
        case Br(l) => FindMarked(f, c.blk, l);
        case BrCond(_, t, e) => FindMarked(f, c.blk, t); FindMarked(f, c.blk, e);
        case _ =>
      }
    }
  }

  lemma {:induction false} MarkRun(f: seq<Block>, w: World, c: Config, n: nat)
    requires AllTrimmed(f) && ReachableLive(f) && InReach(f, c) && !Run(f, w, c, n).Stuck?
    ensures Run(Mark(f), w, c, n) == Run(f, w, c, n)
    ensures InReach(f, Run(f, w, c, n))
    decreases n
  {
    if n > 0 {
      NotStuckBefore(f, w, c, n);
      MarkStep(f, w, c);
      MarkRun(f, w, Step(f, w, c), n - 1);
    }
  }

  // Folding: the table built by the scan is true of memory at every instruction a run reaches.

  predicate DefsHold(f: seq<Block>, c: Config) {
    c.Running? ==>
      && c.blk < |f| && c.pc <= |f[c.blk].instrs|
      && DefsSound(DefsAt(f[c.blk].instrs, c.pc), c.st.mem)
  }

  predicate AllFoldSafe(f: seq<Block>) {
    forall b, k :: 0 <= b < |f| && 0 <= k < |f[b].instrs| ==> FoldInstrSafe(f[b].instrs[k])
  }

  lemma FoldKeepsTerm(i: Instr, defs: seq<Def>)
    requires IsTerm(i)
    ensures FoldInstr(i, defs) == i
  {
  }

  /** A jump leads to the start of a block and leaves memory alone. */
  lemma GotoStart(f: seq<Block>, i: Instr, s: State)
    requires IsTerm(i) && ExecTerm(f, i, s).Running?
    ensures
      var c := ExecTerm(f, i, s);
      c.pc == 0 && c.st == s && c.blk < |f| && Targets(i, f[c.blk].name)
  {
  }

  lemma FoldStep(f: seq<Block>, w: World, c: Config)
    requires AllFoldSafe(f) && DefsHold(f, c) && !Step(f, w, c).Stuck?
    ensures Step(FoldLive(f), w, c) == Step(f, w, c) && DefsHold(f, Step(f, w, c))
  {
    hide FoldInstr, DefsAfter, ExecInstr, ExecTerm, FoldInstrSafe, Find;
    if c.Running? {
      var b, i := f[c.blk], f[c.blk].instrs[c.pc];
      var defs := DefsAt(b.instrs, c.pc);
      if IsTerm(i) {
        TermSame(f, FoldLive(f), i, c.st);
        FoldKeepsTerm(i, defs);
        if ExecTerm(f, i, c.st).Running? { GotoStart(f, i, c.st); }
        assert forall k :: 0 <= k < |f| ==> DefsAt(f[k].instrs, 0) == [];
      } else {
        FoldInstrSound(i, defs, w, c.st);
        DefsStaySound(i, defs, w, c.st);
        assert DefsAt(b.instrs, c.pc + 1) == DefsAfter(i, defs);
      }
    }
  }

  lemma {:induction false} FoldRun(f: seq<Block>, w: World, c: Config, n: nat)
    requires AllFoldSafe(f) && DefsHold(f, c) && !Run(f, w, c, n).Stuck?
    ensures Run(FoldLive(f), w, c, n) == Run(f, w, c, n)
    ensures DefsHold(f, Run(f, w, c, n))
    decreases n
  {
    if n > 0 {
      NotStuckBefore(f, w, c, n);
      FoldStep(f, w, c);
      FoldRun(f, w, Step(f, w, c), n - 1);
    }
  }

  // The peephole.

  predicate AllConvSafe(f: seq<Block>) {
    forall b, k :: 0 <= b < |f| && 0 <= k < |f[b].instrs| ==> ConvSafe(f[b].instrs[k])
  }

  lemma PeepInstrSound(i: Instr, w: World, s: State)
    requires !IsTerm(i) && ConvSafe(i) && ExecInstr(i, w, s).Some?
    ensures !IsTerm(PeepInstr(i)) && ExecInstr(PeepInstr(i), w, s) == ExecInstr(i, w, s)
  {
    if i.Conv? && !i.conv.Trunc? && i.a.Lit? {
      CopyValue(i.dst, i.ty, i.a, w, s);
      ConvValue(i.conv, i.ty, i.from, i.a.value);
    } else if i.Icmp? && i.pred == Eq && SameTemp(i.a, i.b) {
      CopyValue(i.dst, I1, Lit(1), w, s);
    }
  }

  lemma ConvValue(c: ConvOp, t: Ty, from: Ty, n: long)
    requires !c.Trunc? && ConvSafe(Conv(c, "", t, from, Lit(n)))
    ensures Convert(c, t, from, Wrap(from, n)) == Wrap(t, n)
  {
    if Width(from) < Width(t) {
      ConvSafeExact(c, "", t, from, n);
    } else {
      WrapNarrow(from, from, n);
      WrapNarrow(t, from, n);
    }
  }

  lemma PeepStep(f: seq<Block>, w: World, c: Config)
    requires AllConvSafe(f) && !Step(f, w, c).Stuck?
    ensures Step(PeepLive(f), w, c) == Step(f, w, c)
  {
    if c.Running? {
      var i := f[c.blk].instrs[c.pc];
      if IsTerm(i) {
        TermSame(f, PeepLive(f), i, c.st);
      } else {
        PeepInstrSound(i, w, c.st);
      }
    }
  }

  lemma {:induction false} PeepRun(f: seq<Block>, w: World, c: Config, n: nat)
    requires AllConvSafe(f) && !Run(f, w, c, n).Stuck?
    ensures Run(PeepLive(f), w, c, n) == Run(f, w, c, n)
    decreases n
  {
    if n > 0 {
      NotStuckBefore(f, w, c, n);
      PeepStep(f, w, c);
      PeepRun(f, w, Step(f, w, c), n - 1);
    }
  }

  // Branches on literals.

  /** A final branch on a literal has a zero or odd condition and two live targets. */
  predicate TailResolves(f: seq<Block>, b: nat)
    requires b < |f|
  {
    var n := |f[b].instrs|;
    n > 0 && f[b].instrs[n - 1].BrCond? && f[b].instrs[n - 1].cond.Lit? ==>
      var i := f[b].instrs[n - 1];
      && (i.cond.value == 0 || i.cond.value % 2 == 1)
      && Find(f, i.thn).Some? && Find(f, i.els).Some?
  }

  predicate AllBranchSafe(f: seq<Block>) {
    forall b :: 0 <= b < |f| && !f[b].dead ==> TailResolves(f, b)
  }

  lemma ResolveStep(f: seq<Block>, w: World, c: Config)
    requires AllTrimmed(f) && AllBranchSafe(f) && !Step(f, w, c).Stuck?
    ensures Step(ResolveLive(f), w, c) == Step(f, w, c)
  {
    if c.Running? {
      var g := ResolveLive(f);
      var i := f[c.blk].instrs[c.pc];
      if IsTerm(i) {
        assert c.pc == |f[c.blk].instrs| - 1;
        TermSame(f, g, g[c.blk].instrs[c.pc], c.st);
      } else {
        assert g[c.blk].instrs[c.pc] == i;
      }
    }
  }

  lemma {:induction false} ResolveRun(f: seq<Block>, w: World, c: Config, n: nat)
    requires AllTrimmed(f) && AllBranchSafe(f) && !Run(f, w, c, n).Stuck?
    ensures Run(ResolveLive(f), w, c, n) == Run(f, w, c, n)
    decreases n
  {
    if n > 0 {
      NotStuckBefore(f, w, c, n);
      ResolveStep(f, w, c);
      ResolveRun(f, w, Step(f, w, c), n - 1);
    }
  }
}
