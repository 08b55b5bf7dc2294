/** What the optimiser achieves, said of the instruction lists alone: every load of a slot that is known to hold
    a literal is replaced by the literal, and nothing that a rule applies to is left. */
module Normal {
  import opened Words
  import opened Fir
  import Folding
  import Literals
  import opened Passes
  import OptCorrect

  // ----- what a load finds -----

  predicate StoresTo(i: Instr, x: string) { i.Store? && i.dst == x }

  /** Instruction `j` is the last one before `k` that stores to `x`. */
  predicate LastStore(instrs: seq<Instr>, k: nat, x: string, j: nat)
    requires k <= |instrs|
  {
    j < k && StoresTo(instrs[j], x) && forall m :: j < m < k ==> !StoresTo(instrs[m], x)
  }

  predicate NoStore(instrs: seq<Instr>, k: nat, x: string)
    requires k <= |instrs|
  {
    forall m :: 0 <= m < k ==> !StoresTo(instrs[m], x)
  }

  /** The slots to which literals are stored before `k`. */
  function LiteralSlots(instrs: seq<Instr>, k: nat): set<string>
    requires k <= |instrs|
  {
    set m | 0 <= m < k && instrs[m].Store? && instrs[m].src.Lit? :: instrs[m].dst
  }

  /** What a load of `x` at `k` becomes, the last store being at `j`. */
  function Loaded(i: Instr, store: Instr): Instr
    requires i.Load? && store.Store?
  {
    if store.src.Lit? then Bin(Add, i.dst, i.ty, store.src, Lit(0)) else i
  }

  // The table holds just that, while it has room.

  ghost function NamesOf(defs: seq<Folding.Def>): set<string> {
    set m | 0 <= m < |defs| :: defs[m].name
  }

  lemma {:induction false} NamesCount(defs: seq<Folding.Def>)
    requires Folding.DistinctNames(defs)
    ensures |NamesOf(defs)| == |defs|
    decreases |defs|
  {
    if defs != [] {
      var n := |defs| - 1;
      NamesCount(defs[..n]);
      assert NamesOf(defs) == NamesOf(defs[..n]) + {defs[n].name};
    }
  }

  lemma {:induction false} SetGets(defs: seq<Folding.Def>, x: string, v: long, t: Ty)
    requires Folding.DistinctNames(defs) && (x in NamesOf(defs) || |defs| < Folding.MAX_DEFS)
    ensures
      var d := Folding.DefSet(defs, x, v, t);
      && Folding.DistinctNames(d) && NamesOf(d) == NamesOf(defs) + {x}
      && forall y :: Folding.DefGet(d, y) == if y == x then Some(v) else Folding.DefGet(defs, y)
  {
    var d, k := Folding.DefSet(defs, x, v, t), Folding.IndexOf(defs, x);
    var at := if k.Some? then k.value else |defs|;
    assert d[at].name == x;
    assert forall m :: 0 <= m < |defs| ==> d[m].name == defs[m].name;
  }

  lemma {:induction false} KillGets(defs: seq<Folding.Def>, x: string)
    requires Folding.DistinctNames(defs)
    ensures
      var d := Folding.DefKill(defs, x);
      && Folding.DistinctNames(d) && NamesOf(d) <= NamesOf(defs)
      && forall y :: Folding.DefGet(d, y) == if y == x then None else Folding.DefGet(defs, y)
  {
    Folding.DefKillGet(defs, x);
    var d, k := Folding.DefKill(defs, x), Folding.IndexOf(defs, x);
    if k.Some? {
      var n := |defs| - 1;
      forall m | 0 <= m < n
        ensures d[m].name in NamesOf(defs)
      {
        assert d[m] == if m == k.value then defs[n] else defs[m];
      }
    }
  }

  ghost predicate TableRight(instrs: seq<Instr>, k: nat, defs: seq<Folding.Def>)
    requires k <= |instrs|
  {
    && Folding.DistinctNames(defs) && NamesOf(defs) <= LiteralSlots(instrs, k)
    && (forall x :: NoStore(instrs, k, x) ==> Folding.DefGet(defs, x) == None)
    && forall x, j: nat ::
         LastStore(instrs, k, x, j) ==>
           Folding.DefGet(defs, x) == if instrs[j].src.Lit? then Some(instrs[j].src.value) else None
  }

  lemma {:induction false} Subset<T>(a: set<T>, b: set<T>)
    requires a <= b
    ensures |a| <= |b|
  {
    assert b == a + (b - a);
    assert |b| == |a| + |b - a|;
  }

  lemma {:induction false} TableStays(instrs: seq<Instr>, k: nat)
    requires k <= |instrs| && |LiteralSlots(instrs, k)| <= Folding.MAX_DEFS
    ensures TableRight(instrs, k, Folding.DefsAt(instrs, k))
    decreases k
  {
    if k > 0 {
      hide Folding.DefSet, Folding.DefKill, Folding.DefGet, Folding.DistinctNames, NamesOf;
      Subset(LiteralSlots(instrs, k - 1), LiteralSlots(instrs, k));
      TableStays(instrs, k - 1);
      var defs, i := Folding.DefsAt(instrs, k - 1), instrs[k - 1];
      LastStep(instrs, k);
      if i.Store? {
        if i.src.Lit? {
          RoomFor(instrs, k, defs);
          SetGets(defs, i.dst, i.src.value, i.ty);
        } else {
          KillGets(defs, i.dst);
        }
      }
    } else {
      NoneYet();
    }
  }

  lemma {:induction false} NoneYet()
    ensures Folding.DistinctNames([]) && NamesOf([]) == {} && forall x :: Folding.DefGet([], x) == None
  {
  }

  /** One instruction more is scanned. */
  lemma {:induction false} LastStep(instrs: seq<Instr>, k: nat)
    requires 0 < k <= |instrs|
    ensures
      forall x, j: nat ::
        LastStore(instrs, k, x, j) <==>
          if StoresTo(instrs[k - 1], x) then j == k - 1 else LastStore(instrs, k - 1, x, j)
    ensures forall x :: NoStore(instrs, k, x) <==> !StoresTo(instrs[k - 1], x) && NoStore(instrs, k - 1, x)
    ensures LiteralSlots(instrs, k - 1) <= LiteralSlots(instrs, k)
    ensures
      instrs[k - 1].Store? && instrs[k - 1].src.Lit? ==> instrs[k - 1].dst in LiteralSlots(instrs, k)
  {
  }

  lemma {:induction false} RoomFor(instrs: seq<Instr>, k: nat, defs: seq<Folding.Def>)
    requires 0 < k <= |instrs| && instrs[k - 1].Store? && instrs[k - 1].src.Lit?
    requires |LiteralSlots(instrs, k)| <= Folding.MAX_DEFS && Folding.DistinctNames(defs)
    requires NamesOf(defs) <= LiteralSlots(instrs, k - 1)
    ensures instrs[k - 1].dst in NamesOf(defs) || |defs| < Folding.MAX_DEFS
  {
    var x := instrs[k - 1].dst;
    NamesCount(defs);
    if x !in NamesOf(defs) { Subset(NamesOf(defs) + {x}, LiteralSlots(instrs, k)); }
  }

  /** For every block and every load in it, as long as literals are stored to at most 1024 slots before it: if the last
      store to the slot in the block is of a literal, the load becomes that literal; if it is of something else, or
      there is none, the load stays. */
  lemma {:induction false} LoadExact(instrs: seq<Instr>, k: nat)
    requires k < |instrs| && instrs[k].Load? && |LiteralSlots(instrs, k)| <= Folding.MAX_DEFS
    ensures NoStore(instrs, k, instrs[k].slot) ==> Folding.FoldBlock(instrs)[k] == instrs[k]
    ensures
      forall j: nat :: LastStore(instrs, k, instrs[k].slot, j) ==>
                    Folding.FoldBlock(instrs)[k] == Loaded(instrs[k], instrs[j])
  {
    hide Folding.DefsAt, Folding.DefGet, LastStore, NoStore;
    TableStays(instrs, k);
  }

  // ----- nothing is left to do -----

  predicate Folded(op: BinOp) {
    || op == Add || op == Sub || op == Mul || op == Div || op == Mod
    || op == And || op == Or || op == Xor || op == Shl || op == Shr
  }

  /** The same temp twice. */
  predicate Twice(a: Operand, b: Operand) { a.Reg? && a == b && |a.name| > 0 && a.name[0] == 't' }

  /** No operation on two literals, but for adding zero to one; no operand that the result could be had without. */
  predicate SettledBin(op: BinOp, a: Operand, b: Operand) {
    && (a.Lit? && b.Lit? && Folded(op) ==> op == Add && b == Lit(0))
    && (b == Lit(0) ==> op != Sub && op != Mul && op != Or && op != Xor && op != Shl && op != Shr)
    && (b == Lit(1) ==> op != Mul && op != Div)
    && (b == Lit(2) ==> op != Mul)
    && (b == Lit(-1) ==> op != And)
    && (a == Lit(0) || a == Lit(1) ==> op != Mul)
    && (Twice(a, b) ==> op != Sub && op != Xor && op != And && op != Or)
  }

  /** Nor an extension of a literal, nor a comparison of a temp with itself. */
  predicate Settled(i: Instr) {
    match i
    case Bin(op, _, _, a, b) => SettledBin(op, a, b)
    case Conv(c, _, _, _, a) => a.Lit? ==> c == Trunc
    case Icmp(p, _, _, a, b) => Twice(a, b) ==> p != Eq
    case _ => true
  }

  /** One instruction ends the block, and it is no branch on a literal. */
  predicate SettledBlock(instrs: seq<Instr>) {
    && (forall k :: 0 <= k < |instrs| ==> Settled(instrs[k]))
    && (forall k :: 0 <= k < |instrs| - 1 ==> !IsTerm(instrs[k]))
    && (|instrs| > 0 ==> !(instrs[|instrs| - 1].BrCond? && instrs[|instrs| - 1].cond.Lit?))
  }

  lemma {:induction false} SimplifySettles(op: BinOp, dst: string, t: Ty, a: Operand, b: Operand)
    requires !(a.Lit? && b.Lit? && Folded(op))
    ensures
      var i := Folding.Simplify(op, dst, t, a, b);
      i.Bin? && SettledBin(i.op, i.a, i.b)
  {
    hide Folding.RewriteOf, SettledBin;
    match Folding.RewriteOf(op, a, b)
    case Keep => KeepSettles(op, a, b);
    case CopyA => CopySettles(a);
    case CopyB => CopySettles(b);
    case Zero => CopySettles(Lit(0));
    case TwiceA => TwiceSettles(op, a, b);
  }

  lemma {:induction false} KeepSettles(op: BinOp, a: Operand, b: Operand)
    requires Folding.RewriteOf(op, a, b).Keep? && !(a.Lit? && b.Lit? && Folded(op))
    ensures SettledBin(op, a, b)
  {
  }

  lemma {:induction false} CopySettles(a: Operand)
    ensures SettledBin(Add, a, Lit(0))
  {
  }

  lemma {:induction false} TwiceSettles(op: BinOp, a: Operand, b: Operand)
    requires Folding.RewriteOf(op, a, b).TwiceA? && !(a.Lit? && b.Lit? && Folded(op))
    ensures SettledBin(Add, a, a)
  {
  }

  /** Which operations on literals are folded. */
  lemma {:induction false} FoldedExact(op: BinOp, a: long, b: long)
    ensures Literals.Fold64(op, a, b).Some? <==> Folded(op)
  {
    hide Wrap, TruncDiv, TruncMod, Pow2;
  }

  lemma {:induction false} FoldSettles(i: Instr, defs: seq<Folding.Def>)
    ensures
      var r := Folding.FoldInstr(i, defs);
      (r.Bin? ==> SettledBin(r.op, r.a, r.b)) && (!r.Bin? ==> r == i)
  {
    hide Folding.DefGet, Literals.Fold64;
    if i.Bin? {
      if i.a.Lit? && i.b.Lit? { FoldedExact(i.op, i.a.value, i.b.value); }
      if !Folding.BothLiterals(i) { SimplifySettles(i.op, i.dst, i.ty, i.a, i.b); }
    }
  }

  lemma {:induction false} PeepSettles(i: Instr)
    requires i.Bin? ==> SettledBin(i.op, i.a, i.b)
    ensures Settled(PeepInstr(i)) && (IsTerm(PeepInstr(i)) ==> PeepInstr(i) == i)
  {
  }

  /** The blocks as they are after folding and the peephole. */
  lemma {:induction false} StageSettles(instrs: seq<Instr>)
    requires forall k :: 0 <= k < |instrs| - 1 ==> !IsTerm(instrs[k])
    ensures SettledBlock(ResolveTail(PeepBlock(Folding.FoldBlock(instrs))))
  {
    hide Folding.FoldInstr, PeepInstr, Settled, SettledBin;
    var p := PeepBlock(Folding.FoldBlock(instrs));
    forall k | 0 <= k < |instrs|
      ensures Settled(p[k]) && (k < |instrs| - 1 ==> !IsTerm(p[k]))
    {
      var defs := Folding.DefsAt(instrs, k);
      FoldSettles(instrs[k], defs);
      PeepSettles(Folding.FoldInstr(instrs[k], defs));
      OptCorrect.TermsKept(instrs[k], defs);
    }
    TailSettles(p);
  }

  lemma {:induction false} TailSettles(p: seq<Instr>)
    requires forall k :: 0 <= k < |p| ==> Settled(p[k])
    requires forall k :: 0 <= k < |p| - 1 ==> !IsTerm(p[k])
    ensures SettledBlock(ResolveTail(p))
  {
    if p != [] { BranchSettles(p[|p| - 1]); }
    hide Settled, ResolveBranch;
  }

  lemma {:induction false} BranchSettles(i: Instr)
    requires Settled(i)
    ensures Settled(ResolveBranch(i)) && !(ResolveBranch(i).BrCond? && ResolveBranch(i).cond.Lit?)
  {
  }

  // ----- the whole optimiser -----

  /** A block that is live in the end has been through every pass. */
  lemma {:induction false} LiveStages(f: seq<Block>, b: nat)
    requires b < |f| && !Optimize(f)[b].dead
    ensures Optimize(f)[b].instrs == ResolveTail(PeepBlock(Folding.FoldBlock(TrimInstrs(f[b].instrs))))
  {
    hide TrimInstrs, Folding.FoldBlock, PeepBlock, ResolveTail, Reachable;
    OptCorrect.SecondMarkShrinks(f);
  }

  /** For every function: nothing is left to do in any block that the optimiser keeps. */
  lemma {:induction false} OptimizeSettles(f: seq<Block>, b: nat)
    requires b < |f| && !Optimize(f)[b].dead
    ensures SettledBlock(Optimize(f)[b].instrs)
  {
    hide Optimize, Folding.FoldBlock, PeepBlock, ResolveTail, SettledBlock;
    LiveStages(f, b);
    StageSettles(TrimInstrs(f[b].instrs));
  }

  /** And every load in it that no terminator comes before is what the last store before it makes of it. */
  lemma {:induction false} OptimizeLoads(f: seq<Block>, b: nat, k: nat)
    requires b < |f| && !Optimize(f)[b].dead && k < |f[b].instrs| && f[b].instrs[k].Load?
    requires forall m :: 0 <= m < k ==> !IsTerm(f[b].instrs[m])
    requires |LiteralSlots(f[b].instrs, k)| <= Folding.MAX_DEFS
    ensures k < |Optimize(f)[b].instrs|
    ensures NoStore(f[b].instrs, k, f[b].instrs[k].slot) ==> Optimize(f)[b].instrs[k] == f[b].instrs[k]
    ensures
      forall j: nat :: LastStore(f[b].instrs, k, f[b].instrs[k].slot, j) ==>
                    Optimize(f)[b].instrs[k] == Loaded(f[b].instrs[k], f[b].instrs[j])
  {
    hide Optimize, Folding.FoldBlock, PeepBlock, ResolveTail, TrimInstrs, NoStore, Loaded, LiteralSlots;
    var was := f[b].instrs;
    var t := TrimInstrs(was);
    LiveStages(f, b);
    TrimKeeps(was, k);
    SameBefore(was, t, k);
    LoadExact(t, k);
    LoadBecomes(was, k);
    LoadKept(Folding.FoldBlock(t), k);
    forall j: nat | LastStore(was, k, was[k].slot, j)
      ensures Optimize(f)[b].instrs[k] == Loaded(was[k], was[j])
    {
      assert LastStore(t, k, t[k].slot, j) && t[j] == was[j];
    }
  }

  lemma {:induction false} TrimKeeps(instrs: seq<Instr>, k: nat)
    requires k < |instrs| && (forall m :: 0 <= m < k ==> !IsTerm(instrs[m])) && instrs[k].Load?
    ensures
      var t := TrimInstrs(instrs);
      k < |t| && forall m :: 0 <= m <= k ==> t[m] == instrs[m]
  {
  }

  lemma {:induction false} SameBefore(a: seq<Instr>, b: seq<Instr>, k: nat)
    requires k < |a| && k < |b| && forall m :: 0 <= m <= k ==> a[m] == b[m]
    ensures LiteralSlots(a, k) == LiteralSlots(b, k)
    ensures forall x :: NoStore(a, k, x) == NoStore(b, k, x)
    ensures forall x, j: nat :: LastStore(a, k, x, j) == LastStore(b, k, x, j)
  {
  }

  lemma {:induction false} LoadBecomes(instrs: seq<Instr>, k: nat)
    requires k < |instrs| && instrs[k].Load?
    ensures
      forall j: nat :: LastStore(instrs, k, instrs[k].slot, j) ==>
                         instrs[j].Store? && (Loaded(instrs[k], instrs[j]).Load? || Loaded(instrs[k], instrs[j]).Bin?)
  {
  }

  /** The later passes leave loads and sums with zero alone. */
  lemma {:induction false} LoadKept(instrs: seq<Instr>, k: nat)
    requires k < |instrs|
    ensures |ResolveTail(PeepBlock(instrs))| == |instrs|
    ensures instrs[k].Load? || instrs[k].Bin? ==> ResolveTail(PeepBlock(instrs))[k] == instrs[k]
  {
  }

  // ----- what a scan reports -----

  /** A literal plus zero, which is rewritten to itself. */
  predicate IsLiteral(i: Instr) { i.Bin? && i.op == Add && i.a.Lit? && i.b == Lit(0) }

  /** The scan of an instruction reports a change if and only if it makes one or the instruction is already a literal
      plus zero. */
  lemma {:induction false} ReportExact(i: Instr, defs: seq<Folding.Def>)
    ensures Folding.FoldReports(i, defs) <==> Folding.FoldInstr(i, defs) != i || IsLiteral(i)
  {
    if IsLiteral(i) {
      Folding.CopyFolds(i.dst, i.ty, i.a.value);
    } else if Folding.BothLiterals(i) {
      hide Literals.Fold64;
      FoldSettles(i, defs);
      FoldedExact(i.op, i.a.value, i.b.value);
    }
  }
}
