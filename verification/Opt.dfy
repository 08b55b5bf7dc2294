/** The optimiser as it runs: a bounded table and block records updated in place. */
module Opt {
  import opened Words
  import opened Fir
  import opened Literals
  import opened Folding
  import opened Passes
  import opened OptCorrect
  import Normal

  /** A basic block: its instruction list is rewritten and its mark set in place. */
  class FirBlock {
    const name: string
    var instrs: seq<Instr>
    var dead: bool

    constructor (name: string)
      ensures this.name == name && instrs == [] && !dead
    {
      this.name := name;
      instrs, dead := [], false;
    }

    function View(): Block
      reads this
    {
      Block(name, instrs, dead)
    }
  }

  function Views(bs: seq<FirBlock>): (r: seq<Block>)
    reads bs
    ensures |r| == |bs| && forall k :: 0 <= k < |bs| ==> r[k] == bs[k].View()
  {
    seq(|bs|, k requires 0 <= k < |bs| reads bs => bs[k].View())
  }

  predicate Distinct(bs: seq<FirBlock>) {
    forall i, j :: 0 <= i < j < |bs| ==> bs[i] != bs[j]
  }

  /** The table of known slots: the first `count` entries of a fixed array. */
  class DefTable {
    const defs: array<Def>
    var count: nat

    ghost predicate Valid()
      reads this
    {
      defs.Length == MAX_DEFS && count <= MAX_DEFS
    }

    ghost function Contents(): seq<Def>
      reads this, defs
      requires Valid()
    {
      defs[..count]
    }

    constructor ()
      ensures Valid() && fresh(defs) && Contents() == []
    {
      defs := new Def[MAX_DEFS](_ => Def("", 0, I64));
      count := 0;
    }

    method Clear()
      requires Valid()
      modifies this
      ensures Valid() && Contents() == []
    {
      count := 0;
    }

    method IndexIn(x: string) returns (i: nat)
      requires Valid()
      ensures i <= count
      ensures IndexOf(Contents(), x) == if i < count then Some(i) else None
    {
      i := 0;
      while i < count
        invariant 0 <= i <= count
        invariant IndexOf(Contents(), x) == IndexFrom(Contents(), x, i)
      {
        if defs[i].name == x { return; }
        i := i + 1;
      }
    }

    method Set(x: string, v: long, t: Ty)
      requires Valid()
      modifies this, defs
      ensures Valid() && Contents() == DefSet(old(Contents()), x, v, t)
    {
      var i := IndexIn(x);
      if i < count {
        defs[i] := Def(x, v, t);
      } else if count < MAX_DEFS {
        defs[count] := Def(x, v, t);
        count := count + 1;
      }
    }

    method Get(x: string) returns (v: Option<long>)
      requires Valid()
      ensures v == DefGet(Contents(), x)
    {
      var i := IndexIn(x);
      v := if i < count then Some(defs[i].val) else None;
    }

    method Kill(x: string)
      requires Valid()
      modifies this, defs
      ensures Valid() && Contents() == DefKill(old(Contents()), x)
    {
      var i := IndexIn(x);
      if i < count {
        count := count - 1;
        defs[i] := defs[count];
      }
    }
  }

  /** Rewrites the instruction at `k` and brings the table up to date. */
  method FoldAt(b: FirBlock, k: nat, tbl: DefTable) returns (changed: bool)
    requires tbl.Valid() && k < |b.instrs|
    modifies b`instrs, tbl, tbl.defs
    ensures tbl.Valid()
    ensures b.instrs == old(b.instrs)[k := FoldInstr(old(b.instrs[k]), old(tbl.Contents()))]
    ensures tbl.Contents() == DefsAfter(old(b.instrs[k]), old(tbl.Contents()))
    ensures changed <==> FoldReports(old(b.instrs[k]), old(tbl.Contents()))
  {
    changed := false;
    var i := b.instrs[k];
    match i {
      case Store(x, t, src) =>
        if src.Lit? { tbl.Set(x, src.value, t); } else { tbl.Kill(x); }
      case Load(dst, t, x) =>
        var c := tbl.Get(x);
        if c.Some? {
          b.instrs := b.instrs[k := Copy(dst, t, Lit(c.value))];
          changed := true;
        }
      case Bin(op, dst, t, x, y) =>
        var r := if BothLiterals(i) then Copy(dst, t, Lit(Fold64(op, x.value, y.value).value))
                 else Simplify(op, dst, t, x, y);
        if BothLiterals(i) || r != i {
          b.instrs := b.instrs[k := r];
          changed := true;
        }
      case _ =>
    }
  }

  /** Whether scanning the first `k` instructions reports a change. */
  ghost predicate ReportsWithin(instrs: seq<Instr>, k: nat)
    requires k <= |instrs|
  {
    k > 0 && (ReportsWithin(instrs, k - 1) || FoldReports(instrs[k - 1], DefsAt(instrs, k - 1)))
  }

  /** A scan of a block reports a change if and only if it makes one or finds a literal plus zero. */
  lemma {:induction false} ScanReports(instrs: seq<Instr>, k: nat)
    requires k <= |instrs|
    ensures
      ReportsWithin(instrs, k)
      <==> exists m :: 0 <= m < k && (FoldBlock(instrs)[m] != instrs[m] || Normal.IsLiteral(instrs[m]))
    decreases k
  {
    hide FoldInstr, FoldReports, DefsAt, Normal.IsLiteral;
    if k > 0 {
      ScanReports(instrs, k - 1);
      Normal.ReportExact(instrs[k - 1], DefsAt(instrs, k - 1));
    }
  }

  /** The block with its first `k` instructions rewritten. */
  ghost function FoldedTo(was: seq<Instr>, k: nat): seq<Instr>
    requires k <= |was|
  {
    FoldBlock(was)[..k] + was[k..]
  }

  lemma FoldedToNext(was: seq<Instr>, k: nat)
    requires k < |was|
    ensures |FoldedTo(was, k)| == |was| && FoldedTo(was, k)[k] == was[k]
    ensures FoldedTo(was, k + 1) == FoldedTo(was, k)[k := FoldInstr(was[k], DefsAt(was, k))]
    ensures DefsAt(was, k + 1) == DefsAfter(was[k], DefsAt(was, k))
  {
    hide FoldInstr, DefsAfter;
  }

  lemma FoldedToEnds(was: seq<Instr>)
    ensures FoldedTo(was, 0) == was && FoldedTo(was, |was|) == FoldBlock(was) && DefsAt(was, 0) == []
  {
    hide FoldBlock;
  }

  /** One scan of a block. Reports whether it rewrote anything. */
  method FoldInPlace(b: FirBlock, tbl: DefTable) returns (changed: bool)
    requires tbl.Valid()
    modifies b`instrs, tbl, tbl.defs
    ensures tbl.Valid() && b.instrs == FoldBlock(old(b.instrs))
    ensures changed <==> ReportsWithin(old(b.instrs), |old(b.instrs)|)
  {
    hide FoldBlock, FoldInstr, DefsAfter, FoldReports, FoldedTo, DefsAt;
    changed := false;
    tbl.Clear();
    ghost var was := b.instrs;
    FoldedToEnds(was);
    var k, n := 0, |b.instrs|;
    while k < n
      invariant 0 <= k <= n == |was| && tbl.Valid()
      invariant tbl.Contents() == DefsAt(was, k)
      invariant b.instrs == FoldedTo(was, k)
      invariant changed <==> ReportsWithin(was, k)
    {
      ghost var cur, defs := b.instrs, tbl.Contents();
      FoldedToNext(was, k);
      var here := FoldAt(b, k, tbl);
      assert b.instrs == cur[k := FoldInstr(was[k], defs)];
      changed := changed || here;
      k := k + 1;
    }
  }

  method RemoveTrailing(b: FirBlock)
    modifies b`instrs
    ensures b.instrs == TrimInstrs(old(b.instrs))
  {
    var k := 0;
    while k < |b.instrs|
      invariant 0 <= k <= |b.instrs|
      invariant b.instrs == old(b.instrs)
      invariant forall j :: 0 <= j < k ==> !IsTerm(b.instrs[j])
    {
      if IsTerm(b.instrs[k]) {
        assert k == FirstTerm(b.instrs);
        b.instrs := b.instrs[..k + 1];
        return;
      }
      k := k + 1;
    }
  }

  // ----- marking -----

  ghost function Marks(bs: seq<FirBlock>): (m: seq<bool>)
    reads bs
    ensures |m| == |bs| && forall k :: 0 <= k < |bs| ==> m[k] == bs[k].dead
  {
    seq(|bs|, k requires 0 <= k < |bs| reads bs => bs[k].dead)
  }

  ghost function DeadSet(m: seq<bool>): set<nat> {
    set k: nat | k < |m| && m[k]
  }

  ghost function DeadCount(m: seq<bool>): nat {
    |DeadSet(m)|
  }

  lemma ProperSubsetSmaller(a: set<nat>, b: set<nat>)
    requires a < b
    ensures |a| < |b|
  {
    assert b == a + (b - a);
    assert |b| == |a| + |b - a|;
  }

  /** The blocks still have the names and instructions of `f`. */
  ghost predicate Unmoved(bs: seq<FirBlock>, f: seq<Block>)
    reads bs
  {
    |f| == |bs| && forall k :: 0 <= k < |bs| ==> bs[k].name == f[k].name && bs[k].instrs == f[k].instrs
  }

  /** The marks once the blocks that `last` may jump to are revived. */
  ghost function Revived(m: seq<bool>, f: seq<Block>, last: Instr): (r: seq<bool>)
    requires |m| == |f|
    ensures |r| == |m| && forall k :: 0 <= k < |m| ==> r[k] == (m[k] && !Targets(last, f[k].name))
  {
    seq(|m|, k requires 0 <= k < |m| => m[k] && !Targets(last, f[k].name))
  }

  /** Revives block `t` if it is dead and `last` may jump to it. */
  method ReviveAt(bs: seq<FirBlock>, t: nat, last: Instr, ghost f: seq<Block>) returns (here: bool)
    requires Distinct(bs) && Unmoved(bs, f) && t < |bs|
    modifies bs
    ensures Unmoved(bs, f)
    ensures Marks(bs) == old(Marks(bs))[t := old(Marks(bs))[t] && !Targets(last, f[t].name)]
    ensures here <==> old(Marks(bs))[t] && Targets(last, f[t].name)
  {
    hide Targets;
    here := bs[t].dead && Targets(last, bs[t].name);
    if here { bs[t].dead := false; }
  }

  /** The marks once the first `t` blocks have been looked at. */
  ghost function RevivedTo(m: seq<bool>, f: seq<Block>, last: Instr, t: nat): (r: seq<bool>)
    requires |m| == |f| && t <= |m|
    ensures |r| == |m|
    ensures forall k :: 0 <= k < |m| ==> r[k] == (m[k] && (k < t ==> !Targets(last, f[k].name)))
  {
    if t == 0 then m
    else
      var r := RevivedTo(m, f, last, t - 1);
      r[t - 1 := r[t - 1] && !Targets(last, f[t - 1].name)]
  }

  lemma RevivedToStep(m: seq<bool>, f: seq<Block>, last: Instr, t: nat)
    requires |m| == |f| && t < |m|
    ensures
      var r := RevivedTo(m, f, last, t);
      && r[t] == m[t]
      && RevivedTo(m, f, last, t + 1) == r[t := r[t] && !Targets(last, f[t].name)]
      && (RevivedTo(m, f, last, t + 1) != m <==> r != m || (m[t] && Targets(last, f[t].name)))
  {
    var r, r' := RevivedTo(m, f, last, t), RevivedTo(m, f, last, t + 1);
    if r != m {
      var k :| 0 <= k < |m| && r[k] != m[k];
      assert r'[k] != m[k];
    }
  }

  lemma RevivedToEnds(m: seq<bool>, f: seq<Block>, last: Instr)
    requires |m| == |f|
    ensures RevivedTo(m, f, last, 0) == m && RevivedTo(m, f, last, |m|) == Revived(m, f, last)
  {
  }

  /** Revives the dead blocks that `last` may jump to. */
  method Revive(bs: seq<FirBlock>, last: Instr, ghost f: seq<Block>) returns (changed: bool)
    requires Distinct(bs) && Unmoved(bs, f)
    modifies bs
    ensures Unmoved(bs, f) && Marks(bs) == Revived(old(Marks(bs)), f, last)
    ensures changed <==> Marks(bs) != old(Marks(bs))
  {
    hide Targets, Marks, Revived, RevivedTo;
    changed := false;
    ghost var was := Marks(bs);
    RevivedToEnds(was, f, last);
    var t := 0;
    while t < |bs|
      invariant 0 <= t <= |bs| && Unmoved(bs, f)
      invariant Marks(bs) == RevivedTo(was, f, last, t)
      invariant changed <==> RevivedTo(was, f, last, t) != was
    {
      RevivedToStep(was, f, last, t);
      var here := ReviveAt(bs, t, last, f);
      changed := changed || here;
      t := t + 1;
    }
  }

  /** The entry is live, and every live block is reachable. */
  ghost predicate LiveReachable(m: seq<bool>, f: seq<Block>) {
    |m| == |f| > 0 && !m[0] && forall k :: 0 <= k < |m| && !m[k] ==> Reachable(f, k)
  }

  /** Block `k`, if live, leads only to live blocks. */
  ghost predicate ClosedAt(m: seq<bool>, f: seq<Block>, k: nat)
    requires k < |m|
  {
    !m[k] ==> forall j: nat :: j < |m| && Edge(f, k, j) ==> !m[j]
  }

  /** Live blocks that are reachable and closed under jumps are all the reachable blocks. */
  lemma ClosedIsReachable(m: seq<bool>, f: seq<Block>, k: nat)
    requires LiveReachable(m, f) && k < |f| && Reachable(f, k)
    requires forall i :: 0 <= i < |m| ==> ClosedAt(m, f, i)
    ensures !m[k]
  {
    var live := set i: nat | i < |m| && !m[i];
    var p :| IsPath(f, p) && p[|p| - 1] == k;
    forall i: nat, j: nat | i in live && Edge(f, i, j)
      ensures j in live
    {
      assert ClosedAt(m, f, i);
    }
    ReachableWithin(f, live, p);
  }

  lemma {:induction false} MarksExact(m: seq<bool>, f: seq<Block>)
    requires LiveReachable(m, f)
    requires forall i :: 0 <= i < |m| ==> ClosedAt(m, f, i)
    ensures |m| == |f| && forall k :: 0 <= k < |m| ==> (m[k] <==> !Reachable(f, k))
  {
    forall k: nat | k < |f| && Reachable(f, k)
      ensures !m[k]
    {
      ClosedIsReachable(m, f, k);
    }
  }

  /** What reviving the targets of live block `b` does to the marks. */
  lemma RevivedMarks(was: seq<bool>, f: seq<Block>, b: nat, last: Instr)
    requires LiveReachable(was, f) && b < |f| && !was[b]
    requires |f[b].instrs| > 0 && last == f[b].instrs[|f[b].instrs| - 1]
    ensures
      var m := Revived(was, f, last);
      && LiveReachable(m, f) && ClosedAt(m, f, b) && DeadSet(m) <= DeadSet(was)
      && (m != was ==> DeadSet(m) != DeadSet(was))
  {
    var m := Revived(was, f, last);
    forall k | 0 <= k < |m| && !m[k]
      ensures Reachable(f, k)
    {
      if was[k] { ReachableStep(f, b, k); }
    }
    if m != was {
      var k :| 0 <= k < |m| && m[k] != was[k];
      assert k in DeadSet(was) && k !in DeadSet(m);
    }
  }

  /** One block's turn in a sweep. */
  method SweepAt(bs: seq<FirBlock>, b: nat, ghost f: seq<Block>) returns (changed: bool)
    requires Distinct(bs) && Unmoved(bs, f) && LiveReachable(Marks(bs), f) && b < |bs|
    modifies bs
    ensures Unmoved(bs, f) && LiveReachable(Marks(bs), f)
    ensures DeadSet(Marks(bs)) <= old(DeadSet(Marks(bs)))
    ensures changed ==> DeadSet(Marks(bs)) != old(DeadSet(Marks(bs)))
    ensures !changed ==> Marks(bs) == old(Marks(bs)) && ClosedAt(Marks(bs), f, b)
  {
    hide LiveReachable, DeadSet, Targets;
    changed := false;
    ghost var was := Marks(bs);
    if bs[b].dead || |bs[b].instrs| == 0 { return; }
    var last := bs[b].instrs[|bs[b].instrs| - 1];
    RevivedMarks(was, f, b, last);
    changed := Revive(bs, last, f);
  }

  /** One sweep over the list. If it revives nothing, the live blocks are closed under jumps. */
  method Sweep(bs: seq<FirBlock>, ghost f: seq<Block>) returns (changed: bool)
    requires Distinct(bs) && Unmoved(bs, f) && LiveReachable(Marks(bs), f)
    modifies bs
    ensures Unmoved(bs, f) && LiveReachable(Marks(bs), f)
    ensures changed ==> DeadCount(Marks(bs)) < old(DeadCount(Marks(bs)))
    ensures !changed ==> Marks(bs) == old(Marks(bs))
    ensures !changed ==> forall k :: 0 <= k < |bs| ==> ClosedAt(Marks(bs), f, k)
  {
    hide LiveReachable, ClosedAt, DeadSet, Unmoved;
    changed := false;
    ghost var was := Marks(bs);
    var b := 0;
    while b < |bs|
      invariant 0 <= b <= |bs| && Unmoved(bs, f) && LiveReachable(Marks(bs), f)
      invariant DeadSet(Marks(bs)) <= DeadSet(was)
      invariant changed ==> DeadSet(Marks(bs)) != DeadSet(was)
      invariant !changed ==> Marks(bs) == was && forall k :: 0 <= k < b ==> ClosedAt(was, f, k)
    {
      var here := SweepAt(bs, b, f);
      changed := changed || here;
      b := b + 1;
    }
    if changed { ProperSubsetSmaller(DeadSet(Marks(bs)), DeadSet(was)); }
  }

  /** Sweeps until nothing is revived; each repeated sweep has fewer dead blocks. */
  method Spread(bs: seq<FirBlock>, ghost f: seq<Block>)
    requires Distinct(bs) && Unmoved(bs, f) && LiveReachable(Marks(bs), f)
    modifies bs
    ensures Unmoved(bs, f)
    ensures forall k :: 0 <= k < |bs| ==> (bs[k].dead <==> !Reachable(f, k))
  {
    hide LiveReachable, ClosedAt, Unmoved, Reachable, DeadCount;
    var changed := true;
    while changed
      invariant Unmoved(bs, f) && LiveReachable(Marks(bs), f)
      invariant !changed ==> forall k :: 0 <= k < |bs| ==> ClosedAt(Marks(bs), f, k)
      decreases DeadCount(Marks(bs)), changed
    {
      changed := Sweep(bs, f);
    }
    MarksExact(Marks(bs), f);
  }

  /** Marks exactly the unreachable blocks dead. */
  method MarkDeadBlocks(bs: seq<FirBlock>)
    requires Distinct(bs)
    modifies bs
    ensures Views(bs) == Mark(old(Views(bs)))
  {
    ghost var f := Views(bs);
    var b := 0;
    while b < |bs|
      invariant 0 <= b <= |bs| && Unmoved(bs, f)
      invariant forall k :: 0 <= k < b ==> bs[k].dead
    {
      bs[b].dead := true;
      b := b + 1;
    }
    if |bs| > 0 {
      bs[0].dead := false;
      EntryReachable(f);
      Spread(bs, f);
    }
    assert Views(bs) == Mark(f);
  }

  // ----- the remaining passes -----

  method PeepholeInPlace(b: FirBlock)
    modifies b`instrs
    ensures b.instrs == PeepBlock(old(b.instrs))
  {
    var k := 0;
    while k < |b.instrs|
      invariant 0 <= k <= |b.instrs| == |old(b.instrs)|
      invariant forall j :: 0 <= j < k ==> b.instrs[j] == PeepInstr(old(b.instrs[j]))
      invariant forall j :: k <= j < |b.instrs| ==> b.instrs[j] == old(b.instrs[j])
    {
      var i := b.instrs[k];
      if i.Conv? && !i.conv.Trunc? && i.a.Lit? {
        b.instrs := b.instrs[k := Copy(i.dst, i.ty, i.a)];
      } else if i.Icmp? && i.pred == Eq && SameTemp(i.a, i.b) {
        b.instrs := b.instrs[k := Copy(i.dst, I1, Lit(1))];
      }
      k := k + 1;
    }
    assert b.instrs == PeepBlock(old(b.instrs));
  }

  method SimplifyBranch(b: FirBlock)
    modifies b`instrs
    ensures b.instrs == ResolveTail(old(b.instrs))
  {
    var n := |b.instrs|;
    if n > 0 && b.instrs[n - 1].BrCond? && b.instrs[n - 1].cond.Lit? {
      var last := b.instrs[n - 1];
      b.instrs := b.instrs[n - 1 := Br(if last.cond.value != 0 then last.thn else last.els)];
    }
  }

  // ----- each pass over the list of blocks -----

  method TrimBlocks(bs: seq<FirBlock>)
    requires Distinct(bs)
    modifies bs
    ensures Views(bs) == TrimAll(old(Views(bs)))
  {
    hide TrimInstrs;
    var b := 0;
    while b < |bs|
      invariant 0 <= b <= |bs|
      invariant forall k :: 0 <= k < b ==> bs[k].View() == TrimAll(old(Views(bs)))[k]
      invariant forall k :: b <= k < |bs| ==> bs[k].View() == old(bs[k].View())
    {
      RemoveTrailing(bs[b]);
      b := b + 1;
    }
    assert Views(bs) == TrimAll(old(Views(bs)));
  }

  /** A live block whose scan reports a change. */
  ghost predicate BlockReports(b: Block) {
    !b.dead && ReportsWithin(b.instrs, |b.instrs|)
  }

  /** One round of folding; a live block whose scan reports no change was already folded. */
  method FoldBlocks(bs: seq<FirBlock>, tbl: DefTable) returns (changed: bool)
    requires Distinct(bs) && tbl.Valid()
    modifies bs, tbl, tbl.defs
    ensures tbl.Valid() && Views(bs) == FoldLive(old(Views(bs)))
    ensures changed <==> exists k :: 0 <= k < |bs| && BlockReports(old(Views(bs))[k])
  {
    hide FoldBlock, ReportsWithin;
    ghost var was := Views(bs);
    changed := false;
    var b := 0;
    while b < |bs|
      invariant 0 <= b <= |bs| && tbl.Valid()
      invariant changed <==> exists k :: 0 <= k < b && BlockReports(was[k])
      invariant forall k :: 0 <= k < b ==> bs[k].View() == FoldLive(old(Views(bs)))[k]
      invariant forall k :: b <= k < |bs| ==> bs[k].View() == old(bs[k].View())
    {
      assert was[b] == bs[b].View();
      if !bs[b].dead {
        var here := FoldInPlace(bs[b], tbl);
        changed := changed || here;
      }
      b := b + 1;
    }
    assert Views(bs) == FoldLive(old(Views(bs)));
  }

  lemma FoldLiveIdempotent(f: seq<Block>)
    ensures FoldLive(FoldLive(f)) == FoldLive(f)
  {
    forall k | 0 <= k < |f|
      ensures FoldLive(FoldLive(f))[k] == FoldLive(f)[k]
    {
      FoldBlockIdempotent(f[k].instrs);
    }
  }

  method PeepholeBlocks(bs: seq<FirBlock>)
    requires Distinct(bs)
    modifies bs
    ensures Views(bs) == PeepLive(old(Views(bs)))
  {
    hide PeepBlock;
    var b := 0;
    while b < |bs|
      invariant 0 <= b <= |bs|
      invariant forall k :: 0 <= k < b ==> bs[k].View() == PeepLive(old(Views(bs)))[k]
      invariant forall k :: b <= k < |bs| ==> bs[k].View() == old(bs[k].View())
    {
      if !bs[b].dead { PeepholeInPlace(bs[b]); }
      b := b + 1;
    }
    assert Views(bs) == PeepLive(old(Views(bs)));
  }

  method SimplifyBranches(bs: seq<FirBlock>)
    requires Distinct(bs)
    modifies bs
    ensures Views(bs) == ResolveLive(old(Views(bs)))
  {
    hide ResolveTail;
    var b := 0;
    while b < |bs|
      invariant 0 <= b <= |bs|
      invariant forall k :: 0 <= k < b ==> bs[k].View() == ResolveLive(old(Views(bs)))[k]
      invariant forall k :: b <= k < |bs| ==> bs[k].View() == old(bs[k].View())
    {
      if !bs[b].dead { SimplifyBranch(bs[b]); }
      b := b + 1;
    }
    assert Views(bs) == ResolveLive(old(Views(bs)));
  }

  const MAX_ROUNDS := 16

  /** The optimiser on one function: up to sixteen folding rounds between the other passes. The rounds
      amount to one, and every defined run of the function is followed step by step. */
  method MirOpt(bs: seq<FirBlock>, tbl: DefTable)
    requires Distinct(bs) && tbl.Valid()
    modifies bs, tbl, tbl.defs
    ensures tbl.Valid() && Views(bs) == Optimize(old(Views(bs)))
    ensures forall b :: 0 <= b < |bs| && !bs[b].dead ==> Normal.SettledBlock(bs[b].instrs)
    ensures forall w, args, n: nat ::
      |bs| > 0 && NoneDead(old(Views(bs))) && OptSafe(old(Views(bs))) && !Run(old(Views(bs)), w, Start(args), n).Stuck?
      ==> Run(Views(bs), w, Start(args), n) == Run(old(Views(bs)), w, Start(args), n)
  {
    hide FoldLive, PeepLive, ResolveLive, TrimAll, Mark, Run, OptSafe, NoneDead;
    ghost var f := Views(bs);
    TrimBlocks(bs);
    MarkDeadBlocks(bs);
    ghost var g := Mark(TrimAll(f));
    var changed, iter := true, 0;
    while iter < MAX_ROUNDS && changed
      invariant 0 <= iter <= MAX_ROUNDS && tbl.Valid()
      invariant iter == 0 ==> changed
      invariant Views(bs) == if iter == 0 then g else FoldLive(g)
    {
      FoldLiveIdempotent(g);
      changed := FoldBlocks(bs, tbl);
      iter := iter + 1;
    }
    PeepholeBlocks(bs);
    SimplifyBranches(bs);
    MarkDeadBlocks(bs);
    forall b | 0 <= b < |bs| && !bs[b].dead
      ensures Normal.SettledBlock(bs[b].instrs)
    {
      assert Views(bs)[b] == bs[b].View();
      Normal.OptimizeSettles(f, b);
    }
    forall w, args, n: nat |
      |bs| > 0 && NoneDead(f) && OptSafe(f) && !Run(f, w, Start(args), n).Stuck?
      ensures Run(Views(bs), w, Start(args), n) == Run(f, w, Start(args), n)
    {
      OptimizePreserves(f, w, args, n);
    }
  }
}
