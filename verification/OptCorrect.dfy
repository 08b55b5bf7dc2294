/** The whole optimiser preserves every defined run. */
module OptCorrect {
  import opened Fir
  import opened Folding
  import opened Passes

  lemma FoldKeepsConv(i: Instr, defs: seq<Def>)
    requires ConvSafe(i)
    ensures ConvSafe(FoldInstr(i, defs))
  {
  }

  /** Folding and peephole leave terminators alone and make none. */
  lemma TermsKept(i: Instr, defs: seq<Def>)
    ensures IsTerm(i) || IsTerm(PeepInstr(FoldInstr(i, defs))) ==> PeepInstr(FoldInstr(i, defs)) == i
  {
  }

  lemma TailsKept(f: seq<Block>, b: nat)
    requires b < |f| && |f[b].instrs| > 0
    ensures
      var n, g := |f[b].instrs| - 1, PeepLive(FoldLive(f));
      |g[b].instrs| == n + 1 && (IsTerm(f[b].instrs[n]) || IsTerm(g[b].instrs[n]) ==> g[b].instrs[n] == f[b].instrs[n])
  {
    hide FoldInstr, PeepInstr, DefsAt, IsTerm;
    var n, h := |f[b].instrs| - 1, FoldLive(f);
    var defs := DefsAt(f[b].instrs, n);
    TermsKept(f[b].instrs[n], defs);
    assert !f[b].dead ==> h[b].instrs[n] == FoldInstr(f[b].instrs[n], defs);
  }

  lemma EdgesKept(f: seq<Block>, a: nat, b: nat)
    ensures Edge(PeepLive(FoldLive(f)), a, b) == Edge(f, a, b)
  {
    if a < |f| && |f[a].instrs| > 0 { TailsKept(f, a); }
  }

  lemma EdgesResolved(f: seq<Block>, a: nat, b: nat)
    requires Edge(ResolveLive(f), a, b)
    ensures Edge(f, a, b)
  {
  }

  /** Trimming only drops instructions. */
  lemma TrimmedSafe(f: seq<Block>, b: nat, k: nat)
    requires OptSafe(f) && b < |f| && k < |TrimAll(f)[b].instrs|
    ensures k < |f[b].instrs| && TrimAll(f)[b].instrs[k] == f[b].instrs[k]
    ensures InstrSafe(f, TrimAll(f)[b].instrs[k])
    ensures k < |TrimAll(f)[b].instrs| - 1 ==> !IsTerm(TrimAll(f)[b].instrs[k])
  {
  }

  lemma FirstStagesSafe(f: seq<Block>)
    requires OptSafe(f)
    ensures
      var g := Mark(TrimAll(f));
      AllTrimmed(g) && AllFoldSafe(g) && AllConvSafe(g)
  {
    var g := Mark(TrimAll(f));
    forall b, k | 0 <= b < |g| && 0 <= k < |g[b].instrs|
      ensures FoldInstrSafe(g[b].instrs[k]) && ConvSafe(g[b].instrs[k])
      ensures k < |g[b].instrs| - 1 ==> !IsTerm(g[b].instrs[k])
    {
      TrimmedSafe(f, b, k);
    }
  }

  /** Folding keeps the peephole's condition. */
  lemma FoldedConvSafe(g: seq<Block>)
    requires AllConvSafe(g)
    ensures AllConvSafe(FoldLive(g))
  {
    var h := FoldLive(g);
    forall b, k | 0 <= b < |h| && 0 <= k < |h[b].instrs|
      ensures ConvSafe(h[b].instrs[k])
    {
      FoldKeepsConv(g[b].instrs[k], DefsAt(g[b].instrs, k));
    }
  }

  /** No pass after trimming turns an instruction into a terminator. */
  lemma StaysTrimmed(g: seq<Block>)
    requires AllTrimmed(g)
    ensures AllTrimmed(PeepLive(FoldLive(g)))
  {
    var p := PeepLive(FoldLive(g));
    forall b | 0 <= b < |p|
      ensures Trimmed(p[b].instrs)
    {
      forall k | 0 <= k < |p[b].instrs| - 1
        ensures !IsTerm(p[b].instrs[k])
      {
        assert !IsTerm(g[b].instrs[k]);
        assert !IsTerm(FoldInstr(g[b].instrs[k], DefsAt(g[b].instrs, k)));
      }
    }
  }

  /** After the first marking, a live block's final branch leads to live blocks only. */
  lemma TargetsLive(f: seq<Block>, b: nat, l: string)
    requires NoneDead(f)
    requires
      var g := Mark(TrimAll(f));
      && b < |g| && !g[b].dead && |g[b].instrs| > 0
      && Targets(g[b].instrs[|g[b].instrs| - 1], l) && HasLabel(f, l)
    ensures Find(Mark(TrimAll(f)), l).Some?
  {
    var t := TrimAll(f);
    var j :| 0 <= j < |f| && f[j].name == l;
    ReachableStep(t, b, j);
    assert Mark(t)[j].name == l && !Mark(t)[j].dead;
  }

  lemma TailBranchSafe(f: seq<Block>, b: nat)
    requires OptSafe(f) && NoneDead(f)
    requires
      var g := Mark(TrimAll(f));
      && b < |g| && !g[b].dead && |g[b].instrs| > 0
      && g[b].instrs[|g[b].instrs| - 1].BrCond? && g[b].instrs[|g[b].instrs| - 1].cond.Lit?
    ensures
      var g := Mark(TrimAll(f));
      var i := g[b].instrs[|g[b].instrs| - 1];
      && (i.cond.value == 0 || i.cond.value % 2 == 1)
      && Find(g, i.thn).Some? && Find(g, i.els).Some?
  {
    var g := Mark(TrimAll(f));
    var n := |g[b].instrs| - 1;
    TrimmedSafe(f, b, n);
    TargetsLive(f, b, g[b].instrs[n].thn);
    TargetsLive(f, b, g[b].instrs[n].els);
  }

  lemma ShapeKept(g: seq<Block>)
    ensures SameShape(g, PeepLive(FoldLive(g)))
  {
  }

  lemma TailResolvesKept(g: seq<Block>, b: nat)
    requires b < |g| && TailResolves(g, b)
    ensures TailResolves(PeepLive(FoldLive(g)), b)
  {
    var p := PeepLive(FoldLive(g));
    ShapeKept(g);
    if |g[b].instrs| > 0 {
      TailsKept(g, b);
      var i := p[b].instrs[|p[b].instrs| - 1];
      if i.BrCond? {
        FindSame(g, p, i.thn);
        FindSame(g, p, i.els);
      }
    }
  }

  lemma StageTailResolves(f: seq<Block>, b: nat)
    requires OptSafe(f) && NoneDead(f) && b < |f| && !Mark(TrimAll(f))[b].dead
    ensures TailResolves(PeepLive(FoldLive(Mark(TrimAll(f)))), b)
  {
    var g := Mark(TrimAll(f));
    var n := |g[b].instrs|;
    if n > 0 && g[b].instrs[n - 1].BrCond? && g[b].instrs[n - 1].cond.Lit? {
      TailBranchSafe(f, b);
    }
    TailResolvesKept(g, b);
  }

  lemma StageBranchSafe(f: seq<Block>)
    requires OptSafe(f) && NoneDead(f)
    ensures AllBranchSafe(PeepLive(FoldLive(Mark(TrimAll(f)))))
  {
    var p := PeepLive(FoldLive(Mark(TrimAll(f))));
    forall b | 0 <= b < |p| && !p[b].dead
      ensures TailResolves(p, b)
    {
      StageTailResolves(f, b);
    }
  }

  /** Resolving branches can only shrink the reachable set, so the second marking keeps a subset. */
  lemma {:induction false} SecondMarkShrinks(f: seq<Block>)
    ensures ReachableLive(ResolveLive(PeepLive(FoldLive(Mark(TrimAll(f))))))
    ensures forall b :: 0 <= b < |f| && !Optimize(f)[b].dead ==> !Mark(TrimAll(f))[b].dead
  {
    var t := TrimAll(f);
    var g := Mark(t);
    var p := PeepLive(FoldLive(g));
    var r := ResolveLive(p);
    forall b: nat | b < |f| && Reachable(r, b)
      ensures !r[b].dead
    {
      forall x, y | Edge(r, x, y)
        ensures Edge(t, x, y)
      {
        EdgesResolved(p, x, y);
        EdgesKept(g, x, y);
      }
      ReachableMono(t, r, b);
    }
  }

  lemma FoldPeepRun(g: seq<Block>, w: World, args: map<string, int>, n: nat)
    requires |g| > 0 && AllFoldSafe(g) && AllConvSafe(FoldLive(g))
    requires !Run(g, w, Start(args), n).Stuck?
    ensures Run(PeepLive(FoldLive(g)), w, Start(args), n) == Run(g, w, Start(args), n)
  {
    FoldRun(g, w, Start(args), n);
    PeepRun(FoldLive(g), w, Start(args), n);
  }

  lemma TrimMarkRun(f: seq<Block>, w: World, args: map<string, int>, n: nat)
    requires |f| > 0 && NoneDead(f)
    requires !Run(f, w, Start(args), n).Stuck?
    ensures Run(Mark(TrimAll(f)), w, Start(args), n) == Run(f, w, Start(args), n)
  {
    var t := TrimAll(f);
    TrimRun(f, w, Start(args), n);
    EntryReachable(t);
    MarkRun(t, w, Start(args), n);
  }

  lemma ResolveMarkRun(p: seq<Block>, w: World, args: map<string, int>, n: nat)
    requires |p| > 0 && AllTrimmed(p) && AllBranchSafe(p) && ReachableLive(ResolveLive(p))
    requires !Run(p, w, Start(args), n).Stuck?
    ensures Run(Mark(ResolveLive(p)), w, Start(args), n) == Run(p, w, Start(args), n)
    ensures InReach(ResolveLive(p), Run(p, w, Start(args), n))
  {
    var r := ResolveLive(p);
    ResolveRun(p, w, Start(args), n);
    EntryReachable(r);
    forall b | 0 <= b < |r|
      ensures Trimmed(r[b].instrs)
    {
      assert Trimmed(p[b].instrs);
    }
    MarkRun(r, w, Start(args), n);
  }

  /** For every function, every callee behaviour, every arguments and every number of steps: if the
      original run is defined so far, the optimised run is in the very same configuration, and it
      stands in a block that the optimiser keeps. */
  lemma {:induction false} OptimizePreserves(f: seq<Block>, w: World, args: map<string, int>, n: nat)
    requires |f| > 0 && NoneDead(f) && OptSafe(f)
    requires !Run(f, w, Start(args), n).Stuck?
    ensures Run(Optimize(f), w, Start(args), n) == Run(f, w, Start(args), n)
    ensures
      var c := Run(f, w, Start(args), n);
      c.Running? ==> c.blk < |f| && !Optimize(f)[c.blk].dead
  {
    var g := Mark(TrimAll(f));
    FirstStagesSafe(f);
    FoldedConvSafe(g);
    StaysTrimmed(g);
    StageBranchSafe(f);
    SecondMarkShrinks(f);
    TrimMarkRun(f, w, args, n);
    FoldPeepRun(g, w, args, n);
    ResolveMarkRun(PeepLive(FoldLive(g)), w, args, n);
  }
}
