/** The compiler's middle end as a whole: lower, then optimise. */
module Compile {
  import opened Fir
  import opened Source
  import opened LowerFn
  import opened LowerSafe
  import OptCorrect
  import Passes

  /** A function that never does anything undefined. */
  ghost predicate AlwaysDefined(cx: Ctx, w: World, ps: seq<Param>, body: Stmts, args: seq<int>) {
    |ps| == |args| && forall fuel: nat :: !Apply(cx, w, ps, body, args, fuel).Undefined?
  }

  /** Its translation never gets the machine stuck. */
  lemma {:induction false} NeverStuck(cx: Ctx, w: World, ps: seq<Param>, body: Stmts, tmp: nat, lbl: nat,
                                      args: seq<int>, n: nat)
    requires FnOk(cx, ps, body) && ArgsFit(ps, args) && AlwaysDefined(cx, w, ps, body, args)
    ensures !Run(EmitFn(cx, ps, body, tmp, lbl).blocks, w, Start(ArgMap(ps, args)), n).Stuck?
  {
    hide EmitFn, FnOk, ArgsFit, Apply, Run, ArgMap, Start;
    var f, c := EmitFn(cx, ps, body, tmp, lbl).blocks, Start(ArgMap(ps, args));
    var m, s := FnSim(cx, w, ps, body, tmp, lbl, args, n);
    if m <= n && Run(f, w, c, m).Done? { DoneAgree(f, w, c, m, n); }
    if n <= m && Run(f, w, c, n).Stuck? {
      RunAdd(f, w, c, n, m - n);
      StuckStays(f, w, m - n);
    }
  }

  /** Optimised, it runs in lockstep with the translation. */
  lemma {:induction false} OptimisedLockstep(cx: Ctx, w: World, ps: seq<Param>, body: Stmts, tmp: nat, lbl: nat,
                                             args: seq<int>, n: nat)
    requires FnOk(cx, ps, body) && ArgsFit(ps, args) && AlwaysDefined(cx, w, ps, body, args) && FnLits(cx, ps, body)
    ensures
      var f := EmitFn(cx, ps, body, tmp, lbl).blocks;
      Run(Passes.Optimize(f), w, Start(ArgMap(ps, args)), n) == Run(f, w, Start(ArgMap(ps, args)), n)
  {
    hide EmitFn, FnOk, ArgsFit, Run, ArgMap, Start, FnLits, Passes.OptSafe, AlwaysDefined, Passes.Optimize;
    var f := EmitFn(cx, ps, body, tmp, lbl).blocks;
    FitSize(ps, args);
    NeverStuck(cx, w, ps, body, tmp, lbl, args, n);
    FnWellFormed(cx, ps, body, tmp, lbl);
    FnOptSafe(cx, ps, body, tmp, lbl);
    OptCorrect.OptimizePreserves(f, w, ArgMap(ps, args), n);
  }

  /** For every function that is always defined, every callee behaviour and all arguments: the compiled
      and optimised blocks return a result, having made certain calls, if and only if the source does. */
  lemma {:induction false} CompiledExact(cx: Ctx, w: World, ps: seq<Param>, body: Stmts, tmp: nat, lbl: nat,
                                         args: seq<int>, v: Option<int>, tr: seq<Event>)
    requires FnOk(cx, ps, body) && ArgsFit(ps, args) && AlwaysDefined(cx, w, ps, body, args) && FnLits(cx, ps, body)
    ensures
      var f := Passes.Optimize(EmitFn(cx, ps, body, tmp, lbl).blocks);
      (exists fuel: nat :: Apply(cx, w, ps, body, args, fuel) == Result(v, tr))
      <==> exists n: nat, s :: Run(f, w, Start(ArgMap(ps, args)), n) == Done(v, s) && s.trace == tr
  {
    hide EmitFn, FnOk, ArgsFit, Run, ArgMap, Start, FnLits, Passes.Optimize, Apply;
    FitSize(ps, args);
    var g, c := EmitFn(cx, ps, body, tmp, lbl).blocks, Start(ArgMap(ps, args));
    var f := Passes.Optimize(g);
    FnExact(cx, w, ps, body, tmp, lbl, args, v, tr);
    if n: nat, s :| Run(g, w, c, n) == Done(v, s) && s.trace == tr {
      OptimisedLockstep(cx, w, ps, body, tmp, lbl, args, n);
      assert Run(f, w, c, n) == Done(v, s) && s.trace == tr;
    }
    if n: nat, s :| Run(f, w, c, n) == Done(v, s) && s.trace == tr {
      OptimisedLockstep(cx, w, ps, body, tmp, lbl, args, n);
      assert Run(g, w, c, n) == Done(v, s) && s.trace == tr;
    }
  }

  /** And they run for ever if the source does. */
  lemma {:induction false} CompiledDiverges(cx: Ctx, w: World, ps: seq<Param>, body: Stmts, tmp: nat, lbl: nat,
                                            args: seq<int>, n: nat)
    requires FnOk(cx, ps, body) && ArgsFit(ps, args) && FnLits(cx, ps, body)
    requires forall fuel: nat :: Apply(cx, w, ps, body, args, fuel).StillRunning?
    ensures Run(Passes.Optimize(EmitFn(cx, ps, body, tmp, lbl).blocks), w, Start(ArgMap(ps, args)), n).Running?
  {
    hide EmitFn, FnOk, ArgsFit, Run, ArgMap, Start, FnLits, Passes.Optimize, Apply;
    FitSize(ps, args);
    FnDiverges(cx, w, ps, body, tmp, lbl, args, n);
    OptimisedLockstep(cx, w, ps, body, tmp, lbl, args, n);
  }
}
