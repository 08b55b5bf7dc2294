/** The checker's traversal of a function body, and what its acceptance guarantees of every run: a
    variable that was not declared mutable keeps the value it was declared with. */
module Check {
  import opened Words
  import opened Fir
  import opened Source
  import opened Sema
  import opened LowerCorrect

  // ----- the traversal -----

  predicate Known(scs: Scopes, x: string) {
    x == "null" || x == "nullptr" || ScLookup(scs, x).Some?
  }

  predicate CkExpr(scs: Scopes, e: Expr)
    decreases e
  {
    match e
    case Var(x) => Known(scs, x)
    case Unary(_, e1) => CkExpr(scs, e1)
    case Binary(_, l, r) => CkExpr(scs, l) && CkExpr(scs, r)
    case CallFn(fn, args) => Known(scs, fn) && CkExprs(scs, args)
    case _ => true
  }

  predicate CkExprs(scs: Scopes, es: Exprs)
    decreases es
  {
    match es
    case NoExprs => true
    case MoreExprs(e, rest) => CkExpr(scs, e) && CkExprs(scs, rest)
  }

  /** Assigning to a declared name needs it to be mutable. */
  predicate Writable(scs: Scopes, x: string) {
    var s := ScLookup(scs, x);
    s.Some? ==> s.value.mut
  }

  /** A step up or down only looks the name up. */
  predicate CkEffect(scs: Scopes, eff: Effect) {
    match eff
    case Assign(x, e) => Known(scs, x) && CkExpr(scs, e) && Writable(scs, x)
    case Compound(_, x, e) => Known(scs, x) && CkExpr(scs, e) && Writable(scs, x)
    case Increment(x) => Known(scs, x)
    case Decrement(x) => Known(scs, x)
    case Eval(e) => CkExpr(scs, e)
  }

  function ScAfter(scs: Scopes, s: Stmt): Scopes {
    if s.Decl? then ScDef(scs, Sym(s.x, s.mut)) else scs
  }

  function FirstScopes(scs: Scopes, first: Option<Stmt>): Scopes {
    if first.Some? then ScAfter(scs, first.value) else scs
  }

  predicate CkStmt(scs: Scopes, s: Stmt)
    decreases s, 0
  {
    match s
    case Decl(_, _, init, _) => init.Some? ==> CkExpr(scs, init.value)
    case Do(eff) => CkEffect(scs, eff)
    case Return(val) => val.Some? ==> CkExpr(scs, val.value)
    case If(c, thn, els) => CkExpr(scs, c) && CkBlock(scs, thn) && (els.Some? ==> CkStmt(scs, els.value))
    case While(c, body) => CkExpr(scs, c) && CkBlock(scs, body)
    case DoWhile(body, c) => CkExpr(scs, c) && CkBlock(scs, body)
    case ForC(first, test, step, body) =>
      var inner := FirstScopes(ScPush(scs), first);
      && (first.Some? ==> CkStmt(ScPush(scs), first.value)) && (test.Some? ==> CkExpr(inner, test.value))
      && (step.Some? ==> CkEffect(inner, step.value)) && CkBlock(inner, body)
    case Match(e, arms) => CkExpr(scs, e) && CkArms(scs, arms)
    case Scope(body) => CkBlock(scs, body)
    case _ => true
  }

  predicate CkBlock(scs: Scopes, ss: Stmts)
    decreases ss, 1
  {
    CkStmts(ScPush(scs), ss)
  }

  predicate CkStmts(scs: Scopes, ss: Stmts)
    decreases ss, 0
  {
    match ss
    case NoStmts => true
    case MoreStmts(s, rest) => CkStmt(scs, s) && CkStmts(ScAfter(scs, s), rest)
  }

  predicate CkArms(scs: Scopes, arms: Arms)
    decreases arms, 0
  {
    match arms
    case NoArms => true
    case MoreArms(_, body, rest) => CkStmt(ScPush(scs), body) && CkArms(scs, rest)
  }

  // ----- what the checker lets through -----

  /** No step up or down of a name that is declared read-only. */
  predicate StepOk(scs: Scopes, eff: Effect) {
    eff.Increment? || eff.Decrement? ==> Writable(scs, eff.x)
  }

  predicate NoFixedSteps(scs: Scopes, s: Stmt)
    decreases s, 0
  {
    match s
    case Do(eff) => StepOk(scs, eff)
    case If(_, thn, els) => BlockNoFixedSteps(scs, thn) && (els.Some? ==> NoFixedSteps(scs, els.value))
    case While(_, body) => BlockNoFixedSteps(scs, body)
    case DoWhile(body, _) => BlockNoFixedSteps(scs, body)
    case ForC(first, _, step, body) =>
      var inner := FirstScopes(ScPush(scs), first);
      && (first.Some? ==> NoFixedSteps(ScPush(scs), first.value))
      && (step.Some? ==> StepOk(inner, step.value)) && BlockNoFixedSteps(inner, body)
    case Match(_, arms) => ArmsNoFixedSteps(scs, arms)
    case Scope(body) => BlockNoFixedSteps(scs, body)
    case _ => true
  }

  predicate BlockNoFixedSteps(scs: Scopes, ss: Stmts)
    decreases ss, 1
  {
    AllNoFixedSteps(ScPush(scs), ss)
  }

  predicate AllNoFixedSteps(scs: Scopes, ss: Stmts)
    decreases ss, 0
  {
    match ss
    case NoStmts => true
    case MoreStmts(s, rest) => NoFixedSteps(scs, s) && AllNoFixedSteps(ScAfter(scs, s), rest)
  }

  predicate ArmsNoFixedSteps(scs: Scopes, arms: Arms)
    decreases arms, 0
  {
    match arms
    case NoArms => true
    case MoreArms(_, body, rest) => NoFixedSteps(ScPush(scs), body) && ArmsNoFixedSteps(scs, rest)
  }

  /** Both: no assignment and no step changes a read-only name. */
  predicate Sound(scs: Scopes, s: Stmt) { CkStmt(scs, s) && NoFixedSteps(scs, s) }

  predicate AllSound(scs: Scopes, ss: Stmts) { CkStmts(scs, ss) && AllNoFixedSteps(scs, ss) }

  predicate BlockSound(scs: Scopes, ss: Stmts) { CkBlock(scs, ss) && BlockNoFixedSteps(scs, ss) }

  predicate ArmsSound(scs: Scopes, arms: Arms) { CkArms(scs, arms) && ArmsNoFixedSteps(scs, arms) }

  predicate EffectSound(scs: Scopes, eff: Effect) { CkEffect(scs, eff) && StepOk(scs, eff) }

  // ----- running under the checker's eyes -----

  /** The environment's bindings are the last entries of the scopes. */
  ghost predicate Under(scs: Scopes, env: Env) {
    var all := Flat(scs);
    scs != [] && |env| <= |all| &&
    forall i :: 0 <= i < |env| ==> env[i].name == all[|all| - |env| + i].name
  }

  /** Whether the binding at `i` may change. */
  ghost predicate MayChange(scs: Scopes, env: Env, i: nat)
    requires Under(scs, env) && i < |env|
  {
    Flat(scs)[|Flat(scs)| - |env| + i].mut
  }

  /** The bindings of `env` are still there, the read-only ones with their values. */
  ghost predicate Kept(scs: Scopes, env: Env, env': Env)
    requires Under(scs, env)
  {
    |env'| >= |env| &&
    forall i :: 0 <= i < |env| ==> env'[i].name == env[i].name && (MayChange(scs, env, i) || env'[i] == env[i])
  }

  /** A statement's outcome, as far as it leaves an environment. */
  ghost predicate Keeps(scs: Scopes, env: Env, o: Outcome)
    requires Under(scs, env)
  {
    o.Normal? || o.Broke? || o.Continued? ==> Kept(scs, env, o.env)
  }

  lemma KeptSelf(scs: Scopes, env: Env)
    requires Under(scs, env)
    ensures Kept(scs, env, env)
  {
  }

  /** Outcomes that leave no environment. */
  lemma KeepsNothing(scs: Scopes, env: Env, o: Outcome)
    requires Under(scs, env) && !o.Normal? && !o.Broke? && !o.Continued?
    ensures Keeps(scs, env, o)
  {
  }

  lemma KeepsKept(scs: Scopes, env: Env, o: Outcome)
    requires Under(scs, env)
    ensures (o.Normal? || o.Broke? || o.Continued?) && Keeps(scs, env, o) ==> Kept(scs, env, o.env)
    ensures (o.Normal? || o.Broke? || o.Continued?) && Kept(scs, env, o.env) ==> Keeps(scs, env, o)
  {
  }

  /** An environment of the same length that keeps its bindings is under the same scopes. */
  lemma KeptUnder(scs: Scopes, env: Env, env': Env)
    requires Under(scs, env) && Kept(scs, env, env') && |env'| == |env|
    ensures Under(scs, env')
  {
    hide Flat;
  }

  lemma KeptThen(scs: Scopes, env: Env, m: Env, env': Env)
    requires Under(scs, env) && Kept(scs, env, m) && |m| == |env| && Under(scs, m) && Kept(scs, m, env')
    ensures Kept(scs, env, env')
  {
    hide Flat;
    forall i | 0 <= i < |env|
      ensures env'[i].name == env[i].name && (MayChange(scs, env, i) || env'[i] == env[i])
    {
      assert MayChange(scs, m, i) == MayChange(scs, env, i);
    }
  }

  lemma KeepsThen(scs: Scopes, env: Env, m: Env, o: Outcome)
    requires Under(scs, env) && Kept(scs, env, m) && |m| == |env| && Under(scs, m) && Keeps(scs, m, o)
    ensures Keeps(scs, env, o)
  {
    hide Flat, Kept, Under;
    if o.Normal? || o.Broke? || o.Continued? { KeptThen(scs, env, m, o.env); }
  }

  lemma UnderPush(scs: Scopes, env: Env)
    requires Under(scs, env)
    ensures Under(ScPush(scs), env) && ScPush(scs) != []
    ensures forall env': Env :: Kept(ScPush(scs), env, env') <==> Kept(scs, env, env')
  {
    hide Flat;
    FlatSteps(scs, Sym("", false));
  }

  lemma KeepsPush(scs: Scopes, env: Env, o: Outcome)
    requires Under(scs, env) && Under(ScPush(scs), env) && Keeps(ScPush(scs), env, o)
    ensures Keeps(scs, env, o)
  {
    hide Flat, Kept, Under;
    UnderPush(scs, env);
  }

  /** A new binding is under the scopes with its entry; what is kept then was kept before. */
  lemma UnderDef(scs: Scopes, env: Env, b: Binding, mut: bool)
    requires Under(scs, env)
    ensures Under(ScDef(scs, Sym(b.name, mut)), env + [b]) && Kept(scs, env, env + [b])
    ensures forall env': Env :: Kept(ScDef(scs, Sym(b.name, mut)), env + [b], env') ==> Kept(scs, env, env')
  {
    hide Flat;
    var scs', e := ScDef(scs, Sym(b.name, mut)), env + [b];
    FlatSteps(scs, Sym(b.name, mut));
    forall env': Env | Kept(scs', e, env')
      ensures Kept(scs, env, env')
    {
      forall i | 0 <= i < |env|
        ensures env'[i].name == env[i].name && (MayChange(scs, env, i) || env'[i] == env[i])
      {
        assert e[i] == env[i];
        assert MayChange(scs', e, i) == MayChange(scs, env, i);
      }
    }
  }

  /** Leaving cuts the environment back to where it was, or leaves it alone if it is shorter. */
  lemma KeepsLeave(scs: Scopes, env: Env, o: Outcome)
    requires Under(scs, env) && Keeps(scs, env, o)
    ensures Keeps(scs, env, Leave(o, |env|))
    ensures
      var r := Leave(o, |env|);
      r.Normal? || r.Broke? || r.Continued? ==> |r.env| == |env|
  {
    hide Flat;
  }

  /** What the environment finds is what the checker found. */
  lemma SameVariable(scs: Scopes, env: Env, x: string)
    requires Under(scs, env) && Lookup(env, x).Some?
    ensures MayChange(scs, env, Lookup(env, x).value) <==> Writable(scs, x)
  {
    hide Flat;
    LookupIsFlat(scs, x);
    var all, k := Flat(scs), Lookup(env, x).value;
    var n := |all| - |env| + k;
    forall j | n < j < |all|
      ensures all[j].name != x
    {
      assert env[j - (|all| - |env|)].name == all[j].name;
    }
    NewestUnique(all, x, n);
  }

  lemma EffectKeeps(cx: Ctx, w: World, scs: Scopes, eff: Effect, env: Env, tr: seq<Event>)
    requires Under(scs, env) && EffectSound(scs, eff)
    ensures
      var o := ExecEffect(cx, w, eff, env, tr);
      Keeps(scs, env, o) && (o.Normal? ==> |o.env| == |env|) && !o.Broke? && !o.Continued?
  {
    hide EvalExpr, Compute, Wrap, ScLookup, Known, CkExpr, Flat, Under;
    if !eff.Eval? && Lookup(env, eff.x).Some? {
      SameVariable(scs, env, eff.x);
    }
  }

  lemma SoundMeaning(scs: Scopes, s: Stmt)
    requires Sound(scs, s)
    ensures s.Do? ==> EffectSound(scs, s.eff)
    ensures s.If? ==> BlockSound(scs, s.thn) && (s.els.Some? ==> Sound(scs, s.els.value))
    ensures s.While? || s.DoWhile? || s.Scope? ==> BlockSound(scs, s.body)
    ensures s.Match? ==> ArmsSound(scs, s.arms)
    ensures s.ForC? ==>
      var inner := FirstScopes(ScPush(scs), s.first);
      && (s.first.Some? ==> Sound(ScPush(scs), s.first.value)) && (s.step.Some? ==> EffectSound(inner, s.step.value))
      && BlockSound(inner, s.body)
  {
    hide CkExpr, CkEffect, StepOk, FirstScopes, ScPush;
  }

  lemma BlockMeaning(scs: Scopes, ss: Stmts)
    requires BlockSound(scs, ss)
    ensures AllSound(ScPush(scs), ss)
  {
    hide CkStmts, AllNoFixedSteps;
  }

  lemma AllMeaning(scs: Scopes, s: Stmt, rest: Stmts)
    requires AllSound(scs, MoreStmts(s, rest))
    ensures Sound(scs, s) && AllSound(ScAfter(scs, s), rest)
  {
    hide CkStmt, NoFixedSteps, ScAfter;
  }

  lemma ArmsSoundMeaning(scs: Scopes, p: Pattern, body: Stmt, rest: Arms)
    requires ArmsSound(scs, MoreArms(p, body, rest))
    ensures Sound(ScPush(scs), body) && ArmsSound(scs, rest)
  {
    hide CkStmt, NoFixedSteps;
  }

  lemma ExecStmtsDef(cx: Ctx, w: World, s: Stmt, rest: Stmts, env: Env, tr: seq<Event>, fuel: nat)
    ensures
      var o := Exec(cx, w, s, env, tr, fuel);
      ExecStmts(cx, w, MoreStmts(s, rest), env, tr, fuel) == if o.Normal?
          then ExecStmts(cx, w, rest, o.env, o.trace, fuel) else o
    ensures ExecStmts(cx, w, NoStmts, env, tr, fuel) == Normal(env, tr)
  {
    hide Exec;
  }

  lemma ExecScopeDef(cx: Ctx, w: World, ss: Stmts, env: Env, tr: seq<Event>, fuel: nat)
    ensures ExecScope(cx, w, ss, env, tr, fuel) == Leave(ExecStmts(cx, w, ss, env, tr, fuel), |env|)
  {
    hide ExecStmts;
  }

  lemma DeclDef(cx: Ctx, w: World, s: Stmt, env: Env, tr: seq<Event>, fuel: nat) returns (b: Binding)
    requires s.Decl?
    ensures
      var o := Exec(cx, w, s, env, tr, fuel);
      (o.Normal? || o.Wrong?) && (o.Normal? ==> o.env == env + [b] && b.name == s.x)
  {
    hide EvalExpr, Wrap;
    var o := Exec(cx, w, s, env, tr, fuel);
    b := Binding(s.x, I32, 0);
    if o.Normal? { b := o.env[|env|]; }
  }

  // ----- every run of every accepted statement -----

  /** What is kept, and where the checker's scopes stand after a normal end. */
  ghost predicate Preserved(scs: Scopes, env: Env, s: Stmt, o: Outcome)
    requires Under(scs, env)
  {
    && Keeps(scs, env, o)
    && (o.Normal? ==> Under(ScAfter(scs, s), o.env))
    && (o.Normal? && !s.Decl? ==> |o.env| == |env|)
    && (o.Normal? ==> forall env': Env :: Kept(ScAfter(scs, s), o.env, env') ==> Kept(scs, env, env'))
  }

  /** A statement that declares nothing: the length says the rest. */
  lemma SameLength(scs: Scopes, env: Env, s: Stmt, o: Outcome)
    requires Under(scs, env) && !s.Decl? && Keeps(scs, env, o) && (o.Normal? ==> |o.env| == |env|)
    ensures Preserved(scs, env, s, o)
  {
    hide Under, Kept;
    if o.Normal? {
      KeptUnder(scs, env, o.env);
      forall env': Env | Kept(scs, o.env, env')
        ensures Kept(scs, env, env')
      {
        KeptThen(scs, env, o.env, env');
      }
    }
  }

  lemma PreservedParts(scs: Scopes, env: Env, s: Stmt, o: Outcome)
    requires Under(scs, env) && Preserved(scs, env, s, o)
    ensures Keeps(scs, env, o)
    ensures o.Normal? ==> Under(ScAfter(scs, s), o.env) && Kept(scs, env, o.env)
    ensures o.Normal? && !s.Decl? ==> |o.env| == |env|
  {
    hide Under, Kept, ScAfter;
  }

  lemma PreservedThen(scs: Scopes, env: Env, s: Stmt, o: Outcome, o': Outcome)
    requires Under(scs, env) && Preserved(scs, env, s, o) && o.Normal?
    requires Under(ScAfter(scs, s), o.env) && Keeps(ScAfter(scs, s), o.env, o')
    ensures Keeps(scs, env, o')
  {
    hide Under, Kept, ScAfter;
  }

  lemma StmtsKeep(cx: Ctx, w: World, scs: Scopes, ss: Stmts, env: Env, tr: seq<Event>, fuel: nat)
    requires Under(scs, env) && AllSound(scs, ss)
    ensures Keeps(scs, env, ExecStmts(cx, w, ss, env, tr, fuel))
    decreases fuel, ss, 0
  {
    hide *;
    match ss
    case NoStmts =>
      ExecStmtsDef(cx, w, Break, NoStmts, env, tr, fuel);
      KeptSelf(scs, env);
      KeepsKept(scs, env, Normal(env, tr));
    case MoreStmts(s, rest) =>
      ExecStmtsDef(cx, w, s, rest, env, tr, fuel);
      AllMeaning(scs, s, rest);
      var o := Exec(cx, w, s, env, tr, fuel);
      StmtKeeps(cx, w, scs, s, env, tr, fuel);
      PreservedParts(scs, env, s, o);
      if o.Normal? {
        StmtsKeep(cx, w, ScAfter(scs, s), rest, o.env, o.trace, fuel);
        PreservedThen(scs, env, s, o, ExecStmts(cx, w, rest, o.env, o.trace, fuel));
      }
  }

  lemma BlockKeeps(cx: Ctx, w: World, scs: Scopes, ss: Stmts, env: Env, tr: seq<Event>, fuel: nat)
    requires Under(scs, env) && BlockSound(scs, ss)
    ensures
      var o := ExecScope(cx, w, ss, env, tr, fuel);
      Keeps(scs, env, o) && (o.Normal? || o.Broke? || o.Continued? ==> |o.env| == |env|)
    decreases fuel, ss, 1
  {
    hide *;
    BlockMeaning(scs, ss);
    UnderPush(scs, env);
    StmtsKeep(cx, w, ScPush(scs), ss, env, tr, fuel);
    var o := ExecStmts(cx, w, ss, env, tr, fuel);
    KeepsPush(scs, env, o);
    KeepsLeave(scs, env, o);
    ExecScopeDef(cx, w, ss, env, tr, fuel);
  }

  lemma OnlyTrace(scs: Scopes, env: Env, tr: seq<Event>)
    requires Under(scs, env)
    ensures Keeps(scs, env, Normal(env, tr)) && Keeps(scs, env, Broke(env, tr)) && Keeps(scs, env, Continued(env, tr))
  {
    KeptSelf(scs, env);
  }

  lemma Nowhere(scs: Scopes, env: Env, v: Option<int>, tr: seq<Event>)
    requires Under(scs, env)
    ensures Keeps(scs, env, Wrong) && Keeps(scs, env, OutOfFuel) && Keeps(scs, env, Returned(v, tr))
  {
  }

  /** The same environment, another way out. */
  lemma KeepsEnv(scs: Scopes, env: Env, o: Outcome, tr: seq<Event>)
    requires Under(scs, env) && (o.Normal? || o.Broke? || o.Continued?) && Keeps(scs, env, o)
    ensures Keeps(scs, env, Normal(o.env, tr))
  {
  }

  /** For every accepted statement, every run from every environment: read-only variables are as they were. */
  lemma {:induction false} StmtKeeps(cx: Ctx, w: World, scs: Scopes, s: Stmt, env: Env, tr: seq<Event>, fuel: nat)
    requires Under(scs, env) && Sound(scs, s)
    ensures Preserved(scs, env, s, Exec(cx, w, s, env, tr, fuel))
    decreases fuel, s, 3
  {
    hide *;
    var o := Exec(cx, w, s, env, tr, fuel);
    SoundMeaning(scs, s);
    LoopMeaning(cx, w, s, env, tr, fuel);
    OnlyTrace(scs, env, tr);
    match s
    case Decl(_, _, _, _) => DeclKeeps(cx, w, scs, s, env, tr, fuel);
    case Do(eff) =>
      EffectKeeps(cx, w, scs, eff, env, tr);
      SameLength(scs, env, s, o);
    case Return(_) =>
      ReturnDef(cx, w, s, env, tr, fuel);
      KeepsNothing(scs, env, o);
      SameLength(scs, env, s, o);
    case If(_, _, _) => IfKeeps(cx, w, scs, s, env, tr, fuel);
    case While(c, body) =>
      WhileKeeps(cx, w, scs, c, body, env, tr, fuel);
      SameLength(scs, env, s, o);
    case DoWhile(body, c) =>
      DoKeeps(cx, w, scs, body, c, env, tr, fuel);
      SameLength(scs, env, s, o);
    case ForC(_, _, _, _) => ForKeeps(cx, w, scs, s, env, tr, fuel);
    case Match(e, arms) =>
      var r := EvalExpr(cx, w, e, env, tr);
      if r.Failed? { Nowhere(scs, env, None, tr); } else { ArmsKeep(cx, w, scs, arms, r.ty, r.v, env, r.trace, fuel); }
      SameLength(scs, env, s, o);
    case Break => LeaveDef(cx, w, s, env, tr, fuel); SameLength(scs, env, s, o);
    case Continue => LeaveDef(cx, w, s, env, tr, fuel); SameLength(scs, env, s, o);
    case Scope(body) =>
      BlockKeeps(cx, w, scs, body, env, tr, fuel);
      SameLength(scs, env, s, o);
  }

  lemma LeaveDef(cx: Ctx, w: World, s: Stmt, env: Env, tr: seq<Event>, fuel: nat)
    requires s.Break? || s.Continue?
    ensures Exec(cx, w, s, env, tr, fuel) == if s.Break? then Broke(env, tr) else Continued(env, tr)
  {
  }

  lemma ReturnDef(cx: Ctx, w: World, s: Stmt, env: Env, tr: seq<Event>, fuel: nat)
    requires s.Return?
    ensures Exec(cx, w, s, env, tr, fuel).Returned? || Exec(cx, w, s, env, tr, fuel).Wrong?
  {
    hide EvalExpr;
  }

  lemma DeclKeeps(cx: Ctx, w: World, scs: Scopes, s: Stmt, env: Env, tr: seq<Event>, fuel: nat)
    requires Under(scs, env) && s.Decl?
    ensures Preserved(scs, env, s, Exec(cx, w, s, env, tr, fuel))
  {
    hide Exec, Under, Kept;
    var b := DeclDef(cx, w, s, env, tr, fuel);
    UnderDef(scs, env, b, s.mut);
  }

  lemma IfKeeps(cx: Ctx, w: World, scs: Scopes, s: Stmt, env: Env, tr: seq<Event>, fuel: nat)
    requires s.If? && Under(scs, env) && Sound(scs, s)
    ensures Preserved(scs, env, s, Exec(cx, w, s, env, tr, fuel))
    decreases fuel, s, 2
  {
    hide *;
    IfMeaning(cx, w, s, env, tr, fuel);
    SoundMeaning(scs, s);
    var r := Test(cx, w, s.cond, env, tr);
    if r.Failed? {
      Nowhere(scs, env, None, tr);
    } else if r.v != 0 {
      BlockKeeps(cx, w, scs, s.thn, env, r.trace, fuel);
    } else if s.els.None? {
      OnlyTrace(scs, env, r.trace);
    } else {
      var o := Exec(cx, w, s.els.value, env, r.trace, fuel);
      StmtKeeps(cx, w, scs, s.els.value, env, r.trace, fuel);
      PreservedParts(scs, env, s.els.value, o);
      KeepsLeave(scs, env, o);
    }
    SameLength(scs, env, s, Exec(cx, w, s, env, tr, fuel));
  }

  lemma WhileKeeps(cx: Ctx, w: World, scs: Scopes, c: Expr, body: Stmts, env: Env, tr: seq<Event>, fuel: nat)
    requires Under(scs, env) && BlockSound(scs, body)
    ensures
      var o := ExecWhile(cx, w, c, body, env, tr, fuel);
      Keeps(scs, env, o) && (o.Normal? || o.Broke? || o.Continued? ==> |o.env| == |env|)
    decreases fuel, body, 2
  {
    hide *;
    WhileMeaning(cx, w, c, body, env, tr, fuel);
    Nowhere(scs, env, None, tr);
    var r := Test(cx, w, c, env, tr);
    if fuel > 0 && !r.Failed? {
      OnlyTrace(scs, env, r.trace);
      if r.v != 0 {
        var o := ExecScope(cx, w, body, env, r.trace, fuel - 1);
        BlockKeeps(cx, w, scs, body, env, r.trace, fuel - 1);
        KeepsKept(scs, env, o);
        if o.Normal? || o.Continued? {
          KeptUnder(scs, env, o.env);
          WhileKeeps(cx, w, scs, c, body, o.env, o.trace, fuel - 1);
          KeepsThen(scs, env, o.env, ExecWhile(cx, w, c, body, o.env, o.trace, fuel - 1));
        } else if o.Broke? {
          KeepsEnv(scs, env, o, o.trace);
        }
      }
    }
  }

  lemma DoKeeps(cx: Ctx, w: World, scs: Scopes, body: Stmts, c: Expr, env: Env, tr: seq<Event>, fuel: nat)
    requires Under(scs, env) && BlockSound(scs, body)
    ensures
      var o := ExecDoWhile(cx, w, body, c, env, tr, fuel);
      Keeps(scs, env, o) && (o.Normal? || o.Broke? || o.Continued? ==> |o.env| == |env|)
    decreases fuel, body, 2
  {
    hide *;
    DoMeaning(cx, w, body, c, env, tr, fuel);
    Nowhere(scs, env, None, tr);
    if fuel > 0 {
      var o := ExecScope(cx, w, body, env, tr, fuel - 1);
      BlockKeeps(cx, w, scs, body, env, tr, fuel - 1);
      KeepsKept(scs, env, o);
      if o.Normal? || o.Continued? {
        var r := Test(cx, w, c, o.env, o.trace);
        if !r.Failed? {
          KeepsEnv(scs, env, o, r.trace);
          if r.v != 0 {
            KeptUnder(scs, env, o.env);
            DoKeeps(cx, w, scs, body, c, o.env, r.trace, fuel - 1);
            KeepsThen(scs, env, o.env, ExecDoWhile(cx, w, body, c, o.env, r.trace, fuel - 1));
          }
        }
      } else if o.Broke? {
        KeepsEnv(scs, env, o, o.trace);
      }
    }
  }

  lemma ForLoopKeeps(cx: Ctx, w: World, scs: Scopes, test: Option<Expr>, step: Option<Effect>, body: Stmts, env: Env,
                     tr: seq<Event>, fuel: nat)
    requires Under(scs, env) && BlockSound(scs, body) && (step.Some? ==> EffectSound(scs, step.value))
    ensures
      var o := ExecFor(cx, w, test, step, body, env, tr, fuel);
      Keeps(scs, env, o) && (o.Normal? || o.Broke? || o.Continued? ==> |o.env| == |env|)
    decreases fuel, body, 2
  {
    hide *;
    ForMeaning(cx, w, test, step, body, env, tr, fuel);
    Nowhere(scs, env, None, tr);
    var r := ForValue(cx, w, test, env, tr);
    if fuel > 0 && !r.Failed? {
      OnlyTrace(scs, env, r.trace);
      if r.v != 0 {
        var o := ExecScope(cx, w, body, env, r.trace, fuel - 1);
        BlockKeeps(cx, w, scs, body, env, r.trace, fuel - 1);
        KeepsKept(scs, env, o);
        if o.Normal? || o.Continued? {
          KeptUnder(scs, env, o.env);
          var n := ForNext(cx, w, step, o.env, o.trace);
          NextKeeps(cx, w, scs, step, o.env, o.trace);
          if n.Normal? {
            KeepsKept(scs, o.env, n);
            KeptUnder(scs, o.env, n.env);
            ForLoopKeeps(cx, w, scs, test, step, body, n.env, n.trace, fuel - 1);
            KeepsThen(scs, o.env, n.env, ExecFor(cx, w, test, step, body, n.env, n.trace, fuel - 1));
            KeepsThen(scs, env, o.env, ExecFor(cx, w, test, step, body, n.env, n.trace, fuel - 1));
          } else {
            KeepsNothing(scs, env, n);
          }
        } else if o.Broke? {
          KeepsEnv(scs, env, o, o.trace);
        }
      }
    }
  }

  lemma NextKeeps(cx: Ctx, w: World, scs: Scopes, step: Option<Effect>, env: Env, tr: seq<Event>)
    requires Under(scs, env) && (step.Some? ==> EffectSound(scs, step.value))
    ensures
      var n := ForNext(cx, w, step, env, tr);
      Keeps(scs, env, n) && (n.Normal? ==> |n.env| == |env|) && !n.Broke? && !n.Continued?
  {
    hide *;
    ForNextDef(cx, w, step, env, tr);
    if step.Some? { EffectKeeps(cx, w, scs, step.value, env, tr); } else { OnlyTrace(scs, env, tr); }
  }

  lemma ForKeeps(cx: Ctx, w: World, scs: Scopes, s: Stmt, env: Env, tr: seq<Event>, fuel: nat)
    requires s.ForC? && Under(scs, env) && Sound(scs, s)
    ensures Preserved(scs, env, s, Exec(cx, w, s, env, tr, fuel))
    decreases fuel, s, 2
  {
    hide *;
    ForStmtMeaning(cx, w, s, env, tr, fuel);
    SoundMeaning(scs, s);
    UnderPush(scs, env);
    var p := ScPush(scs);
    FirstScopesDef(p, s.first);
    if s.first.None? {
      var e := ExecFor(cx, w, s.test, s.step, s.body, env, tr, fuel);
      ForLoopKeeps(cx, w, p, s.test, s.step, s.body, env, tr, fuel);
      KeepsPush(scs, env, e);
      KeepsLeave(scs, env, e);
    } else {
      var o := Exec(cx, w, s.first.value, env, tr, fuel);
      StmtKeeps(cx, w, p, s.first.value, env, tr, fuel);
      PreservedParts(p, env, s.first.value, o);
      if o.Normal? {
        var e := ExecFor(cx, w, s.test, s.step, s.body, o.env, o.trace, fuel);
        ForLoopKeeps(cx, w, ScAfter(p, s.first.value), s.test, s.step, s.body, o.env, o.trace, fuel);
        PreservedThen(p, env, s.first.value, o, e);
        KeepsPush(scs, env, e);
        KeepsLeave(scs, env, e);
      } else {
        KeepsPush(scs, env, o);
        KeepsLeave(scs, env, o);
      }
    }
    SameLength(scs, env, s, Exec(cx, w, s, env, tr, fuel));
  }

  lemma FirstScopesDef(scs: Scopes, first: Option<Stmt>)
    ensures FirstScopes(scs, first) == if first.Some? then ScAfter(scs, first.value) else scs
  {
    hide ScAfter;
  }

  lemma ArmsKeep(cx: Ctx, w: World, scs: Scopes, arms: Arms, t: Ty, v: int, env: Env, tr: seq<Event>, fuel: nat)
    requires Under(scs, env) && ArmsSound(scs, arms)
    ensures
      var o := ExecArms(cx, w, arms, t, v, env, tr, fuel);
      Keeps(scs, env, o) && (o.Normal? || o.Broke? || o.Continued? ==> |o.env| == |env|)
    decreases fuel, arms, 0
  {
    hide *;
    ArmsMeaning(cx, w, arms, t, v, env, tr, fuel);
    match arms
    case NoArms => OnlyTrace(scs, env, tr);
    case MoreArms(p, body, rest) =>
      ArmsSoundMeaning(scs, p, body, rest);
      if Matches(p, t, v) {
        UnderPush(scs, env);
        var o := Exec(cx, w, body, env, tr, fuel);
        StmtKeeps(cx, w, ScPush(scs), body, env, tr, fuel);
        PreservedParts(ScPush(scs), env, body, o);
        KeepsPush(scs, env, o);
        KeepsLeave(scs, env, o);
      } else {
        ArmsKeep(cx, w, scs, rest, t, v, env, tr, fuel);
      }
  }

  // ----- what it means for a variable -----

  /** A variable declared without mut: through any accepted statements that follow, and however they are
      left, it has the value it was declared with. */
  lemma {:induction false} ReadOnlyKept(cx: Ctx, w: World, scs: Scopes, env: Env, b: Binding, rest: Stmts,
                                        tr: seq<Event>, fuel: nat)
    requires Under(scs, env) && AllSound(ScDef(scs, Sym(b.name, false)), rest)
    ensures
      var o := ExecStmts(cx, w, rest, env + [b], tr, fuel);
      o.Normal? || o.Broke? || o.Continued? ==> |o.env| > |env| && o.env[|env|] == b
  {
    hide Exec, ExecStmts, AllSound;
    UnderDef(scs, env, b, false);
    StmtsKeep(cx, w, ScDef(scs, Sym(b.name, false)), rest, env + [b], tr, fuel);
    FlatSteps(scs, Sym(b.name, false));
  }

  /** The condition on steps is exact: a step the checker lets through keeps the read-only variables if
      and only if the name it steps is writable. */
  lemma {:induction false} StepExact(cx: Ctx, w: World, scs: Scopes, eff: Effect, env: Env, tr: seq<Event>)
    requires Under(scs, env) && CkEffect(scs, eff) && (eff.Increment? || eff.Decrement?)
    requires
      var k := Lookup(env, eff.x);
      k.Some? && InRange(env[k.value].ty, env[k.value].v)
    ensures Keeps(scs, env, ExecEffect(cx, w, eff, env, tr)) <==> StepOk(scs, eff)
  {
    hide Wrap, ScLookup, Known, Flat, Under;
    SameVariable(scs, env, eff.x);
    var k := Lookup(env, eff.x).value;
    var o := ExecEffect(cx, w, eff, env, tr);
    StepChanges(env[k].ty, env[k].v);
    assert o.env[k].v != env[k].v;
  }

  /** A step never gives the same value, not even when it wraps. */
  lemma StepChanges(t: Ty, v: int)
    requires InRange(t, v)
    ensures Wrap(t, v + 1) != v && Wrap(t, v - 1) != v
  {
    hide Wrap;
    var m := Modulus(t);
    if InRange(t, v + 1) {
      WrapIdentity(t, v + 1);
    } else {
      WrapCongruent(t, v + 1, v + 1 - m, 1);
      WrapIdentity(t, v + 1 - m);
    }
    if InRange(t, v - 1) {
      WrapIdentity(t, v - 1);
    } else {
      WrapCongruent(t, v - 1, v - 1 + m, -1);
      WrapIdentity(t, v - 1 + m);
    }
  }

  /** The checker does let a read-only variable be stepped. */
  lemma {:induction false} StepSlipsThrough(cx: Ctx, w: World, tr: seq<Event>)
    ensures
      var s, rest := Decl("n", Some(I32), Some(IntLit(1)), false), MoreStmts(Do(Increment("n")), NoStmts);
      && CkStmts([[]], MoreStmts(s, rest))
      && ExecStmts(cx, w, MoreStmts(s, rest), [], tr, 0) == Normal([Binding("n", I32, 2)], tr)
  {
    var s, rest := Decl("n", Some(I32), Some(IntLit(1)), false), MoreStmts(Do(Increment("n")), NoStmts);
    var b, scs: Scopes := Binding("n", I32, 1), [[]];
    assert [] + [Sym("n", false)] == [Sym("n", false)];
    var scs' := ScAfter(scs, s);
    assert scs'[|scs'| - 1] == [Sym("n", false)];
    assert Newest([Sym("n", false)], "n") == Some(0);
    assert CkStmts(scs', rest);
    assert Exec(cx, w, s, [], tr, 0) == Normal([b], tr);
    assert Lookup([b], "n") == Some(0);
    assert Exec(cx, w, Do(Increment("n")), [b], tr, 0) == Normal([Binding("n", I32, 2)], tr);
  }
}
