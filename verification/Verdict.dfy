/** The checker's verdict in terms of names alone: which a statement uses without declaring them, which it assigns,
    and whether it assigns what it declares read-only itself. */
module Verdict {
  import opened Fir
  import opened Source
  import opened Sema
  import opened Check

  // ----- names, with no scopes -----

  function Uses(e: Expr): set<string> {
    match e
    case Var(x) => {x}
    case Unary(_, e1) => Uses(e1)
    case Binary(_, l, r) => Uses(l) + Uses(r)
    case CallFn(fn, args) => {fn} + UsesAll(args)
    case _ => {}
  }

  function UsesAll(es: Exprs): set<string> {
    match es
    case NoExprs => {}
    case MoreExprs(e, rest) => Uses(e) + UsesAll(rest)
  }

  function UsesIf(e: Option<Expr>): set<string> { if e.Some? then Uses(e.value) else {} }

  function EffectUses(eff: Effect): set<string> {
    match eff
    case Assign(x, e) => {x} + Uses(e)
    case Compound(_, x, e) => {x} + Uses(e)
    case Increment(x) => {x}
    case Decrement(x) => {x}
    case Eval(e) => Uses(e)
  }

  /** A step is no assignment. */
  function EffectAssigns(eff: Effect): set<string> {
    if eff.Assign? || eff.Compound? then {eff.x} else {}
  }

  function StepUses(eff: Option<Effect>): set<string> { if eff.Some? then EffectUses(eff.value) else {} }

  function StepAssigns(eff: Option<Effect>): set<string> { if eff.Some? then EffectAssigns(eff.value) else {} }

  /** What a statement declares for those behind it. */
  function Declares(s: Stmt): set<string> { if s.Decl? then {s.x} else {} }

  function DeclaresIf(s: Option<Stmt>): set<string> { if s.Some? then Declares(s.value) else {} }

  /** What of that is read-only. */
  function Fixes(s: Stmt): set<string> { if s.Decl? && !s.mut then {s.x} else {} }

  function FixesIf(s: Option<Stmt>): set<string> { if s.Some? then Fixes(s.value) else {} }

  /** The names that a statement uses and does not itself declare before. */
  function Free(s: Stmt): set<string>
    decreases s, 0
  {
    match s
    case Decl(_, _, init, _) => UsesIf(init)
    case Do(eff) => EffectUses(eff)
    case Return(val) => UsesIf(val)
    case If(c, thn, els) => Uses(c) + FreeAll(thn) + (if els.Some? then Free(els.value) else {})
    case While(c, body) => Uses(c) + FreeAll(body)
    case DoWhile(body, c) => FreeAll(body) + Uses(c)
    case ForC(first, test, step, body) =>
      (if first.Some? then Free(first.value) else {})
      + (UsesIf(test) + StepUses(step) + FreeAll(body) - DeclaresIf(first))
    case Match(e, arms) => Uses(e) + FreeArms(arms)
    case Scope(body) => FreeAll(body)
    case _ => {}
  }

  function FreeAll(ss: Stmts): set<string>
    decreases ss, 0
  {
    match ss
    case NoStmts => {}
    case MoreStmts(s, rest) => Free(s) + (FreeAll(rest) - Declares(s))
  }

  function FreeArms(arms: Arms): set<string>
    decreases arms, 0
  {
    match arms
    case NoArms => {}
    case MoreArms(_, body, rest) => Free(body) + FreeArms(rest)
  }

  /** And those that it assigns. */
  function Assigned(s: Stmt): set<string>
    decreases s, 0
  {
    match s
    case Do(eff) => EffectAssigns(eff)
    case If(_, thn, els) => AssignedAll(thn) + (if els.Some? then Assigned(els.value) else {})
    case While(_, body) => AssignedAll(body)
    case DoWhile(body, _) => AssignedAll(body)
    case ForC(first, _, step, body) =>
      (if first.Some? then Assigned(first.value) else {}) + (StepAssigns(step) + AssignedAll(body) - DeclaresIf(first))
    case Match(_, arms) => AssignedArms(arms)
    case Scope(body) => AssignedAll(body)
    case _ => {}
  }

  function AssignedAll(ss: Stmts): set<string>
    decreases ss, 0
  {
    match ss
    case NoStmts => {}
    case MoreStmts(s, rest) => Assigned(s) + (AssignedAll(rest) - Declares(s))
  }

  function AssignedArms(arms: Arms): set<string>
    decreases arms, 0
  {
    match arms
    case NoArms => {}
    case MoreArms(_, body, rest) => Assigned(body) + AssignedArms(rest)
  }

  /** It assigns nothing that it declares read-only itself. */
  predicate OwnKept(s: Stmt)
    decreases s, 0
  {
    match s
    case If(_, thn, els) => OwnKeptAll(thn) && (els.Some? ==> OwnKept(els.value))
    case While(_, body) => OwnKeptAll(body)
    case DoWhile(body, _) => OwnKeptAll(body)
    case ForC(first, _, step, body) =>
      && (first.Some? ==> OwnKept(first.value)) && OwnKeptAll(body)
      && FixesIf(first) !! StepAssigns(step) + AssignedAll(body)
    case Match(_, arms) => OwnKeptArms(arms)
    case Scope(body) => OwnKeptAll(body)
    case _ => true
  }

  predicate OwnKeptAll(ss: Stmts)
    decreases ss, 0
  {
    match ss
    case NoStmts => true
    case MoreStmts(s, rest) => OwnKept(s) && OwnKeptAll(rest) && Fixes(s) !! AssignedAll(rest)
  }

  predicate OwnKeptArms(arms: Arms)
    decreases arms, 0
  {
    match arms
    case NoArms => true
    case MoreArms(_, body, rest) => OwnKept(body) && OwnKeptArms(rest)
  }

  // ----- against a list of declarations, the oldest first -----

  predicate Declared(all: seq<Sym>, x: string) { exists i :: 0 <= i < |all| && all[i].name == x }

  /** The newest declaration of `x`, if there is one, is read-only. */
  predicate Fixed(all: seq<Sym>, x: string) {
    exists i :: 0 <= i < |all| && all[i].name == x && !all[i].mut && forall j :: i < j < |all| ==> all[j].name != x
  }

  const ALWAYS: set<string> := {"null", "nullptr"}

  predicate Accepts(all: seq<Sym>, free: set<string>, written: set<string>) {
    && (forall x :: x in free && x !in ALWAYS ==> Declared(all, x))
    && (forall x :: x in written ==> !Fixed(all, x))
  }

  lemma {:induction false} Both(all: seq<Sym>, f: set<string>, a: set<string>, g: set<string>, b: set<string>)
    ensures Accepts(all, f + g, a + b) <==> Accepts(all, f, a) && Accepts(all, g, b)
  {
    hide Declared, Fixed;
  }

  lemma {:induction false} BothUse(all: seq<Sym>, f: set<string>, g: set<string>)
    ensures Accepts(all, f + g, {}) <==> Accepts(all, f, {}) && Accepts(all, g, {})
  {
    hide Accepts;
    var none: set<string> := {};
    Both(all, f, none, g, none);
    assert none + none == none;
  }

  /** A declaration answers for its own name. */
  lemma {:induction false} Behind(all: seq<Sym>, s: Sym, f: set<string>, a: set<string>)
    ensures
      Accepts(all + [s], f, a) <==> Accepts(all, f - {s.name}, a - {s.name}) && (s.mut || s.name !in a)
  {
    var more := all + [s];
    forall x
      ensures Declared(more, x) <==> x == s.name || Declared(all, x)
      ensures Fixed(more, x) <==> if x == s.name then !s.mut else Fixed(all, x)
    {
      DeclaredMore(all, s, x);
      FixedMore(all, s, x);
    }
    hide Declared, Fixed;
  }

  lemma {:induction false} DeclaredMore(all: seq<Sym>, s: Sym, x: string)
    ensures Declared(all + [s], x) <==> x == s.name || Declared(all, x)
  {
    var more := all + [s];
    if x == s.name { assert more[|all|].name == x; }
    if Declared(all, x) {
      var i :| 0 <= i < |all| && all[i].name == x;
      assert more[i].name == x;
    }
  }

  lemma {:induction false} FixedMore(all: seq<Sym>, s: Sym, x: string)
    ensures Fixed(all + [s], x) <==> if x == s.name then !s.mut else Fixed(all, x)
  {
    var more := all + [s];
    assert more[|all|] == s;
    if x != s.name && Fixed(all, x) {
      var i :| 0 <= i < |all| && all[i].name == x && !all[i].mut && forall j :: i < j < |all| ==> all[j].name != x;
      assert more[i] == all[i];
    }
    if x != s.name && Fixed(more, x) {
      var i :| 0 <= i < |more| && more[i].name == x && !more[i].mut && forall j :: i < j < |more| ==> more[j].name != x;
      assert all[i] == more[i] && forall j :: i < j < |all| ==> all[j] == more[j];
    }
  }

  // ----- what the checker looks up -----

  lemma {:induction false} KnownExact(scs: Scopes, x: string)
    ensures Known(scs, x) <==> x in ALWAYS || Declared(Flat(scs), x)
  {
    LookupIsFlat(scs, x);
    var k := Newest(Flat(scs), x);
    if k.Some? { assert Flat(scs)[k.value].name == x; }
  }

  lemma {:induction false} WritableExact(scs: Scopes, x: string)
    ensures Writable(scs, x) <==> !Fixed(Flat(scs), x)
  {
    LookupIsFlat(scs, x);
    var all := Flat(scs);
    var k := Newest(all, x);
    if Fixed(all, x) {
      var i :| 0 <= i < |all| && all[i].name == x && !all[i].mut && forall j :: i < j < |all| ==> all[j].name != x;
      NewestUnique(all, x, i);
    }
  }

  lemma {:induction false} One(all: seq<Sym>, x: string)
    ensures Accepts(all, {x}, {}) <==> x in ALWAYS || Declared(all, x)
    ensures Accepts(all, {}, {x}) <==> !Fixed(all, x)
    ensures Accepts(all, {}, {})
  {
    hide Declared, Fixed;
  }

  /** An expression is accepted if and only if every name in it is declared. */
  lemma {:induction false} ExprExact(scs: Scopes, e: Expr)
    ensures CkExpr(scs, e) <==> Accepts(Flat(scs), Uses(e), {})
    decreases e
  {
    hide Known, Accepts, Flat;
    var all := Flat(scs);
    One(all, "");
    match e
    case Var(x) =>
      KnownExact(scs, x);
      One(all, x);
    case Unary(_, e1) => ExprExact(scs, e1);
    case Binary(_, l, r) =>
      ExprExact(scs, l);
      ExprExact(scs, r);
      BothUse(all, Uses(l), Uses(r));
    case CallFn(fn, args) =>
      KnownExact(scs, fn);
      One(all, fn);
      ExprsExact(scs, args);
      BothUse(all, {fn}, UsesAll(args));
    case _ =>
  }

  lemma {:induction false} ExprsExact(scs: Scopes, es: Exprs)
    ensures CkExprs(scs, es) <==> Accepts(Flat(scs), UsesAll(es), {})
    decreases es
  {
    hide Accepts, Flat;
    One(Flat(scs), "");
    match es
    case NoExprs =>
    case MoreExprs(e, rest) =>
      ExprExact(scs, e);
      ExprsExact(scs, rest);
      BothUse(Flat(scs), Uses(e), UsesAll(rest));
  }

  lemma {:induction false} UseExact(scs: Scopes, e: Option<Expr>)
    ensures (e.Some? ==> CkExpr(scs, e.value)) <==> Accepts(Flat(scs), UsesIf(e), {})
  {
    hide Accepts, Flat;
    One(Flat(scs), "");
    if e.Some? { ExprExact(scs, e.value); }
  }

  lemma {:induction false} EffectExact(scs: Scopes, eff: Effect)
    ensures CkEffect(scs, eff) <==> Accepts(Flat(scs), EffectUses(eff), EffectAssigns(eff))
  {
    hide Accepts, Flat, Known, Writable;
    var all := Flat(scs);
    if eff.Eval? {
      ExprExact(scs, eff.e);
    } else {
      KnownExact(scs, eff.x);
      One(all, eff.x);
      if eff.Assign? || eff.Compound? {
        WritableExact(scs, eff.x);
        ExprExact(scs, eff.e);
        BothUse(all, {eff.x}, Uses(eff.e));
        Both(all, {eff.x} + Uses(eff.e), {}, {}, {eff.x});
        assert {eff.x} + Uses(eff.e) + {} == EffectUses(eff) && {} + {eff.x} == EffectAssigns(eff);
      }
    }
  }

  // ----- statements -----

  predicate Judged(all: seq<Sym>, s: Stmt) { Accepts(all, Free(s), Assigned(s)) && OwnKept(s) }

  predicate JudgedAll(all: seq<Sym>, ss: Stmts) { Accepts(all, FreeAll(ss), AssignedAll(ss)) && OwnKeptAll(ss) }

  predicate JudgedArms(all: seq<Sym>, arms: Arms) {
    Accepts(all, FreeArms(arms), AssignedArms(arms)) && OwnKeptArms(arms)
  }

  /** In every state of the scopes and for every statement: it is accepted if and only if every name that it uses
      without declaring it is declared (but for the two that always are), nothing that it assigns is read-only where it
      stands, and it assigns nothing that it declares read-only. */
  lemma {:induction false} StmtExact(scs: Scopes, s: Stmt)
    requires scs != []
    ensures CkStmt(scs, s) <==> Judged(Flat(scs), s)
    decreases s, 1
  {
    hide CkExpr, CkEffect, Accepts, Flat, CkBlock, CkArms, FreeAll, AssignedAll, OwnKeptAll, Uses, EffectUses,
      EffectAssigns;
    var all := Flat(scs);
    One(all, "");
    match s
    case Decl(_, _, init, _) => UseExact(scs, init);
    case Do(eff) => EffectExact(scs, eff);
    case Return(val) => UseExact(scs, val);
    case If(c, thn, els) =>
      ExprExact(scs, c);
      BlockExact(scs, thn);
      Both(all, Uses(c), {}, FreeAll(thn), AssignedAll(thn));
      if els.Some? {
        StmtExact(scs, els.value);
        Both(all, Uses(c) + FreeAll(thn), AssignedAll(thn), Free(els.value), Assigned(els.value));
      }
      IfNames(s);
    case While(c, body) => LoopExact(scs, c, body);
    case DoWhile(body, c) =>
      LoopExact(scs, c, body);
      assert FreeAll(body) + Uses(c) == Uses(c) + FreeAll(body);
    case ForC(_, _, _, _) => ForExact(scs, s);
    case Match(e, arms) =>
      ExprExact(scs, e);
      ArmsExact(scs, arms);
      Both(all, Uses(e), {}, FreeArms(arms), AssignedArms(arms));
      assert {} + AssignedArms(arms) == AssignedArms(arms);
    case Scope(body) => BlockExact(scs, body);
    case _ =>
  }

  lemma {:induction false} IfNames(s: Stmt)
    requires s.If?
    ensures s.els.None? ==> Free(s) == Uses(s.cond) + FreeAll(s.thn) && Assigned(s) == {} + AssignedAll(s.thn)
    ensures
      s.els.Some? ==>
        && Free(s) == Uses(s.cond) + FreeAll(s.thn) + Free(s.els.value)
        && Assigned(s) == AssignedAll(s.thn) + Assigned(s.els.value)
    ensures {} + AssignedAll(s.thn) == AssignedAll(s.thn)
  {
  }

  lemma {:induction false} LoopExact(scs: Scopes, c: Expr, body: Stmts)
    requires scs != []
    ensures
      CkExpr(scs, c) && CkBlock(scs, body)
      <==> Accepts(Flat(scs), Uses(c) + FreeAll(body), AssignedAll(body)) && OwnKeptAll(body)
    decreases body, 3
  {
    hide Accepts, Flat, CkBlock, CkExpr;
    ExprExact(scs, c);
    BlockExact(scs, body);
    Both(Flat(scs), Uses(c), {}, FreeAll(body), AssignedAll(body));
    assert {} + AssignedAll(body) == AssignedAll(body);
  }

  lemma {:induction false} BlockExact(scs: Scopes, ss: Stmts)
    requires scs != []
    ensures CkBlock(scs, ss) <==> JudgedAll(Flat(scs), ss)
    decreases ss, 2
  {
    hide JudgedAll, CkStmts;
    FlatSteps(scs, Sym("", false));
    StmtsExact(ScPush(scs), ss);
  }

  lemma {:induction false} StmtsExact(scs: Scopes, ss: Stmts)
    requires scs != []
    ensures CkStmts(scs, ss) <==> JudgedAll(Flat(scs), ss)
    decreases ss, 1
  {
    hide Accepts, Flat, CkStmt;
    var all := Flat(scs);
    match ss
    case NoStmts => One(all, "");
    case MoreStmts(s, rest) =>
      StmtExact(scs, s);
      StmtsExact(ScAfter(scs, s), rest);
      AfterExact(scs, s, FreeAll(rest), AssignedAll(rest));
      Both(all, Free(s), Assigned(s), FreeAll(rest) - Declares(s), AssignedAll(rest) - Declares(s));
  }

  /** What is accepted behind a statement. */
  lemma {:induction false} AfterExact(scs: Scopes, s: Stmt, f: set<string>, a: set<string>)
    requires scs != []
    ensures ScAfter(scs, s) != []
    ensures
      Accepts(Flat(ScAfter(scs, s)), f, a)
      <==> Accepts(Flat(scs), f - Declares(s), a - Declares(s)) && Fixes(s) !! a
  {
    hide Accepts, Flat;
    if s.Decl? {
      var sym := Sym(s.x, s.mut);
      FlatSteps(scs, sym);
      Behind(Flat(scs), sym, f, a);
    } else {
      assert f - {} == f && a - {} == a;
    }
  }

  lemma {:induction false} ForExact(scs: Scopes, s: Stmt)
    requires scs != [] && s.ForC?
    ensures CkStmt(scs, s) <==> Judged(Flat(scs), s)
    decreases s, 0
  {
    hide CkExpr, CkEffect, Accepts, Flat, CkBlock, FreeAll, AssignedAll, OwnKeptAll, UsesIf, StepUses, StepAssigns;
    var outer, all := ScPush(scs), Flat(scs);
    var inner := FirstScopes(outer, s.first);
    var f, a := UsesIf(s.test) + StepUses(s.step) + FreeAll(s.body), StepAssigns(s.step) + AssignedAll(s.body);
    FlatSteps(scs, Sym("", false));
    One(all, "");
    if s.first.Some? {
      StmtExact(outer, s.first.value);
      AfterExact(outer, s.first.value, f, a);
      Both(all, Free(s.first.value), Assigned(s.first.value), f - DeclaresIf(s.first), a - DeclaresIf(s.first));
    } else {
      assert f - {} == f && a - {} == a && {} + f == f && {} + a == a;
    }
    LoopPartsExact(inner, s);
  }

  lemma {:induction false} LoopPartsExact(scs: Scopes, s: Stmt)
    requires scs != [] && s.ForC?
    ensures
      (s.test.Some? ==> CkExpr(scs, s.test.value)) && (s.step.Some? ==> CkEffect(scs, s.step.value))
      && CkBlock(scs, s.body)
      <==>
      Accepts(Flat(scs), UsesIf(s.test) + StepUses(s.step) + FreeAll(s.body), StepAssigns(s.step) + AssignedAll(s.body))
      && OwnKeptAll(s.body)
    decreases s, 0, 0
  {
    hide CkExpr, CkEffect, Accepts, Flat, CkBlock, FreeAll, AssignedAll, OwnKeptAll, UsesIf, EffectUses, EffectAssigns;
    var all := Flat(scs);
    One(all, "");
    UseExact(scs, s.test);
    if s.step.Some? { EffectExact(scs, s.step.value); }
    BlockExact(scs, s.body);
    Both(all, UsesIf(s.test), {}, StepUses(s.step), StepAssigns(s.step));
    Both(all, UsesIf(s.test) + StepUses(s.step), {} + StepAssigns(s.step), FreeAll(s.body), AssignedAll(s.body));
    assert {} + StepAssigns(s.step) == StepAssigns(s.step);
  }

  lemma {:induction false} ArmsExact(scs: Scopes, arms: Arms)
    requires scs != []
    ensures CkArms(scs, arms) <==> JudgedArms(Flat(scs), arms)
    decreases arms, 0
  {
    hide Accepts, Flat, CkStmt;
    match arms
    case NoArms => One(Flat(scs), "");
    case MoreArms(_, body, rest) =>
      FlatSteps(scs, Sym("", false));
      StmtExact(ScPush(scs), body);
      ArmsExact(scs, rest);
      Both(Flat(scs), Free(body), Assigned(body), FreeArms(rest), AssignedArms(rest));
  }
}
