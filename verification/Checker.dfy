/** The scope checker as it runs: the current scopes and the error flag, updated in place by a recursive
    traversal that goes on after an error. */
module CheckerState {
  import opened Fir
  import opened Source
  import opened Sema
  import opened Check

  /** Every else branch is a block or an if, as the parser builds them. */
  predicate Elses(s: Stmt)
    decreases s, 0
  {
    match s
    case If(_, thn, els) =>
      AllElses(thn) && (els.Some? ==> (els.value.If? || els.value.Scope?) && Elses(els.value))
    case While(_, body) => AllElses(body)
    case DoWhile(body, _) => AllElses(body)
    case ForC(first, _, _, body) => (first.Some? ==> Elses(first.value)) && AllElses(body)
    case Match(_, arms) => ArmsElses(arms)
    case Scope(body) => AllElses(body)
    case _ => true
  }

  predicate AllElses(ss: Stmts)
    decreases ss, 0
  {
    match ss
    case NoStmts => true
    case MoreStmts(s, rest) => Elses(s) && AllElses(rest)
  }

  predicate ArmsElses(arms: Arms)
    decreases arms, 0
  {
    match arms
    case NoArms => true
    case MoreArms(_, body, rest) => Elses(body) && ArmsElses(rest)
  }

  class Checker {
    var scopes: Scopes
    var hadError: bool

    constructor (outer: seq<Sym>)
      ensures scopes == [outer] && !hadError
    {
      scopes := [outer];
      hadError := false;
    }

    method Push()
      modifies `scopes
      ensures scopes == ScPush(old(scopes))
    {
      scopes := scopes + [[]];
    }

    method Pop()
      modifies `scopes
      ensures scopes == ScPop(old(scopes))
    {
      if scopes != [] { scopes := scopes[..|scopes| - 1]; }
    }

    method DefineSym(s: Sym)
      requires scopes != []
      modifies `scopes
      ensures scopes == ScDef(old(scopes), s)
    {
      var n := |scopes| - 1;
      scopes := scopes[n := scopes[n] + [s]];
    }

    method Report()
      modifies `hadError
      ensures hadError
    {
      hadError := true;
    }

    /** Scope by scope outwards, and in each from the newest entry. */
    method LookUp(x: string) returns (r: Option<Sym>)
      ensures r == ScLookup(scopes, x)
    {
      var i := |scopes|;
      assert scopes[..i] == scopes;
      while i > 0
        invariant 0 <= i <= |scopes| && ScLookup(scopes, x) == ScLookup(scopes[..i], x)
      {
        var sc := scopes[i - 1];
        assert scopes[..i][..i - 1] == scopes[..i - 1];
        var j := |sc|;
        assert sc[..j] == sc;
        while j > 0
          invariant 0 <= j <= |sc| && Newest(sc, x) == Newest(sc[..j], x)
        {
          assert sc[..j][..j - 1] == sc[..j - 1];
          if sc[j - 1].name == x { return Some(sc[j - 1]); }
          j := j - 1;
        }
        i := i - 1;
      }
      return None;
    }

    method Use(x: string)
      modifies `hadError
      ensures hadError == (old(hadError) || !Known(scopes, x))
    {
      if x != "null" && x != "nullptr" {
        var s := LookUp(x);
        if s.None? { Report(); }
      }
    }

    method Write(x: string)
      modifies `hadError
      ensures hadError == (old(hadError) || !Writable(scopes, x))
    {
      var s := LookUp(x);
      if s.Some? && !s.value.mut { Report(); }
    }

    method Expression(e: Expr)
      modifies `hadError
      ensures hadError == (old(hadError) || !CkExpr(scopes, e))
      decreases e
    {
      hide Known;
      match e
      case Var(x) => Use(x);
      case Unary(_, e1) => Expression(e1);
      case Binary(_, l, r) => Expression(l); Expression(r);
      case CallFn(fn, args) => Use(fn); Expressions(args);
      case _ =>
    }

    method Expressions(es: Exprs)
      modifies `hadError
      ensures hadError == (old(hadError) || !CkExprs(scopes, es))
      decreases es, 0
    {
      hide CkExpr;
      var it := es;
      while it.MoreExprs?
        invariant it == es || it < es
        invariant (old(hadError) || !CkExprs(scopes, es)) == (hadError || !CkExprs(scopes, it))
        decreases it
      {
        Expression(it.head);
        it := it.tail;
      }
    }

    method OnEffect(eff: Effect)
      modifies `hadError
      ensures hadError == (old(hadError) || !CkEffect(scopes, eff))
    {
      hide Known, Writable, CkExpr;
      match eff
      case Assign(x, e) => Use(x); Expression(e); Write(x);
      case Compound(_, x, e) => Use(x); Expression(e); Write(x);
      case Increment(x) => Use(x);
      case Decrement(x) => Use(x);
      case Eval(e) => Expression(e);
    }

    method Statement(s: Stmt)
      requires scopes != [] && Elses(s)
      modifies this
      ensures scopes == ScAfter(old(scopes), s) && scopes != []
      ensures hadError == (old(hadError) || !CkStmt(old(scopes), s))
      decreases s, 1
    {
      hide CkExpr, CkEffect, CkBlock, CkArms;
      match s
      case Decl(x, _, init, mut) =>
        if init.Some? { Expression(init.value); }
        DefineSym(Sym(x, mut));
      case Do(eff) => OnEffect(eff);
      case Return(val) => if val.Some? { Expression(val.value); }
      case If(c, thn, els) => Expression(c); BlockOf(thn); if els.Some? { Statement(els.value); }
      case While(c, body) => Expression(c); BlockOf(body);
      case DoWhile(body, c) => Expression(c); BlockOf(body);
      case ForC(_, _, _, _) => ForStatement(s);
      case Match(e, arms) => Expression(e); ArmsOf(arms);
      case Scope(body) => BlockOf(body);
      case _ =>
    }

    method BlockOf(ss: Stmts)
      requires AllElses(ss)
      modifies this
      ensures scopes == old(scopes) && hadError == (old(hadError) || !CkBlock(old(scopes), ss))
      decreases ss, 1
    {
      Push();
      Statements(ss);
      PushPop(old(scopes));
      Restore(old(scopes));
    }

    lemma PushPop(scs: Scopes)
      ensures ScPop(ScPush(scs)) == scs && ScPush(scs) != []
    {
      assert ScPush(scs)[..|scs|] == scs;
    }

    /** Popping gives back the scopes below. */
    method Restore(ghost below: Scopes)
      requires |scopes| == |below| + 1 && scopes[..|below|] == below
      modifies `scopes
      ensures scopes == below
    {
      Pop();
    }

    method Statements(ss: Stmts)
      requires scopes != [] && AllElses(ss)
      modifies this
      ensures |scopes| == |old(scopes)| && scopes[..|scopes| - 1] == old(scopes)[..|scopes| - 1]
      ensures hadError == (old(hadError) || !CkStmts(old(scopes), ss))
      decreases ss, 0
    {
      hide CkStmt;
      var it := ss;
      while it.MoreStmts?
        invariant (it == ss || it < ss) && AllElses(it)
        invariant scopes != [] && |scopes| == |old(scopes)| && scopes[..|scopes| - 1] == old(scopes)[..|scopes| - 1]
        invariant (old(hadError) || !CkStmts(old(scopes), ss)) == (hadError || !CkStmts(scopes, it))
        decreases it
      {
        Statement(it.head);
        it := it.tail;
      }
    }

    method ForStatement(s: Stmt)
      requires s.ForC? && Elses(s)
      modifies this
      ensures scopes == old(scopes) && hadError == (old(hadError) || !CkStmt(old(scopes), s))
      decreases s, 0
    {
      hide CkExpr, CkEffect, CkBlock;
      ghost var below := scopes;
      Push();
      if s.first.Some? { Statement(s.first.value); }
      if s.test.Some? { Expression(s.test.value); }
      if s.step.Some? { OnEffect(s.step.value); }
      BlockOf(s.body);
      Restore(below);
    }

    method ArmsOf(arms: Arms)
      requires ArmsElses(arms)
      modifies this
      ensures scopes == old(scopes) && hadError == (old(hadError) || !CkArms(old(scopes), arms))
      decreases arms, 0
    {
      hide CkStmt;
      var it := arms;
      while it.MoreArms?
        invariant (it == arms || it < arms) && ArmsElses(it) && scopes == old(scopes)
        invariant (old(hadError) || !CkArms(scopes, arms)) == (hadError || !CkArms(scopes, it))
        decreases it
      {
        ghost var below := scopes;
        Push();
        Statement(it.body);
        Restore(below);
        it := it.rest;
      }
    }
  }
}
