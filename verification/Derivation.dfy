/** The expression grammar as a relation between trees and spans of tokens. The parser decides it: it
    accepts without a report exactly what the grammar spells, as the tree that it spells. */
module Derivation {
  import opened Grammar

  /** The tokens from `p` up to `q` spell `e` where an operand of level `m` is wanted: a tree that binds
      less tightly needs parentheses. A lambda takes in all that follows it, so it needs them too unless
      nothing of the expression follows (`last`). */
  ghost predicate Spells(ts: seq<Token>, p: nat, q: nat, e: Tree, m: int, last: bool)
    decreases q - p, 2
  {
    p < q <= |ts| && (Enclosed(ts, p, q, e) || Bare(ts, p, q, e, m, last))
  }

  ghost predicate Enclosed(ts: seq<Token>, p: nat, q: nat, e: Tree)
    requires p < q <= |ts|
    decreases q - p, 0
  {
    ts[p] == TLParen && ts[q - 1] == TRParen && q - p >= 2 && Spells(ts, p + 1, q - 1, e, -1, true)
  }

  /** Without parentheses around it. The left operand of a binary operator binds at least as tightly as the
      operator, the right one more tightly. */
  ghost predicate Bare(ts: seq<Token>, p: nat, q: nat, e: Tree, m: int, last: bool)
    requires p < q <= |ts|
    decreases q - p, 1
  {
    match e
    case Int(n) => q == p + 1 && ts[p] == TInt(n)
    case Long(n) => q == p + 1 && ts[p] == TLong(n)
    case Bool(b) => q == p + 1 && ts[p] == TBool(b)
    case Char(c) => q == p + 1 && ts[p] == TChar(c)
    case Ident(x) => q == p + 1 && ts[p] == TIdent(x)
    case This => q == p + 1 && ts[p] == TThis
    case Prefix(o, e1) => m <= 11 && ts[p] == PrefixToken(o) && Spells(ts, p + 1, q, e1, 11, last)
    case Binary(op, l, r) => m <= Prec(op) && Between(ts, p, q, l, Prec(op), TOp(op), r, Prec(op) + 1, last)
    case Assign(l, r) => m <= -1 && last && Between(ts, p, q, l, 0, TAssign, r, -1, true)
    case Compound(op, l, r) => m <= -1 && last && Between(ts, p, q, l, 0, TCompound(op), r, -1, true)
    case Call(f, args) =>
      && ts[q - 1] == TRParen
      && exists k ::
           p < k < q - 1 && ts[k] == TLParen && Spells(ts, p, k, f, 12, false) && SpellsAll(ts, k + 1, q - 1, args)
    case Field(o, x) => q - p >= 3 && ts[q - 2] == TDot && ts[q - 1] == TIdent(x) && Spells(ts, p, q - 2, o, 12, false)
    case Index(o, i) => ts[q - 1] == TRBracket && Between(ts, p, q - 1, o, 12, TLBracket, i, -1, true)
    case PostInc(e1) => ts[q - 1] == TInc && Spells(ts, p, q - 1, e1, 12, false)
    case PostDec(e1) => ts[q - 1] == TDec && Spells(ts, p, q - 1, e1, 12, false)
    case ArrayLit(es) => ts[p] == TLBracket && ts[q - 1] == TRBracket && q - p >= 2 && SpellsAll(ts, p + 1, q - 1, es)
    case Lambda(ps, b) =>
      && last && ts[p] == TOp(Pipe)
      && exists k :: p < k < q && SpellsParams(ts, p + 1, k, ps) && Spells(ts, Closed(ts, k), q, b, -1, true)
  }

  /** An operand, a token, another operand. */
  ghost predicate Between(ts: seq<Token>, p: nat, q: nat, l: Tree, lm: int, t: Token, r: Tree, rm: int, last: bool)
    requires q <= |ts|
    decreases q - p, 0
  {
    exists k :: p < k < q && ts[k] == t && Spells(ts, p, k, l, lm, false) && Spells(ts, k + 1, q, r, rm, last)
  }

  /** Where the token is. */
  ghost function Middle(ts: seq<Token>, p: nat, q: nat, l: Tree, lm: int, t: Token, r: Tree, rm: int,
                        last: bool): (k: nat)
    requires q <= |ts| && Between(ts, p, q, l, lm, t, r, rm, last)
    ensures p < k < q && ts[k] == t && Spells(ts, p, k, l, lm, false) && Spells(ts, k + 1, q, r, rm, last)
  {
    var k :| p < k < q && ts[k] == t && Spells(ts, p, k, l, lm, false) && Spells(ts, k + 1, q, r, rm, last);
    k
  }

  /** The bar behind the parameters may be missing. */
  function Closed(ts: seq<Token>, k: nat): nat {
    if Cur(ts, k) == TOp(Pipe) then k + 1 else k
  }

  /** Expressions between commas; a comma may follow the last one. */
  ghost predicate SpellsAll(ts: seq<Token>, p: nat, q: nat, es: Trees)
    decreases q - p, 3
  {
    match es
    case NoTrees => p == q
    case MoreTrees(e, rest) =>
      || (rest == NoTrees && Spells(ts, p, q, e, -1, true))
      || exists k ::
           p < k < q <= |ts| && ts[k] == TComma && Spells(ts, p, k, e, -1, true) && SpellsAll(ts, k + 1, q, rest)
  }

  /** Names between commas. If there are none, or a comma follows the last one, a bar must come next. */
  predicate SpellsParams(ts: seq<Token>, p: nat, q: nat, ps: seq<Name>)
    decreases |ps|
  {
    if ps == [] then p == q && Cur(ts, q) == TOp(Pipe)
    else
      && p < q && Cur(ts, p) == TIdent(ps[0])
      && (if Cur(ts, p + 1) == TComma then SpellsParams(ts, p + 2, q, ps[1..]) else |ps| == 1 && q == p + 1)
  }

  /** What will do for a tight position will do for a loose one. */
  lemma {:induction false} Looser(ts: seq<Token>, p: nat, q: nat, e: Tree, j: int, m: int, last: bool)
    requires Spells(ts, p, q, e, j, last) && m <= j
    ensures Spells(ts, p, q, e, m, last)
  {
    hide Prec;
  }

  lemma {:induction false} Longer(ts: seq<Token>, p: nat, q: nat, e: Tree, m: int, last: bool)
    requires Spells(ts, p, q, e, m, last)
    ensures p < q <= |ts|
  {
  }

  // ----- reports stay -----

  lemma {:induction false} RestKeepsBad(ts: seq<Token>, l: Parsed<Tree>, m: nat)
    requires l.pos <= |ts|
    ensures l.bad ==> ParseRest(ts, l, m).bad
    decreases |ts| - l.pos
  {
    hide ParseBinary;
    var t := Cur(ts, l.pos);
    if t.TOp? && Prec(t.op) >= m {
      var r := ParseBinary(ts, l.pos + 1, Prec(t.op) + 1);
      RestKeepsBad(ts, Parsed(Binary(t.op, l.val, r.val), r.pos, l.bad || r.bad), m);
    }
  }

  lemma {:induction false} PostfixKeepsBad(ts: seq<Token>, n: Parsed<Tree>)
    requires n.pos <= |ts|
    ensures n.bad ==> PostfixRest(ts, n).bad
    decreases |ts| - n.pos
  {
    hide PostfixStep;
    if Extends(Cur(ts, n.pos)) && !Dangling(ts, n.pos) { PostfixKeepsBad(ts, PostfixStep(ts, n)); }
  }

  /** The loop goes on as long as it may. */
  lemma {:induction false} RestStops(ts: seq<Token>, l: Parsed<Tree>, m: nat)
    requires l.pos <= |ts|
    ensures
      var t := Cur(ts, ParseRest(ts, l, m).pos);
      t.TOp? ==> Prec(t.op) < m
    decreases |ts| - l.pos
  {
    hide ParseBinary;
    var t := Cur(ts, l.pos);
    if t.TOp? && Prec(t.op) >= m {
      var r := ParseBinary(ts, l.pos + 1, Prec(t.op) + 1);
      RestStops(ts, Parsed(Binary(t.op, l.val, r.val), r.pos, l.bad || r.bad), m);
    }
  }

  // ----- whatever is accepted is spelt so -----

  ghost predicate AtEnd(ts: seq<Token>, q: nat) {
    Stops(Cur(ts, q))
  }

  /** Every expression that is parsed without a report is spelt by exactly the tokens it took. */
  lemma {:induction false} ExprSpells(ts: seq<Token>, p: nat)
    requires p <= |ts|
    ensures
      var r := ParseExpr(ts, p);
      !r.bad ==> Spells(ts, p, r.pos, r.val, -1, true) && AtEnd(ts, r.pos)
    decreases |ts| - p, 6
  {
    hide ParseBinary, Spells;
    var l, r := ParseBinary(ts, p, 0), ParseExpr(ts, p);
    if !r.bad {
      BinarySpells(ts, p, 0);
      EndOfBinary(ts, p, 0);
      var t := Cur(ts, l.pos);
      if t == TAssign || t.TCompound? {
        ExprSpells(ts, l.pos + 1);
        Assigned(ts, p, l, ParseExpr(ts, l.pos + 1));
      } else {
        Looser(ts, p, l.pos, l.val, 0, -1, true);
      }
    }
  }

  lemma {:induction false} Assigned(ts: seq<Token>, p: nat, l: Parsed<Tree>, r: Parsed<Tree>)
    requires p < l.pos < |ts| && (ts[l.pos] == TAssign || ts[l.pos].TCompound?)
    requires Spells(ts, p, l.pos, l.val, 0, false) && Spells(ts, l.pos + 1, r.pos, r.val, -1, true)
    ensures
      var e := if ts[l.pos] == TAssign then Assign(l.val, r.val) else Compound(ts[l.pos].cop, l.val, r.val);
      Spells(ts, p, r.pos, e, -1, true)
  {
    assert Between(ts, p, r.pos, l.val, 0, ts[l.pos], r.val, -1, true);
  }

  /** And where operators of at least a given precedence are wanted, looser ones occur only in parentheses. */
  lemma {:induction false} BinarySpells(ts: seq<Token>, p: nat, m: nat)
    requires p <= |ts| && m <= 11
    ensures
      var r := ParseBinary(ts, p, m);
      !r.bad ==> Spells(ts, p, r.pos, r.val, m, AtEnd(ts, r.pos)) && !Extends(Cur(ts, r.pos))
    decreases |ts| - p, 5
  {
    hide ParseUnary, ParseRest, Spells;
    var l := ParseUnary(ts, p);
    RestKeepsBad(ts, l, m);
    if !ParseBinary(ts, p, m).bad {
      UnarySpells(ts, p);
      Longer(ts, p, l.pos, l.val, 11, AtEnd(ts, l.pos));
      RestSpells(ts, p, l, m, 11);
    }
  }

  lemma {:induction false} RestSpells(ts: seq<Token>, p: nat, l: Parsed<Tree>, m: nat, j: nat)
    requires p < l.pos <= |ts| && m <= j && Spells(ts, p, l.pos, l.val, j, AtEnd(ts, l.pos)) && !ParseRest(ts, l, m).bad
    requires Follows(Cur(ts, l.pos), j)
    ensures
      var r := ParseRest(ts, l, m);
      Spells(ts, p, r.pos, r.val, m, AtEnd(ts, r.pos)) && !Extends(Cur(ts, r.pos))
    decreases |ts| - l.pos, 4
  {
    hide ParseBinary, Prec, Spells, Extends;
    var t := Cur(ts, l.pos);
    if t.TOp? && Prec(t.op) >= m {
      var k := Prec(t.op);
      var r := ParseBinary(ts, l.pos + 1, k + 1);
      var n := Parsed(Binary(t.op, l.val, r.val), r.pos, l.bad || r.bad);
      RestKeepsBad(ts, n, m);
      BinarySpells(ts, l.pos + 1, k + 1);
      Folded(ts, p, l, t.op, r, j, AtEnd(ts, r.pos));
      EndOfBinary(ts, l.pos + 1, k + 1);
      RestSpells(ts, p, n, m, k);
    } else {
      Looser(ts, p, l.pos, l.val, j, m, AtEnd(ts, l.pos));
    }
  }

  lemma {:induction false} EndOfBinary(ts: seq<Token>, p: nat, m: nat)
    requires p <= |ts|
    ensures
      var t := Cur(ts, ParseBinary(ts, p, m).pos);
      t.TOp? ==> Prec(t.op) < m
  {
    hide ParseRest, ParseUnary;
    RestStops(ts, ParseUnary(ts, p), m);
  }

  /** One operator more. */
  lemma {:induction false} Folded(ts: seq<Token>, p: nat, l: Parsed<Tree>, op: Infix, r: Parsed<Tree>, j: int,
                                  last: bool)
    requires p < l.pos < |ts| && ts[l.pos] == TOp(op) && Prec(op) <= j
    requires Spells(ts, p, l.pos, l.val, j, false) && Spells(ts, l.pos + 1, r.pos, r.val, Prec(op) + 1, last)
    ensures Spells(ts, p, r.pos, Binary(op, l.val, r.val), Prec(op), last)
  {
    Looser(ts, p, l.pos, l.val, j, Prec(op), false);
    assert Between(ts, p, r.pos, l.val, Prec(op), TOp(op), r.val, Prec(op) + 1, last);
  }

  lemma {:induction false} UnarySpells(ts: seq<Token>, p: nat)
    requires p <= |ts|
    ensures
      var r := ParseUnary(ts, p);
      !r.bad ==> Spells(ts, p, r.pos, r.val, 11, AtEnd(ts, r.pos)) && !Extends(Cur(ts, r.pos))
    decreases |ts| - p, 3
  {
    hide ParsePostfix, AtEnd, Spells;
    if PrefixOf(Cur(ts, p)).Some? {
      UnarySpells(ts, p + 1);
      var r := ParseUnary(ts, p + 1);
      if !r.bad { Prefixed(ts, p, r, AtEnd(ts, r.pos)); }
    } else if !ParsePostfix(ts, p).bad {
      PostfixSpells(ts, p);
      var r := ParsePostfix(ts, p);
      Looser(ts, p, r.pos, r.val, 12, 11, AtEnd(ts, r.pos));
    }
  }

  lemma {:induction false} Prefixed(ts: seq<Token>, p: nat, r: Parsed<Tree>, last: bool)
    requires PrefixOf(Cur(ts, p)).Some? && Spells(ts, p + 1, r.pos, r.val, 11, last)
    ensures Spells(ts, p, r.pos, Prefix(PrefixOf(Cur(ts, p)).value, r.val), 11, last)
  {
    Longer(ts, p + 1, r.pos, r.val, 11, last);
  }

  lemma {:induction false} PostfixSpells(ts: seq<Token>, p: nat)
    requires p <= |ts|
    ensures
      var r := ParsePostfix(ts, p);
      !r.bad ==> Spells(ts, p, r.pos, r.val, 12, AtEnd(ts, r.pos)) && !Extends(Cur(ts, r.pos))
    decreases |ts| - p, 2
  {
    hide ParsePrimary, PostfixRest, Spells;
    var n := ParsePrimary(ts, p);
    PostfixKeepsBad(ts, n);
    if !ParsePostfix(ts, p).bad {
      PrimarySpells(ts, p);
      Longer(ts, p, n.pos, n.val, 12, AtEnd(ts, n.pos));
      MoreSpells(ts, p, n);
    }
  }

  lemma {:induction false} MoreSpells(ts: seq<Token>, p: nat, n: Parsed<Tree>)
    requires p < n.pos <= |ts| && Spells(ts, p, n.pos, n.val, 12, AtEnd(ts, n.pos)) && !PostfixRest(ts, n).bad
    ensures
      var r := PostfixRest(ts, n);
      Spells(ts, p, r.pos, r.val, 12, AtEnd(ts, r.pos)) && !Extends(Cur(ts, r.pos))
    decreases |ts| - n.pos, 1
  {
    hide PostfixStep, Spells;
    if Extends(Cur(ts, n.pos)) {
      var r := PostfixStep(ts, n);
      PostfixKeepsBad(ts, r);
      StepSpells(ts, p, n, AtEnd(ts, r.pos));
      if Dangling(ts, n.pos) { DanglingBad(ts, n); } else { MoreSpells(ts, p, r); }
    }
  }

  lemma {:induction false} DanglingBad(ts: seq<Token>, n: Parsed<Tree>)
    requires n.pos < |ts| && Dangling(ts, n.pos)
    ensures PostfixStep(ts, n).bad
  {
  }

  lemma {:induction false} StepSpells(ts: seq<Token>, p: nat, n: Parsed<Tree>, last: bool)
    requires p < n.pos < |ts| && Extends(Cur(ts, n.pos)) && Spells(ts, p, n.pos, n.val, 12, false)
    requires !PostfixStep(ts, n).bad
    ensures Spells(ts, p, PostfixStep(ts, n).pos, PostfixStep(ts, n).val, 12, last)
    decreases |ts| - n.pos, 0
  {
    hide ParseExpr, ParseList, Spells, SpellsAll, Bare;
    var t, k := ts[n.pos], n.pos;
    if t == TDot {
      DotSpells(ts, p, n, last);
    } else if t == TLParen {
      ListSpells(ts, k + 1, TRParen);
      Called(ts, p, k, n.val, ParseList(ts, k + 1, TRParen), last);
    } else if t == TLBracket {
      ExprSpells(ts, k + 1);
      Indexed(ts, p, n, ParseExpr(ts, k + 1), last);
    } else {
      Stepped(ts, p, k, n.val, last);
    }
  }

  lemma {:induction false} DotSpells(ts: seq<Token>, p: nat, n: Parsed<Tree>, last: bool)
    requires p < n.pos < |ts| && ts[n.pos] == TDot && Spells(ts, p, n.pos, n.val, 12, false) && !PostfixStep(ts, n).bad
    ensures Spells(ts, p, PostfixStep(ts, n).pos, PostfixStep(ts, n).val, 12, last)
    decreases |ts| - n.pos - 1, 8
  {
    hide ParseList, Spells, SpellsAll;
    var k, x := n.pos, Cur(ts, n.pos + 1).x;
    if Cur(ts, k + 2) == TLParen {
      Dotted(ts, p, k, n.val, x, false);
      ListSpells(ts, k + 3, TRParen);
      Called(ts, p, k + 2, Field(n.val, x), ParseList(ts, k + 3, TRParen), last);
    } else {
      Dotted(ts, p, k, n.val, x, last);
    }
  }

  lemma {:induction false} Dotted(ts: seq<Token>, p: nat, k: nat, o: Tree, x: Name, last: bool)
    requires p < k < |ts| - 1 && Spells(ts, p, k, o, 12, false) && ts[k] == TDot && ts[k + 1] == TIdent(x)
    ensures Spells(ts, p, k + 2, Field(o, x), 12, last)
  {
  }

  lemma {:induction false} Stepped(ts: seq<Token>, p: nat, k: nat, e: Tree, last: bool)
    requires p < k < |ts| && Spells(ts, p, k, e, 12, false) && (ts[k] == TInc || ts[k] == TDec)
    ensures Spells(ts, p, k + 1, if ts[k] == TInc then PostInc(e) else PostDec(e), 12, last)
  {
  }

  lemma {:induction false} Called(ts: seq<Token>, p: nat, k: nat, f: Tree, a: Parsed<Trees>, last: bool)
    requires p < k < a.pos < |ts| && ts[k] == TLParen && Spells(ts, p, k, f, 12, false)
    requires SpellsAll(ts, k + 1, a.pos, a.val) && ts[a.pos] == TRParen
    ensures Spells(ts, p, a.pos + 1, Tree.Call(f, a.val), 12, last)
  {
  }

  lemma {:induction false} Indexed(ts: seq<Token>, p: nat, n: Parsed<Tree>, i: Parsed<Tree>, last: bool)
    requires p < n.pos < i.pos < |ts| && ts[n.pos] == TLBracket && Spells(ts, p, n.pos, n.val, 12, false)
    requires Spells(ts, n.pos + 1, i.pos, i.val, -1, true) && ts[i.pos] == TRBracket
    ensures Spells(ts, p, i.pos + 1, Index(n.val, i.val), 12, last)
  {
    assert Between(ts, p, i.pos, n.val, 12, TLBracket, i.val, -1, true);
  }

  lemma {:induction false} ListSpells(ts: seq<Token>, p: nat, close: Token)
    requires p <= |ts|
    ensures
      var r := ParseList(ts, p, close);
      !r.bad ==> SpellsAll(ts, p, r.pos, r.val)
    decreases |ts| - p, 7
  {
    hide ParseList, ParseExpr, Spells, SpellsAll;
    ListDef(ts, p, close);
    if Cur(ts, p) == close || Cur(ts, p) == TEof {
      NothingSpelt(ts, p);
    } else if !ParseList(ts, p, close).bad {
      var e := ParseExpr(ts, p);
      ExprSpells(ts, p);
      if Cur(ts, e.pos) == TComma {
        ListSpells(ts, e.pos + 1, close);
        MoreSpelt(ts, p, e, ParseList(ts, e.pos + 1, close));
      } else {
        OneSpelt(ts, p, e);
      }
    }
  }

  lemma {:induction false} ListDef(ts: seq<Token>, p: nat, close: Token)
    requires p <= |ts|
    ensures
      var e := ParseExpr(ts, p);
      ParseList(ts, p, close) ==
      if Cur(ts, p) == close || Cur(ts, p) == TEof then Parsed(NoTrees, p, false)
      else if Cur(ts, e.pos) == TComma then
        var rest := ParseList(ts, e.pos + 1, close);
        Parsed(MoreTrees(e.val, rest.val), rest.pos, e.bad || rest.bad)
      else Parsed(MoreTrees(e.val, NoTrees), e.pos, e.bad)
  {
    hide ParseExpr;
  }

  lemma {:induction false} NothingSpelt(ts: seq<Token>, p: nat)
    ensures SpellsAll(ts, p, p, NoTrees)
  {
  }

  lemma {:induction false} OneSpelt(ts: seq<Token>, p: nat, e: Parsed<Tree>)
    requires Spells(ts, p, e.pos, e.val, -1, true)
    ensures SpellsAll(ts, p, e.pos, MoreTrees(e.val, NoTrees))
  {
  }

  lemma {:induction false} MoreSpelt(ts: seq<Token>, p: nat, e: Parsed<Tree>, rest: Parsed<Trees>)
    requires Spells(ts, p, e.pos, e.val, -1, true) && Cur(ts, e.pos) == TComma && e.pos < rest.pos <= |ts|
    requires SpellsAll(ts, e.pos + 1, rest.pos, rest.val)
    ensures SpellsAll(ts, p, rest.pos, MoreTrees(e.val, rest.val))
  {
    Longer(ts, p, e.pos, e.val, -1, true);
    hide Spells;
  }

  lemma {:induction false} ParamsSpell(ts: seq<Token>, p: nat)
    requires p <= |ts|
    ensures
      var r := ParseParams(ts, p);
      !r.bad && Cur(ts, r.pos) != TEof ==> SpellsParams(ts, p, r.pos, r.val)
    decreases |ts| - p
  {
    var t := Cur(ts, p);
    if t.TIdent? && Cur(ts, p + 1) == TComma {
      ParamsSpell(ts, p + 2);
      assert ([t.x] + ParseParams(ts, p + 2).val)[1..] == ParseParams(ts, p + 2).val;
    }
  }

  lemma {:induction false} PrimarySpells(ts: seq<Token>, p: nat)
    requires p <= |ts|
    ensures
      var r := ParsePrimary(ts, p);
      !r.bad ==> Spells(ts, p, r.pos, r.val, 12, AtEnd(ts, r.pos))
    decreases |ts| - p, 0
  {
    hide ParseExpr, ParseList, ParseParams, SpellsAll, SpellsParams, AtEnd;
    var t, r := Cur(ts, p), ParsePrimary(ts, p);
    if t == TLBracket {
      hide Spells;
      ListSpells(ts, p + 1, TRBracket);
      if !r.bad { Listed(ts, p, ParseList(ts, p + 1, TRBracket), AtEnd(ts, r.pos)); }
    } else if t == TLParen {
      hide Spells;
      ExprSpells(ts, p + 1);
      if !r.bad { Wrapped(ts, p, ParseExpr(ts, p + 1), AtEnd(ts, r.pos)); }
    } else if t == TOp(Pipe) {
      hide Spells;
      ParamsSpell(ts, p + 1);
      var a := ParseParams(ts, p + 1);
      var k := Closed(ts, a.pos);
      ExprSpells(ts, k);
      if !r.bad { Bound(ts, p, a, k, ParseExpr(ts, k)); }
    }
  }

  lemma {:induction false} Listed(ts: seq<Token>, p: nat, a: Parsed<Trees>, last: bool)
    requires p < a.pos < |ts| && ts[p] == TLBracket && ts[a.pos] == TRBracket && SpellsAll(ts, p + 1, a.pos, a.val)
    ensures Spells(ts, p, a.pos + 1, ArrayLit(a.val), 12, last)
  {
  }

  lemma {:induction false} Wrapped(ts: seq<Token>, p: nat, e: Parsed<Tree>, last: bool)
    requires p < e.pos < |ts| && ts[p] == TLParen && ts[e.pos] == TRParen && Spells(ts, p + 1, e.pos, e.val, -1, true)
    ensures Spells(ts, p, e.pos + 1, e.val, 12, last)
  {
  }

  lemma {:induction false} Bound(ts: seq<Token>, p: nat, a: Parsed<seq<Name>>, k: nat, b: Parsed<Tree>)
    requires p < a.pos <= |ts| && ts[p] == TOp(Pipe) && k == Closed(ts, a.pos)
    requires Cur(ts, a.pos) != TEof ==> SpellsParams(ts, p + 1, a.pos, a.val)
    requires Spells(ts, k, b.pos, b.val, -1, true) && AtEnd(ts, b.pos)
    ensures Spells(ts, p, b.pos, Lambda(a.val, b.val), 12, AtEnd(ts, b.pos))
  {
    SpeltStart(ts, k, b.pos, b.val, -1, true);
  }

  /** Trees whose tokens begin with those of an operand. */
  predicate Opens(e: Tree) {
    e.Binary? || e.Assign? || e.Compound? || e.Call? || e.Field? || e.Index? || e.PostInc? || e.PostDec?
  }

  /** That operand, its level and where it ends. */
  ghost function Opening(ts: seq<Token>, p: nat, q: nat, e: Tree, m: int, last: bool): (r: (nat, Tree, int))
    requires p < q <= |ts| && Opens(e) && Bare(ts, p, q, e, m, last)
    ensures r.0 < q && Spells(ts, p, r.0, r.1, r.2, false) && (m == 12 ==> r.2 == 12)
  {
    hide Spells, Prec, Between, SpellsAll;
    match e
    case Binary(op, l, r) => (Middle(ts, p, q, l, Prec(op), TOp(op), r, Prec(op) + 1, last), l, Prec(op))
    case Assign(l, r) => (Middle(ts, p, q, l, 0, TAssign, r, -1, true), l, 0)
    case Compound(op, l, r) => (Middle(ts, p, q, l, 0, TCompound(op), r, -1, true), l, 0)
    case Call(f, args) =>
      var k :| p < k < q - 1 && ts[k] == TLParen && Spells(ts, p, k, f, 12, false) && SpellsAll(ts, k + 1, q - 1, args);
      (k, f, 12)
    case Field(o, _) => (q - 2, o, 12)
    case Index(o, i) => (Middle(ts, p, q - 1, o, 12, TLBracket, i, -1, true), o, 12)
    case PostInc(e1) => (q - 1, e1, 12)
    case PostDec(e1) => (q - 1, e1, 12)
  }

  /** No expression starts with a token that ends a list, or in front of the end. */
  lemma {:induction false} SpeltStart(ts: seq<Token>, p: nat, q: nat, e: Tree, m: int, last: bool)
    requires Spells(ts, p, q, e, m, last)
    ensures
      var t := Cur(ts, p);
      t != TRParen && t != TRBracket && t != TEof && t != TComma
    decreases q - p
  {
    if Opens(e) && !Enclosed(ts, p, q, e) {
      hide Bare;
      var (k, l, n) := Opening(ts, p, q, e, m, last);
      SpeltStart(ts, p, k, l, n, false);
    } else if e.Prefix? {
      assert Enclosed(ts, p, q, e) || PrefixOf(ts[p]).Some?;
    }
  }

  // ----- single steps of the parser -----

  /** Nothing is left to fold in. */
  lemma {:induction false} ExprOfBinary(ts: seq<Token>, p: nat, e: Tree, q: nat)
    requires p <= |ts| && q <= |ts| && ParseBinary(ts, p, 0) == ParseRest(ts, Parsed(e, q, false), 0)
    requires Stops(Cur(ts, q))
    ensures ParseExpr(ts, p) == Parsed(e, q, false)
  {
    hide ParseBinary;
  }

  lemma {:induction false} BinaryOfPostfix(ts: seq<Token>, p: nat, e: Tree, q: nat, m: nat)
    requires p <= |ts| && q <= |ts| && ParseUnary(ts, p) == Parsed(e, q, false)
    ensures ParseBinary(ts, p, m) == ParseRest(ts, Parsed(e, q, false), m)
  {
    hide ParseUnary, ParseRest;
  }

  lemma {:induction false} AssignToken(t: Token)
    requires t == TAssign || t.TCompound?
    ensures Follows(t, 0) && !t.TOp?
  {
  }

  lemma {:induction false} ExprOfAssign(ts: seq<Token>, p: nat, e: Tree, q: nat, r: nat)
    requires (e.Assign? || e.Compound?) && p <= |ts| && q < |ts|
    requires ts[q] == (if e.Assign? then TAssign else TCompound(e.cop))
    requires ParseBinary(ts, p, 0) == ParseRest(ts, Parsed(e.l, q, false), 0)
    requires ParseExpr(ts, q + 1) == Parsed(e.r, r, false)
    ensures ParseExpr(ts, p) == Parsed(e, r, false)
  {
    hide ParseBinary;
  }

  lemma {:induction false} OperatorFollows(op: Infix, t: Token, k: int)
    requires Prec(op) >= k && Follows(t, k)
    ensures Follows(TOp(op), Prec(op)) && Follows(t, Prec(op) + 1) && (t.TOp? ==> Prec(t.op) <= Prec(op))
  {
  }

  /** The left operand is folded with the operator and the right operand, which stops where it should. */
  lemma {:induction false} FoldOne(ts: seq<Token>, e: Tree, q: nat, r: nat, m: nat)
    requires e.Binary? && m <= Prec(e.op) && q < |ts| && r <= |ts| && Cur(ts, q) == TOp(e.op)
    requires ParseBinary(ts, q + 1, Prec(e.op) + 1) == ParseRest(ts, Parsed(e.r, r, false), Prec(e.op) + 1)
    requires Cur(ts, r).TOp? ==> Prec(Cur(ts, r).op) <= Prec(e.op)
    ensures ParseRest(ts, Parsed(e.l, q, false), m) == ParseRest(ts, Parsed(e, r, false), m)
  {
    hide ParseBinary, Prec;
    assert ParseRest(ts, Parsed(e.r, r, false), Prec(e.op) + 1) == Parsed(e.r, r, false);
  }

  lemma {:induction false} InnerNotBinary(e: Tree)
    ensures e.Binary? ==> Prec(e.op) < 11
  {
  }

  lemma {:induction false} FollowsOnly(t: Token, k: int)
    requires Follows(t, k)
    ensures !Extends(t)
  {
  }

  lemma {:induction false} UnaryOfPrefix(ts: seq<Token>, p: nat, e: Tree, q: nat)
    requires e.Prefix? && p < |ts| && Cur(ts, p) == PrefixToken(e.pre) && ParseUnary(ts, p + 1) == Parsed(e.e, q, false)
    ensures ParseUnary(ts, p) == Parsed(e, q, false)
  {
    hide PrefixToken, PrefixOf, ParsePostfix;
  }

  lemma {:induction false} UnaryOfPostfix(ts: seq<Token>, p: nat, e: Tree, q: nat)
    requires p <= |ts| && q <= |ts| && PrefixOf(Cur(ts, p)).None? && !Extends(Cur(ts, q))
    requires ParsePostfix(ts, p) == PostfixRest(ts, Parsed(e, q, false))
    ensures ParseUnary(ts, p) == Parsed(e, q, false)
  {
    hide PrefixOf, ParsePostfix;
  }

  lemma {:induction false} PostfixOfParen(ts: seq<Token>, p: nat, e: Tree, q: nat)
    requires p < q <= |ts| && Cur(ts, p) == TLParen && Cur(ts, q - 1) == TRParen
    requires ParseExpr(ts, p + 1) == Parsed(e, q - 1, false)
    ensures ParsePostfix(ts, p) == PostfixRest(ts, Parsed(e, q, false))
  {
    hide ParseExpr, PostfixRest;
  }

  lemma {:induction false} PostfixCall(ts: seq<Token>, f: Tree, args: Trees, q: nat, r: nat)
    requires q < r < |ts| && Cur(ts, q) == TLParen && Cur(ts, r) == TRParen
    requires ParseList(ts, q + 1, TRParen) == Parsed(args, r, false)
    ensures PostfixRest(ts, Parsed(f, q, false)) == PostfixRest(ts, Parsed(Tree.Call(f, args), r + 1, false))
  {
    hide ParseList, ParseExpr;
  }

  /** A field that is called at once is read as the call of the field. */
  lemma {:induction false} PostfixField(ts: seq<Token>, o: Tree, x: Name, q: nat)
    requires q + 2 <= |ts| && Cur(ts, q) == TDot && Cur(ts, q + 1) == TIdent(x)
    ensures PostfixRest(ts, Parsed(o, q, false)) == PostfixRest(ts, Parsed(Field(o, x), q + 2, false))
  {
    hide ParseList, ParseExpr;
  }

  lemma {:induction false} PostfixIndex(ts: seq<Token>, o: Tree, i: Tree, q: nat, r: nat)
    requires q < r < |ts| && Cur(ts, q) == TLBracket && Cur(ts, r) == TRBracket
    requires ParseExpr(ts, q + 1) == Parsed(i, r, false)
    ensures PostfixRest(ts, Parsed(o, q, false)) == PostfixRest(ts, Parsed(Index(o, i), r + 1, false))
  {
    hide ParseList, ParseExpr;
  }

  lemma {:induction false} PostfixOfStep(ts: seq<Token>, e: Tree, q: nat)
    requires (e.PostInc? || e.PostDec?) && q < |ts| && Cur(ts, q) == (if e.PostInc? then TInc else TDec)
    ensures PostfixRest(ts, Parsed(e.e, q, false)) == PostfixRest(ts, Parsed(e, q + 1, false))
  {
    hide ParseList, ParseExpr;
  }

  lemma {:induction false} PostfixOfArray(ts: seq<Token>, p: nat, es: Trees, r: nat)
    requires p < r < |ts| && Cur(ts, p) == TLBracket && Cur(ts, r) == TRBracket
    requires ParseList(ts, p + 1, TRBracket) == Parsed(es, r, false)
    ensures ParsePostfix(ts, p) == PostfixRest(ts, Parsed(ArrayLit(es), r + 1, false))
  {
    hide ParseList, ParseExpr, PostfixRest;
  }

  lemma {:induction false} ListNone(ts: seq<Token>, p: nat, close: Token)
    requires p <= |ts| && Cur(ts, p) == close
    ensures ParseList(ts, p, close) == Parsed(NoTrees, p, false)
  {
    hide ParseExpr;
  }

  lemma {:induction false} ListLast(ts: seq<Token>, p: nat, e: Tree, q: nat, close: Token)
    requires p <= |ts| && Cur(ts, p) != close && Cur(ts, p) != TEof && ParseExpr(ts, p) == Parsed(e, q, false)
    requires Cur(ts, q) == close && close != TComma
    ensures ParseList(ts, p, close) == Parsed(MoreTrees(e, NoTrees), q, false)
  {
    hide ParseExpr;
  }

  lemma {:induction false} ListMore(ts: seq<Token>, p: nat, e: Tree, rest: Trees, q: nat, r: nat, close: Token)
    requires p <= |ts| && Cur(ts, p) != close && Cur(ts, p) != TEof && ParseExpr(ts, p) == Parsed(e, q, false)
    requires q < |ts| && Cur(ts, q) == TComma && ParseList(ts, q + 1, close) == Parsed(rest, r, false)
    ensures ParseList(ts, p, close) == Parsed(MoreTrees(e, rest), r, false)
  {
    hide ParseExpr;
  }

  // ----- whatever is spelt is accepted -----

  /** A whole expression, up to a token that ends it. */
  lemma {:induction false} ExprReads(ts: seq<Token>, p: nat, q: nat, e: Tree)
    requires Spells(ts, p, q, e, -1, true) && AtEnd(ts, q)
    ensures p < q <= |ts| && ParseExpr(ts, p) == Parsed(e, q, false)
    decreases q - p, 5
  {
    hide *;
    Longer(ts, p, q, e, -1, true);
    EndFollows(ts, q, 0);
    if (e.Assign? || e.Compound?) && !Enclosed(ts, p, q, e) {
      var k := AssignAt(ts, p, q, e);
      AssignToken(ts[k]);
      BinaryReads(ts, p, k, e.l, 0, false, 0);
      ExprReads(ts, k + 1, q, e.r);
      ExprOfAssign(ts, p, e, k, q);
    } else {
      NoAssign(ts, p, q, e);
      BinaryReads(ts, p, q, e, 0, true, 0);
      ExprOfBinary(ts, p, e, q);
    }
  }

  lemma {:induction false} EndFollows(ts: seq<Token>, q: nat, k: int)
    requires AtEnd(ts, q)
    ensures Follows(Cur(ts, q), k) && Stops(Cur(ts, q)) && !Extends(Cur(ts, q))
  {
  }

  ghost function AssignAt(ts: seq<Token>, p: nat, q: nat, e: Tree): (k: nat)
    requires p < q <= |ts| && (e.Assign? || e.Compound?) && Spells(ts, p, q, e, -1, true) && !Enclosed(ts, p, q, e)
    ensures p < k < q && Cur(ts, k) == ts[k] == if e.Assign? then TAssign else TCompound(e.cop)
    ensures Spells(ts, p, k, e.l, 0, false) && Spells(ts, k + 1, q, e.r, -1, true)
  {
    assert Bare(ts, p, q, e, -1, true);
    Middle(ts, p, q, e.l, 0, if e.Assign? then TAssign else TCompound(e.cop), e.r, -1, true)
  }

  lemma {:induction false} NoAssign(ts: seq<Token>, p: nat, q: nat, e: Tree)
    requires p < q <= |ts| && Spells(ts, p, q, e, -1, true) && ((e.Assign? || e.Compound?) ==> Enclosed(ts, p, q, e))
    ensures Spells(ts, p, q, e, 0, true)
  {
    hide Enclosed, Between;
  }

  /** An operand of level `k`, read by a parser that takes level `m` and tighter: parsing goes on behind it as
      if it were the left operand so far. */
  lemma {:induction false} BinaryReads(ts: seq<Token>, p: nat, q: nat, e: Tree, k: int, last: bool, m: nat)
    requires m <= k <= 11 && Spells(ts, p, q, e, k, last) && Follows(Cur(ts, q), k) && (last ==> AtEnd(ts, q))
    ensures p < q <= |ts| && ParseBinary(ts, p, m) == ParseRest(ts, Parsed(e, q, false), m)
    decreases q - p, 4
  {
    hide *;
    Longer(ts, p, q, e, k, last);
    if e.Binary? && !Enclosed(ts, p, q, e) {
      var c := OperatorAt(ts, p, q, e, k, last);
      OperatorFollows(e.op, Cur(ts, q), k);
      InnerNotBinary(e);
      BinaryReads(ts, p, c, e.l, Prec(e.op), false, m);
      BinaryReads(ts, c + 1, q, e.r, Prec(e.op) + 1, last, Prec(e.op) + 1);
      FoldOne(ts, e, c, q, m);
    } else {
      Tighter(ts, p, q, e, k, last);
      FollowsOnly(Cur(ts, q), k);
      UnaryReads(ts, p, q, e, last);
      BinaryOfPostfix(ts, p, e, q, m);
    }
  }

  ghost function OperatorAt(ts: seq<Token>, p: nat, q: nat, e: Tree, m: int, last: bool): (k: nat)
    requires p < q <= |ts| && e.Binary? && Spells(ts, p, q, e, m, last) && !Enclosed(ts, p, q, e)
    ensures p < k < q && Cur(ts, k) == ts[k] == TOp(e.op) && m <= Prec(e.op)
    ensures Spells(ts, p, k, e.l, Prec(e.op), false) && Spells(ts, k + 1, q, e.r, Prec(e.op) + 1, last)
  {
    assert Bare(ts, p, q, e, m, last);
    Middle(ts, p, q, e.l, Prec(e.op), TOp(e.op), e.r, Prec(e.op) + 1, last)
  }

  lemma {:induction false} Tighter(ts: seq<Token>, p: nat, q: nat, e: Tree, k: int, last: bool)
    requires p < q <= |ts| && 0 <= k <= 11 && Spells(ts, p, q, e, k, last) && (e.Binary? ==> Enclosed(ts, p, q, e))
    ensures Spells(ts, p, q, e, 11, last)
  {
    hide Enclosed, Between;
  }

  /** An operand that is not a binary operation open to the parser. */
  lemma {:induction false} UnaryReads(ts: seq<Token>, p: nat, q: nat, e: Tree, last: bool)
    requires Spells(ts, p, q, e, 11, last) && !Extends(Cur(ts, q)) && (last ==> AtEnd(ts, q))
    ensures p < q <= |ts| && ParseUnary(ts, p) == Parsed(e, q, false)
    decreases q - p, 3
  {
    hide *;
    Longer(ts, p, q, e, 11, last);
    if e.Prefix? && !Enclosed(ts, p, q, e) {
      PrefixParts(ts, p, q, e, last);
      UnaryReads(ts, p + 1, q, e.e, last);
      UnaryOfPrefix(ts, p, e, q);
    } else if e.Lambda? && !Enclosed(ts, p, q, e) {
      var k := LambdaParts(ts, p, q, e, last);
      ParamsRead(ts, p + 1, k, e.params);
      ExprReads(ts, Closed(ts, k), q, e.body);
      EndFollows(ts, q, 0);
      LambdaReads(ts, p, e, k, q);
    } else {
      Tightest(ts, p, q, e, last);
      PostfixReads(ts, p, q, e);
      NoPrefix(ts, p, q, e);
      UnaryOfPostfix(ts, p, e, q);
    }
  }

  lemma {:induction false} PrefixParts(ts: seq<Token>, p: nat, q: nat, e: Tree, last: bool)
    requires p < q <= |ts| && e.Prefix? && Spells(ts, p, q, e, 11, last) && !Enclosed(ts, p, q, e)
    ensures Cur(ts, p) == PrefixToken(e.pre) && Spells(ts, p + 1, q, e.e, 11, last)
  {
    hide PrefixToken;
  }

  ghost function LambdaParts(ts: seq<Token>, p: nat, q: nat, e: Tree, last: bool): (k: nat)
    requires p < q <= |ts| && e.Lambda? && Spells(ts, p, q, e, 11, last) && !Enclosed(ts, p, q, e)
    ensures last && p < k < q && Cur(ts, p) == TOp(Pipe) && SpellsParams(ts, p + 1, k, e.params)
    ensures p < k <= Closed(ts, k) && Spells(ts, Closed(ts, k), q, e.body, -1, true)
  {
    assert Bare(ts, p, q, e, 11, last);
    var k :| p < k < q && SpellsParams(ts, p + 1, k, e.params) && Spells(ts, Closed(ts, k), q, e.body, -1, true);
    k
  }

  lemma {:induction false} Tightest(ts: seq<Token>, p: nat, q: nat, e: Tree, last: bool)
    requires p < q <= |ts| && Spells(ts, p, q, e, 11, last) && (e.Prefix? || e.Lambda? ==> Enclosed(ts, p, q, e))
    ensures Spells(ts, p, q, e, 12, false)
  {
    hide Enclosed, Between;
  }

  /** An operand at the tightest level starts with no prefix operator. */
  lemma {:induction false} NoPrefix(ts: seq<Token>, p: nat, q: nat, e: Tree)
    requires Spells(ts, p, q, e, 12, false)
    ensures PrefixOf(Cur(ts, p)).None?
    decreases q - p
  {
    if Opens(e) && !Enclosed(ts, p, q, e) {
      hide Bare;
      var (k, l, n) := Opening(ts, p, q, e, 12, false);
      NoPrefix(ts, p, k, l);
    }
  }

  ghost function CallAt(ts: seq<Token>, p: nat, q: nat, e: Tree): (k: nat)
    requires p < q <= |ts| && e.Call? && Spells(ts, p, q, e, 12, false) && !Enclosed(ts, p, q, e)
    ensures p < k < q - 1 && Cur(ts, k) == TLParen && Cur(ts, q - 1) == TRParen
    ensures Spells(ts, p, k, e.f, 12, false) && SpellsAll(ts, k + 1, q - 1, e.args)
  {
    assert Bare(ts, p, q, e, 12, false);
    var k :| p < k < q - 1 && ts[k] == TLParen && Spells(ts, p, k, e.f, 12, false)
        && SpellsAll(ts, k + 1, q - 1, e.args);
    k
  }

  lemma {:induction false} ParamsRead(ts: seq<Token>, p: nat, q: nat, ps: seq<Name>)
    requires SpellsParams(ts, p, q, ps) && q <= |ts|
    ensures p <= q && ParseParams(ts, p) == Parsed(ps, q, false)
    decreases |ps|
  {
    if ps != [] {
      if Cur(ts, p + 1) == TComma {
        ParamsRead(ts, p + 2, q, ps[1..]);
        assert [ps[0]] + ps[1..] == ps;
      } else {
        assert ps == [ps[0]];
      }
    }
  }

  lemma {:induction false} LambdaReads(ts: seq<Token>, p: nat, e: Tree, k: nat, q: nat)
    requires e.Lambda? && p < k < q <= |ts| && Cur(ts, p) == TOp(Pipe)
    requires ParseParams(ts, p + 1) == Parsed(e.params, k, false)
    requires Closed(ts, k) <= |ts| && ParseExpr(ts, Closed(ts, k)) == Parsed(e.body, q, false)
    requires !Extends(Cur(ts, q))
    ensures ParseUnary(ts, p) == Parsed(e, q, false)
  {
    hide ParseParams, ParseExpr, Extends;
    assert ParsePrimary(ts, p) == Parsed(e, q, false);
    assert PostfixRest(ts, Parsed(e, q, false)) == Parsed(e, q, false);
  }

  /** An operand at the tightest level: parsing goes on behind it with whatever may extend it. */
  lemma {:induction false} PostfixReads(ts: seq<Token>, p: nat, q: nat, e: Tree)
    requires Spells(ts, p, q, e, 12, false)
    ensures p < q <= |ts| && ParsePostfix(ts, p) == PostfixRest(ts, Parsed(e, q, false))
    decreases q - p, 2
  {
    hide *;
    Longer(ts, p, q, e, 12, false);
    CloseEnds(ts, q - 1);
    if Enclosed(ts, p, q, e) {
      EnclosedParts(ts, p, q, e);
      ExprReads(ts, p + 1, q - 1, e);
      PostfixOfParen(ts, p, e, q);
    } else {
      TightParts(ts, p, q, e);
      match e
      case Call(f, args) =>
        var k := CallAt(ts, p, q, e);
        PostfixReads(ts, p, k, f);
        ListReads(ts, k + 1, q - 1, args, TRParen);
        PostfixCall(ts, f, args, k, q - 1);
      case Field(o, x) =>
        PostfixReads(ts, p, q - 2, o);
        PostfixField(ts, o, x, q - 2);
      case Index(o, i) =>
        var k := IndexAt(ts, p, q, e);
        PostfixReads(ts, p, k, o);
        ExprReads(ts, k + 1, q - 1, i);
        PostfixIndex(ts, o, i, k, q - 1);
      case PostInc(e1) =>
        PostfixReads(ts, p, q - 1, e1);
        PostfixOfStep(ts, e, q - 1);
      case PostDec(e1) =>
        PostfixReads(ts, p, q - 1, e1);
        PostfixOfStep(ts, e, q - 1);
      case ArrayLit(es) =>
        ListReads(ts, p + 1, q - 1, es, TRBracket);
        PostfixOfArray(ts, p, es, q - 1);
      case _ => AtomReads(ts, p, q, e);
    }
  }

  lemma {:induction false} CloseEnds(ts: seq<Token>, q: nat)
    ensures Cur(ts, q) == TRParen || Cur(ts, q) == TRBracket || Cur(ts, q) == TComma || Cur(ts, q) == TEof
        ==> AtEnd(ts, q)
  {
  }

  lemma {:induction false} EnclosedParts(ts: seq<Token>, p: nat, q: nat, e: Tree)
    requires p < q <= |ts| && Enclosed(ts, p, q, e)
    ensures Cur(ts, p) == TLParen && Cur(ts, q - 1) == TRParen && Spells(ts, p + 1, q - 1, e, -1, true)
  {
    hide Spells;
  }

  ghost predicate IsAtom(e: Tree) {
    e.Int? || e.Long? || e.Bool? || e.Char? || e.Ident? || e.This?
  }

  lemma {:induction false} TightParts(ts: seq<Token>, p: nat, q: nat, e: Tree)
    requires p < q <= |ts| && Spells(ts, p, q, e, 12, false) && !Enclosed(ts, p, q, e)
    ensures IsAtom(e) || e.Call? || e.Field? || e.Index? || e.PostInc? || e.PostDec? || e.ArrayLit?
    ensures e.Field?
        ==> q >= p + 3 && Cur(ts, q - 2) == TDot && Cur(ts, q - 1) == TIdent(e.name)
            && Spells(ts, p, q - 2, e.obj, 12, false)
    ensures e.PostInc? ==> Cur(ts, q - 1) == TInc && Spells(ts, p, q - 1, e.e, 12, false)
    ensures e.PostDec? ==> Cur(ts, q - 1) == TDec && Spells(ts, p, q - 1, e.e, 12, false)
    ensures e.ArrayLit?
        ==> q >= p + 2 && Cur(ts, p) == TLBracket && Cur(ts, q - 1) == TRBracket && SpellsAll(ts, p + 1, q - 1, e.elems)
  {
    hide SpellsAll;
  }

  ghost function IndexAt(ts: seq<Token>, p: nat, q: nat, e: Tree): (k: nat)
    requires p < q <= |ts| && e.Index? && Spells(ts, p, q, e, 12, false) && !Enclosed(ts, p, q, e)
    ensures p < k < q - 1 && Cur(ts, k) == TLBracket && Cur(ts, q - 1) == TRBracket
    ensures Spells(ts, p, k, e.obj, 12, false) && Spells(ts, k + 1, q - 1, e.idx, -1, true)
  {
    assert Bare(ts, p, q, e, 12, false);
    Middle(ts, p, q - 1, e.obj, 12, TLBracket, e.idx, -1, true)
  }

  lemma {:induction false} AtomReads(ts: seq<Token>, p: nat, q: nat, e: Tree)
    requires p < q <= |ts| && Spells(ts, p, q, e, 12, false) && !Enclosed(ts, p, q, e) && IsAtom(e)
    ensures ParsePostfix(ts, p) == PostfixRest(ts, Parsed(e, q, false))
  {
    hide PostfixRest;
  }

  lemma {:induction false} ListReads(ts: seq<Token>, p: nat, q: nat, es: Trees, close: Token)
    requires (close == TRParen || close == TRBracket) && p <= q <= |ts| && SpellsAll(ts, p, q, es)
    requires Cur(ts, q) == close
    ensures ParseList(ts, p, close) == Parsed(es, q, false)
    decreases q - p, 6
  {
    hide *;
    CloseEnds(ts, q);
    match es
    case NoTrees =>
      NoneSpelt(ts, p, q);
      ListNone(ts, p, close);
    case MoreTrees(e, rest) =>
      var k := FirstEnds(ts, p, q, e, rest);
      SpeltStart(ts, p, k, e, -1, true);
      CloseEnds(ts, k);
      ExprReads(ts, p, k, e);
      if k == q {
        ListLast(ts, p, e, q, close);
      } else {
        ListReads(ts, k + 1, q, rest, close);
        ListMore(ts, p, e, rest, k, q, close);
      }
  }

  lemma {:induction false} NoneSpelt(ts: seq<Token>, p: nat, q: nat)
    requires SpellsAll(ts, p, q, NoTrees)
    ensures p == q
  {
  }

  ghost function FirstEnds(ts: seq<Token>, p: nat, q: nat, e: Tree, rest: Trees): (k: nat)
    requires p <= q <= |ts| && SpellsAll(ts, p, q, MoreTrees(e, rest))
    ensures p < k <= q && Spells(ts, p, k, e, -1, true)
    ensures if k == q then rest == NoTrees else Cur(ts, k) == TComma && SpellsAll(ts, k + 1, q, rest)
  {
    if rest == NoTrees && Spells(ts, p, q, e, -1, true) then q
    else
      var k :| p < k < q <= |ts| && ts[k] == TComma && Spells(ts, p, k, e, -1, true) && SpellsAll(ts, k + 1, q, rest);
      k
  }

  // ----- the parser decides the grammar -----

  /** For every token list, every position and every tree: the tree is read from there without a report,
      up to `q`, if and only if those tokens spell it and nothing that follows belongs to it. */
  lemma {:induction false} ParseExact(ts: seq<Token>, p: nat, q: nat, e: Tree)
    requires p <= |ts|
    ensures ParseExpr(ts, p) == Parsed(e, q, false) <==> Spells(ts, p, q, e, -1, true) && AtEnd(ts, q)
  {
    hide *;
    ExprSpells(ts, p);
    if Spells(ts, p, q, e, -1, true) && AtEnd(ts, q) { ExprReads(ts, p, q, e); }
  }

  /** The whole input is accepted as a tree exactly if it spells it. */
  lemma {:induction false} AcceptExact(ts: seq<Token>, e: Tree)
    ensures ParseExpr(ts, 0) == Parsed(e, |ts|, false) <==> Spells(ts, 0, |ts|, e, -1, true)
  {
    hide *;
    ParseExact(ts, 0, |ts|, e);
    EofEnds(ts);
  }

  lemma {:induction false} EofEnds(ts: seq<Token>)
    ensures AtEnd(ts, |ts|)
  {
  }

  /** So no token list spells two trees. */
  lemma {:induction false} Unambiguous(ts: seq<Token>, a: Tree, b: Tree)
    requires Spells(ts, 0, |ts|, a, -1, true) && Spells(ts, 0, |ts|, b, -1, true)
    ensures a == b
  {
    hide *;
    AcceptExact(ts, a);
    AcceptExact(ts, b);
  }
}
