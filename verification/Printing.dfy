/** Printed expressions and reading them back. */
module Printing {
  import opened Grammar
  import opened Derivation

  /** The tokens from `p` on begin with `s`. */
  predicate Here(ts: seq<Token>, p: nat, s: seq<Token>) {
    p + |s| <= |ts| && ts[p..p + |s|] == s
  }

  lemma {:induction false} HereParts(ts: seq<Token>, p: nat, a: seq<Token>, b: seq<Token>)
    requires Here(ts, p, a + b)
    ensures Here(ts, p, a) && Here(ts, p + |a|, b)
  {
    var s := ts[p..p + |a + b|];
    assert ts[p..p + |a|] == s[..|a|] == a;
    assert ts[p + |a|..p + |a| + |b|] == s[|a|..] == b;
  }

  lemma {:induction false} HereToken(ts: seq<Token>, p: nat, t: Token)
    requires Here(ts, p, [t])
    ensures p < |ts| && ts[p] == t
  {
    assert ts[p] == ts[p..p + 1][0];
  }

  /** What is printed for level `m` spells the tree at that level. */
  lemma {:induction false} PrintSpells(ts: seq<Token>, p: nat, e: Tree, m: int, last: bool)
    requires -1 <= m <= 12 && (m >= 0 || last) && Here(ts, p, Print(e, m))
    ensures Spells(ts, p, p + |Print(e, m)|, e, m, last)
    decreases e, 2
  {
    hide Raw, Bare, Level;
    if Level(e) < m {
      var a, b, c := [TLParen], Raw(e), [TRParen];
      HereParts(ts, p, a + b, c);
      HereParts(ts, p, a, b);
      HereToken(ts, p, TLParen);
      HereToken(ts, p + 1 + |b|, TRParen);
      LevelRange(e);
      RawSpells(ts, p + 1, e, -1, true);
      Within(ts, p, Print(e, m));
      assert Enclosed(ts, p, p + |b| + 2, e);
    } else {
      RawSpells(ts, p, e, m, last);
    }
  }

  lemma {:induction false} LevelRange(e: Tree)
    ensures -1 <= Level(e) <= 12
  {
  }

  lemma {:induction false} RawSpells(ts: seq<Token>, p: nat, e: Tree, m: int, last: bool)
    requires -1 <= m <= Level(e) && (m >= 0 || last) && Here(ts, p, Raw(e))
    ensures p + |Raw(e)| <= |ts| && Bare(ts, p, p + |Raw(e)|, e, m, last)
    decreases e, 1
  {
    hide *;
    Within(ts, p, Raw(e));
    if e.Binary? || e.Assign? || e.Compound? {
      InfixSpells(ts, p, e, m, last);
    } else if e.Call? || e.Index? || e.ArrayLit? {
      BracketSpells(ts, p, e, m, last);
    } else if e.Lambda? {
      LambdaSpells(ts, p, e, m, last);
    } else {
      SimpleSpells(ts, p, e, m, last);
    }
  }

  lemma {:induction false} InfixSpells(ts: seq<Token>, p: nat, e: Tree, m: int, last: bool)
    requires e.Binary? || e.Assign? || e.Compound?
    requires -1 <= m <= Level(e) && (m >= 0 || last) && Here(ts, p, Raw(e)) && p + |Raw(e)| <= |ts|
    ensures Bare(ts, p, p + |Raw(e)|, e, m, last)
    decreases e, 0
  {
    hide Here, Print, PrintList, PrintParams, Spells, SpellsAll, SpellsParams;
    var t := if e.Binary? then TOp(e.op) else if e.Assign? then TAssign else TCompound(e.cop);
    var k, n := Level(e) + 1, if e.Binary? then Prec(e.op) else 0;
    var a, b := Print(e.l, n), Print(e.r, if e.Binary? then k else -1);
    HerePair(ts, p, a, t, b);
    PrintSpells(ts, p, e.l, n, false);
    PrintSpells(ts, p + |a| + 1, e.r, if e.Binary? then k else -1, last);
    assert Between(ts, p, p + |Raw(e)|, e.l, n, t, e.r, if e.Binary? then k else -1, last);
  }

  lemma {:induction false} IndexSpells(ts: seq<Token>, p: nat, o: Tree, i: Tree, n: nat, m: int, last: bool)
    requires p + n + 1 <= |ts| && ts[p + n] == TRBracket && Between(ts, p, p + n, o, 12, TLBracket, i, -1, true)
    ensures Bare(ts, p, p + n + 1, Index(o, i), m, last)
  {
    hide Spells;
  }

  lemma {:induction false} BracketSpells(ts: seq<Token>, p: nat, e: Tree, m: int, last: bool)
    requires e.Call? || e.Index? || e.ArrayLit?
    requires -1 <= m <= Level(e) && (m >= 0 || last) && Here(ts, p, Raw(e)) && p + |Raw(e)| <= |ts|
    ensures Bare(ts, p, p + |Raw(e)|, e, m, last)
    decreases e, 0
  {
    hide Here, Print, PrintList, PrintParams, Spells, SpellsAll, SpellsParams;
    match e
    case Call(f, args) =>
      var a, c := Print(f, 12), PrintList(args);
      HereLast(ts, p, a + [TLParen] + c, TRParen);
      HerePair(ts, p, a, TLParen, c);
      PrintSpells(ts, p, f, 12, false);
      ListSpelt(ts, p + |a| + 1, args);
    case Index(o, i) =>
      var a, c := Print(o, 12), Print(i, -1);
      HereLast(ts, p, a + [TLBracket] + c, TRBracket);
      HerePair(ts, p, a, TLBracket, c);
      PrintSpells(ts, p, o, 12, false);
      PrintSpells(ts, p + |a| + 1, i, -1, true);
      IndexSpells(ts, p, o, i, |Raw(e)| - 1, m, last);
    case ArrayLit(es) =>
      HereLast(ts, p, [TLBracket] + PrintList(es), TRBracket);
      HereParts(ts, p, [TLBracket], PrintList(es));
      HereToken(ts, p, TLBracket);
      ListSpelt(ts, p + 1, es);
  }

  lemma {:induction false} LambdaSpells(ts: seq<Token>, p: nat, e: Tree, m: int, last: bool)
    requires e.Lambda?
    requires -1 <= m <= Level(e) && (m >= 0 || last) && Here(ts, p, Raw(e)) && p + |Raw(e)| <= |ts|
    ensures Bare(ts, p, p + |Raw(e)|, e, m, last)
    decreases e, 0
  {
    hide Here, Print, PrintList, PrintParams, Spells, SpellsAll, SpellsParams;
    var t, c := TOp(Pipe), PrintParams(e.params);
    HerePair(ts, p, [t] + c, t, Print(e.body, -1));
    HereParts(ts, p, [t], c);
    HereToken(ts, p, t);
    ParamsSpelt(ts, p + 1, e.params);
    var k := p + 1 + |c|;
    PrintSpells(ts, k + 1, e.body, -1, true);
    assert Closed(ts, k) == k + 1 && SpellsParams(ts, p + 1, k, e.params);
  }

  lemma {:induction false} SimpleSpells(ts: seq<Token>, p: nat, e: Tree, m: int, last: bool)
    requires !e.Binary? && !e.Assign? && !e.Compound? && !e.Call? && !e.Index? && !e.ArrayLit? && !e.Lambda?
    requires -1 <= m <= Level(e) && (m >= 0 || last) && Here(ts, p, Raw(e)) && p + |Raw(e)| <= |ts|
    ensures Bare(ts, p, p + |Raw(e)|, e, m, last)
    decreases e, 0
  {
    hide Here, Print, PrintList, PrintParams, Spells, SpellsAll, SpellsParams;
    if e.Prefix? {
      HereParts(ts, p, [PrefixToken(e.pre)], Print(e.e, 11));
      HereToken(ts, p, PrefixToken(e.pre));
      PrintSpells(ts, p + 1, e.e, 11, last);
    } else if e.Field? {
      var a, x := Print(e.obj, 12), TIdent(e.name);
      assert a + [TDot, x] == a + [TDot] + [x];
      HerePair(ts, p, a, TDot, [x]);
      HereToken(ts, p + |a| + 1, x);
      PrintSpells(ts, p, e.obj, 12, false);
    } else if e.PostInc? || e.PostDec? {
      HereLast(ts, p, Print(e.e, 12), if e.PostInc? then TInc else TDec);
      PrintSpells(ts, p, e.e, 12, false);
    } else {
      HereToken(ts, p, Raw(e)[0]);
    }
  }

  lemma {:induction false} Within(ts: seq<Token>, p: nat, s: seq<Token>)
    requires Here(ts, p, s)
    ensures p + |s| <= |ts|
  {
  }

  lemma {:induction false} HereLast(ts: seq<Token>, p: nat, a: seq<Token>, t: Token)
    requires Here(ts, p, a + [t])
    ensures Here(ts, p, a) && p + |a| < |ts| && ts[p + |a|] == t
  {
    HereParts(ts, p, a, [t]);
    HereToken(ts, p + |a|, t);
  }

  lemma {:induction false} HerePair(ts: seq<Token>, p: nat, a: seq<Token>, t: Token, b: seq<Token>)
    requires Here(ts, p, a + [t] + b)
    ensures Here(ts, p, a) && p + |a| < |ts| && ts[p + |a|] == t && Here(ts, p + |a| + 1, b)
  {
    HereParts(ts, p, a + [t], b);
    HereLast(ts, p, a, t);
  }

  lemma {:induction false} ListSpelt(ts: seq<Token>, p: nat, es: Trees)
    requires Here(ts, p, PrintList(es))
    ensures SpellsAll(ts, p, p + |PrintList(es)|, es)
    decreases es
  {
    hide Here, Print, Spells;
    match es
    case NoTrees =>
    case MoreTrees(e, NoTrees) => PrintSpells(ts, p, e, -1, true);
    case MoreTrees(e, rest) =>
      var a := Print(e, -1);
      Within(ts, p, PrintList(es));
      HerePair(ts, p, a, TComma, PrintList(rest));
      PrintSpells(ts, p, e, -1, true);
      ListSpelt(ts, p + |a| + 1, rest);
  }

  lemma {:induction false} ParamsSpelt(ts: seq<Token>, p: nat, ps: seq<Name>)
    requires Here(ts, p, PrintParams(ps)) && Cur(ts, p + |PrintParams(ps)|) == TOp(Pipe)
    ensures SpellsParams(ts, p, p + |PrintParams(ps)|, ps)
    decreases |ps|
  {
    hide Here;
    if |ps| == 1 {
      HereToken(ts, p, TIdent(ps[0]));
    } else if |ps| > 1 {
      assert PrintParams(ps) == [TIdent(ps[0])] + [TComma] + PrintParams(ps[1..]);
      HerePair(ts, p, [TIdent(ps[0])], TComma, PrintParams(ps[1..]));
      HereToken(ts, p, TIdent(ps[0]));
      ParamsSpelt(ts, p + 2, ps[1..]);
    }
  }

  // ----- the round trip -----

  /** Printing an expression and parsing the tokens gives the expression back, all tokens used, nothing
      reported. */
  lemma {:induction false} PrintParse(e: Tree)
    ensures ParseExpr(Print(e, -1), 0) == Parsed(e, |Print(e, -1)|, false)
  {
    hide *;
    WholeHere(Print(e, -1));
    PrintSpells(Print(e, -1), 0, e, -1, true);
    AcceptExact(Print(e, -1), e);
  }

  lemma {:induction false} WholeHere(ts: seq<Token>)
    ensures Here(ts, 0, ts)
  {
    assert ts[0..|ts|] == ts;
  }

  lemma {:induction false} PrintWhole(e: Tree)
    ensures Print(e, -1) == Raw(e)
    ensures Level(e) >= 0 ==> Print(e, 0) == Raw(e)
  {
  }

  lemma {:induction false} AssignCode(e: Tree)
    requires e.Assign? || e.Compound?
    ensures Raw(e) == Print(e.l, 0) + ([if e.Assign? then TAssign else TCompound(e.cop)] + Print(e.r, -1))
  {
    hide Print;
  }

  lemma {:induction false} BinaryCode(e: Tree, k: int)
    requires e.Binary? && Prec(e.op) >= k
    ensures Print(e, k) == Print(e.l, Prec(e.op)) + ([TOp(e.op)] + Print(e.r, Prec(e.op) + 1))
  {
    var a, b, d := Print(e.l, Prec(e.op)), [TOp(e.op)], Print(e.r, Prec(e.op) + 1);
    assert a + b + d == a + (b + d);
  }

  /** So different expressions are never printed alike. */
  lemma {:induction false} PrintInjective(a: Tree, b: Tree)
    requires Print(a, -1) == Print(b, -1)
    ensures a == b
  {
    hide *;
    PrintParse(a);
    PrintParse(b);
  }

  /** An operator of the same precedence groups to the left, and needs parentheses only on the right. */
  lemma {:induction false} LeftAssociative(op: Infix, a: Tree, b: Tree, c: Tree)
    ensures Print(Binary(op, Binary(op, a, b), c), -1)
         == Print(a, Prec(op)) + [TOp(op)] + Print(b, Prec(op) + 1) + [TOp(op)] + Print(c, Prec(op) + 1)
    ensures
      var ts := Print(a, Prec(op)) + [TOp(op)] + Print(b, Prec(op) + 1) + [TOp(op)] + Print(c, Prec(op) + 1);
      ParseExpr(ts, 0).val
         == Binary(op, Binary(op, a, b), c)
  {
    hide *;
    var e := Binary(op, Binary(op, a, b), c);
    BinaryCode(e, -1);
    BinaryCode(e.l, Prec(op));
    var x, t, y, z := Print(a, Prec(op)), [TOp(op)], Print(b, Prec(op) + 1), Print(c, Prec(op) + 1);
    assert x + (t + y) + (t + z) == x + t + y + t + z;
    PrintParse(e);
  }

  /** Assignment groups to the right. */
  lemma {:induction false} RightAssociative(a: Tree, b: Tree, c: Tree)
    ensures Print(Assign(a, Assign(b, c)), -1) == Print(a, 0) + [TAssign] + (Print(b, 0) + [TAssign] + Print(c, -1))
    ensures ParseExpr(Print(a, 0) + [TAssign] + (Print(b, 0) + [TAssign] + Print(c, -1)), 0).val
        == Assign(a, Assign(b, c))
  {
    hide *;
    var e := Assign(a, Assign(b, c));
    PrintWhole(e);
    PrintWhole(e.r);
    AssignCode(e);
    AssignCode(e.r);
    var x, t, y := Print(a, 0), [TAssign], Print(b, 0) + ([TAssign] + Print(c, -1));
    assert x + (t + y) == x + t + y;
    assert y == Print(b, 0) + [TAssign] + Print(c, -1);
    PrintParse(e);
  }
}
