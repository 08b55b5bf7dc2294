/** Which operators bind more tightly, as a list of classes, and how the parser groups operators of them; and
    what each prefix and postfix token makes of an operand. */
module Precedence {
  import opened Grammar
  import opened Derivation
  import opened Printing
  import Progress

  /** The loosest first. */
  const CLASSES: seq<set<Infix>> := [
    {RangeOp, RangeEqOp}, {OrOr}, {AndAnd}, {Pipe}, {Caret}, {Amp}, {EqEq, NotEq},
    {Less, Greater, LessEq, GreaterEq}, {ShiftL, ShiftR}, {Plus, Minus}, {Star, Slash, Percent}
  ]

  /** Every operator is in one class. */
  lemma {:induction false} OneClass(op: Infix)
    ensures exists i :: 0 <= i < |CLASSES| && op in CLASSES[i]
    ensures forall i, j :: 0 <= i < |CLASSES| && 0 <= j < |CLASSES| && op in CLASSES[i] && op in CLASSES[j] ==> i == j
  {
    var i := match op
      case RangeOp | RangeEqOp => 0
      case OrOr => 1
      case AndAnd => 2
      case Pipe => 3
      case Caret => 4
      case Amp => 5
      case EqEq | NotEq => 6
      case Less | Greater | LessEq | GreaterEq => 7
      case ShiftL | ShiftR => 8
      case Plus | Minus => 9
      case Star | Slash | Percent => 10;
    assert op in CLASSES[i];
  }

  lemma {:induction false} ClassPrec(i: nat, p: Infix)
    requires i < |CLASSES| && p in CLASSES[i]
    ensures Prec(p) == i
  {
  }

  /** The tokens that the parser of the whole language tells apart because they are not only operators. */
  const KINDS: seq<(Progress.Kind, Infix)> := [
    (Progress.Range, RangeOp), (Progress.RangeEq, RangeEqOp), (Progress.Pipe, Pipe), (Progress.Amp, Amp),
    (Progress.Lt, Less), (Progress.Gt, Greater), (Progress.Minus, Minus), (Progress.Star, Star)
  ]

  /** They bind there as they do here. */
  lemma {:induction false} SameClasses(k: nat)
    requires k < |KINDS|
    ensures
      var i := Progress.Prec(Progress.Tok(KINDS[k].0));
      0 <= i < |CLASSES| && KINDS[k].1 in CLASSES[i]
  {
    assert k == 0 || k == 1 || k == 2 || k == 3 || k == 4 || k == 5 || k == 6 || k == 7;
  }

  /** Two operators between three operands, each written so that it needs no more parentheses. */
  function Chain(a: Tree, p: Infix, b: Tree, q: Infix, c: Tree): seq<Token> {
    Print(a, 11) + [TOp(p)] + Print(b, 11) + [TOp(q)] + Print(c, 11)
  }

  lemma {:induction false} ChainSpells(a: Tree, p: Infix, b: Tree, q: Infix, c: Tree) returns (i: nat, j: nat)
    ensures
      var ts := Chain(a, p, b, q, c);
      && 0 < i < j - 1 < |ts| - 2 && ts[i] == TOp(p) && ts[j] == TOp(q) && Spells(ts, 0, i, a, 11, false)
      && Spells(ts, i + 1, j, b, 11, false) && Spells(ts, j + 1, |ts|, c, 11, true)
  {
    hide *;
    var ts := Chain(a, p, b, q, c);
    var x, y, z := Print(a, 11), Print(b, 11), Print(c, 11);
    ChainDef(a, p, b, q, c);
    i, j := |x|, |x| + 1 + |y|;
    WholeHere(ts);
    HerePair(ts, 0, x + [TOp(p)] + y, TOp(q), z);
    HerePair(ts, 0, x, TOp(p), y);
    PrintSpells(ts, 0, a, 11, false);
    PrintSpells(ts, i + 1, b, 11, false);
    PrintSpells(ts, j + 1, c, 11, true);
    Longer(ts, j + 1, |ts|, c, 11, true);
  }

  lemma {:induction false} ChainDef(a: Tree, p: Infix, b: Tree, q: Infix, c: Tree)
    ensures Chain(a, p, b, q, c) == Print(a, 11) + [TOp(p)] + Print(b, 11) + [TOp(q)] + Print(c, 11)
  {
    hide Print;
  }

  /** Two operands, the left one at least as tight as the operator, the right one tighter. */
  lemma {:induction false} Joined(ts: seq<Token>, s: nat, k: nat, e: nat, op: Infix, l: Tree, r: Tree, j: int, m: int,
                                  last: bool)
    requires s < k < e <= |ts| && ts[k] == TOp(op) && Spells(ts, s, k, l, Prec(op), false)
    requires Spells(ts, k + 1, e, r, j, last) && m <= Prec(op) < j
    ensures Spells(ts, s, e, Binary(op, l, r), m, last)
  {
    hide Spells, Prec;
    Looser(ts, k + 1, e, r, j, Prec(op) + 1, last);
    assert Between(ts, s, e, l, Prec(op), TOp(op), r, Prec(op) + 1, last);
    BinaryBare(ts, s, e, op, l, r, m, last);
  }

  lemma {:induction false} BinaryBare(ts: seq<Token>, s: nat, e: nat, op: Infix, l: Tree, r: Tree, m: int, last: bool)
    requires s < e <= |ts| && m <= Prec(op) && Between(ts, s, e, l, Prec(op), TOp(op), r, Prec(op) + 1, last)
    ensures Spells(ts, s, e, Binary(op, l, r), m, last)
  {
  }

  /** The tighter operator takes the middle operand, and of two that are alike the first. */
  lemma {:induction false} ChainParses(a: Tree, p: Infix, b: Tree, q: Infix, c: Tree)
    ensures
      var ts := Chain(a, p, b, q, c);
      ParseExpr(ts, 0)
      == Parsed(if Prec(p) < Prec(q) then Binary(p, a, Binary(q, b, c)) else Binary(q, Binary(p, a, b), c), |ts|, false)
  {
    hide Print, Spells, ParseExpr, Chain, Prec;
    var ts := Chain(a, p, b, q, c);
    var i, j := ChainSpells(a, p, b, q, c);
    if Prec(p) < Prec(q) {
      Looser(ts, i + 1, j, b, 11, Prec(q), false);
      Joined(ts, i + 1, j, |ts|, q, b, c, 11, Prec(q), true);
      Looser(ts, 0, i, a, 11, Prec(p), false);
      Joined(ts, 0, i, |ts|, p, a, Binary(q, b, c), Prec(q), -1, true);
      AcceptExact(ts, Binary(p, a, Binary(q, b, c)));
    } else {
      Looser(ts, 0, i, a, 11, Prec(p), false);
      Joined(ts, 0, i, j, p, a, b, 11, Prec(q), false);
      Joined(ts, 0, j, |ts|, q, Binary(p, a, b), c, 11, -1, true);
      AcceptExact(ts, Binary(q, Binary(p, a, b), c));
    }
  }

  /** For all operands, and operators of an earlier and a later class: whichever comes first, the later class
      takes the middle operand. */
  lemma {:induction false} LaterBinds(i: nat, p: Infix, j: nat, q: Infix, a: Tree, b: Tree, c: Tree)
    requires i < j < |CLASSES| && p in CLASSES[i] && q in CLASSES[j]
    ensures
      var ts := Chain(a, p, b, q, c);
      ParseExpr(ts, 0) == Parsed(Binary(p, a, Binary(q, b, c)), |ts|, false)
    ensures
      var ts := Chain(a, q, b, p, c);
      ParseExpr(ts, 0) == Parsed(Binary(p, Binary(q, a, b), c), |ts|, false)
  {
    hide *;
    ClassPrec(i, p);
    ClassPrec(j, q);
    ChainParses(a, p, b, q, c);
    ChainParses(a, q, b, p, c);
  }

  /** Within a class operators group to the left. */
  lemma {:induction false} OneClassLeft(i: nat, p: Infix, q: Infix, a: Tree, b: Tree, c: Tree)
    requires i < |CLASSES| && p in CLASSES[i] && q in CLASSES[i]
    ensures
      var ts := Chain(a, p, b, q, c);
      ParseExpr(ts, 0) == Parsed(Binary(q, Binary(p, a, b), c), |ts|, false)
  {
    hide *;
    ClassPrec(i, p);
    ClassPrec(i, q);
    ChainParses(a, p, b, q, c);
  }

  // ----- prefixes and postfixes -----

  /** What a token in front of an operand makes of it. */
  const PREFIXES: seq<(Token, PrefixOp)> := [
    (TOp(Minus), NegOp), (TNot, NotOp), (TTilde, TildeOp), (TInc, IncOp), (TDec, DecOp), (TOp(Amp), RefOp),
    (TOp(Star), DerefOp)
  ]

  lemma {:induction false} PrefixSpelt(ts: seq<Token>, k: nat, e: Tree)
    requires k < |PREFIXES| && |ts| > 1 && ts[0] == PREFIXES[k].0 && Spells(ts, 1, |ts|, e, 11, true)
    ensures Spells(ts, 0, |ts|, Prefix(PREFIXES[k].1, e), -1, true)
  {
    hide Prec;
    assert ts[0] == PrefixToken(PREFIXES[k].1);
  }

  /** In front of every operand, each prefix token gives its own operator, and a postfix binds more tightly. */
  lemma {:induction false} PrefixReads(k: nat, e: Tree)
    requires k < |PREFIXES|
    ensures
      var ts := [PREFIXES[k].0] + Print(e, 11);
      ParseExpr(ts, 0) == Parsed(Prefix(PREFIXES[k].1, e), |ts|, false)
    ensures
      var ts := [PREFIXES[k].0] + (Print(e, 12) + [TInc]);
      ParseExpr(ts, 0) == Parsed(Prefix(PREFIXES[k].1, PostInc(e)), |ts|, false)
  {
    hide *;
    PrefixRead(k, e);
    PrefixRead(k, PostInc(e));
    StepPrinted(e);
  }

  lemma {:induction false} PrefixRead(k: nat, e: Tree)
    requires k < |PREFIXES|
    ensures
      var ts := [PREFIXES[k].0] + Print(e, 11);
      ParseExpr(ts, 0) == Parsed(Prefix(PREFIXES[k].1, e), |ts|, false)
  {
    hide *;
    var t, x := [PREFIXES[k].0], Print(e, 11);
    var ts := t + x;
    WholeHere(ts);
    HereParts(ts, 0, t, x);
    PrintSpells(ts, 1, e, 11, true);
    PrefixSpelt(ts, k, e);
    AcceptExact(ts, Prefix(PREFIXES[k].1, e));
  }

  lemma {:induction false} StepPrinted(e: Tree)
    ensures Print(PostInc(e), 11) == Print(e, 12) + [TInc]
    ensures Print(PostInc(e), -1) == Print(e, 12) + [TInc] && Print(PostDec(e), -1) == Print(e, 12) + [TDec]
  {
  }

  /** Behind every operand. */
  lemma {:induction false} PostfixReads(e: Tree)
    ensures ParseExpr(Print(e, 12) + [TInc], 0).val == PostInc(e)
    ensures ParseExpr(Print(e, 12) + [TDec], 0).val == PostDec(e)
  {
    hide *;
    StepPrinted(e);
    PrintParse(PostInc(e));
    PrintParse(PostDec(e));
  }
}
