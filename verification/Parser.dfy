/** The expression parser as it runs: a cursor over the tokens and an error flag, advanced by mutually
    recursive methods with loops. It always ends, on every token list, and computes the functions of
    Grammar. */
module ParserState {
  import opened Grammar
  import Printing

  /** The trees collected so far, then the rest. */
  function Chain(acc: seq<Tree>, rest: Trees): Trees {
    if acc == [] then rest else MoreTrees(acc[0], Chain(acc[1..], rest))
  }

  lemma {:induction false} ChainMore(acc: seq<Tree>, e: Tree, rest: Trees)
    ensures Chain(acc, MoreTrees(e, rest)) == Chain(acc + [e], rest)
    decreases |acc|
  {
    if acc == [] {
      assert ([] + [e])[1..] == [];
    } else {
      assert (acc + [e])[1..] == acc[1..] + [e];
      ChainMore(acc[1..], e, rest);
    }
  }

  /** A list parsed further, seen from where the collected trees began. */
  function ChainParsed(acc: seq<Tree>, bad: bool, r: Parsed<Trees>): Parsed<Trees> {
    Parsed(Chain(acc, r.val), r.pos, bad || r.bad)
  }

  class Parser {
    const toks: seq<Token>
    var pos: nat
    var hadError: bool

    ghost predicate Valid()
      reads this
    {
      pos <= |toks|
    }

    constructor (toks: seq<Token>)
      ensures Valid() && this.toks == toks && pos == 0 && !hadError
    {
      this.toks := toks;
      pos := 0;
      hadError := false;
    }

    function Peek(k: nat): (t: Token)
      reads this
      ensures t == Cur(toks, pos + k)
    {
      if pos + k < |toks| then toks[pos + k] else TEof
    }

    method Advance()
      requires Valid()
      modifies `pos
      ensures Valid() && pos == Next(toks, old(pos))
    {
      if pos < |toks| { pos := pos + 1; }
    }

    method Match(t: Token) returns (b: bool)
      requires Valid() && t != TEof
      modifies `pos
      ensures Valid() && b == (Cur(toks, old(pos)) == t) && pos == if b then old(pos) + 1 else old(pos)
    {
      b := Peek(0) == t;
      if b { Advance(); }
    }

    method Report()
      modifies `hadError
      ensures hadError
    {
      hadError := true;
    }

    /** The token that must come next, after something parsed from `p`. */
    method Require<T>(t: Token, ghost r: Parsed<T>)
      requires Valid() && t != TEof && pos == r.pos
      modifies this
      ensures Valid()
      ensures
        var q := Grammar.Expect(toks, r, t);
        pos == q.pos && (q.bad == (r.bad || pos == old(pos))) && hadError == (old(hadError) || pos == old(pos))
    {
      var b := Match(t);
      if !b { Report(); }
    }

    /** What a parsing method does: the cursor moves and errors are noted as the function says. */
    twostate predicate Did<T>(x: T, r: Parsed<T>)
      reads this
    {
      pos <= |toks| && x == r.val && pos == r.pos && hadError == (old(hadError) || r.bad)
    }

    method Expr() returns (e: Tree)
      requires Valid()
      modifies this
      ensures Did(e, ParseExpr(toks, old(pos)))
      decreases |toks| - pos, 6
    {
      hide ParseBinary;
      var l := BinaryFrom(0);
      var t := Peek(0);
      if t == TAssign || t.TCompound? {
        Advance();
        var r := Expr();
        e := if t == TAssign then Assign(l, r) else Compound(t.cop, l, r);
      } else {
        e := l;
      }
    }

    /** An operand, then operators as long as they bind tightly enough. */
    method BinaryFrom(m: nat) returns (e: Tree)
      requires Valid()
      modifies this
      ensures Did(e, ParseBinary(toks, old(pos), m))
      decreases |toks| - pos, 5
    {
      hide ParseUnary, ParseRest, ParseBinary, Prec;
      RestStart(pos, m);
      e := Unary();
      ghost var l := ParseUnary(toks, old(pos));
      while Peek(0).TOp? && Prec(Peek(0).op) >= m
        invariant l.pos == pos && l.val == e && hadError == (old(hadError) || l.bad)
        invariant old(pos) <= pos <= |toks| && (old(pos) < |toks| ==> old(pos) < pos)
        invariant ParseBinary(toks, old(pos), m) == ParseRest(toks, l, m)
        decreases |toks| - pos
      {
        var op := Peek(0).op;
        ghost var q := pos + 1;
        Advance();
        var r := BinaryFrom(Prec(op) + 1);
        l := RestStep(l, op, q, m);
        e := Binary(op, e, r);
      }
      RestDone(l, m);
    }

    lemma RestStart(p: nat, m: nat)
      requires p <= |toks|
      ensures ParseBinary(toks, p, m) == ParseRest(toks, ParseUnary(toks, p), m)
    {
      hide ParseUnary, ParseRest;
    }

    lemma RestDone(l: Parsed<Tree>, m: nat)
      requires l.pos <= |toks|
      requires
        var t := Cur(toks, l.pos);
        !(t.TOp? && Prec(t.op) >= m)
      ensures ParseRest(toks, l, m) == l
    {
      hide ParseBinary;
    }

    /** One turn of the loop is one step of the fold. */
    ghost function RestStep(l: Parsed<Tree>, op: Infix, q: nat, m: nat): (n: Parsed<Tree>)
      requires l.pos < |toks| && q == l.pos + 1 && Cur(toks, l.pos) == TOp(op) && Prec(op) >= m
      ensures
        var r := ParseBinary(toks, q, Prec(op) + 1);
        n == Parsed(Binary(op, l.val, r.val), r.pos, l.bad || r.bad) && ParseRest(toks, l, m) == ParseRest(toks, n, m)
    {
      hide ParseBinary;
      var r := ParseBinary(toks, q, Prec(op) + 1);
      Parsed(Binary(op, l.val, r.val), r.pos, l.bad || r.bad)
    }

    method Unary() returns (e: Tree)
      requires Valid()
      modifies this
      ensures Did(e, ParseUnary(toks, old(pos)))
      decreases |toks| - pos, 3
    {
      hide ParsePostfix;
      var o := Grammar.PrefixOf(Peek(0));
      if o.Some? {
        Advance();
        var r := Unary();
        e := Prefix(o.value, r);
      } else {
        e := Postfix();
      }
    }

    /** A primary, then calls, fields, indices and steps as long as there are any. */
    method Postfix() returns (e: Tree)
      requires Valid()
      modifies this
      ensures Did(e, ParsePostfix(toks, old(pos)))
      decreases |toks| - pos, 2
    {
      hide ParsePrimary, PostfixStep, ParsePostfix;
      PostfixStart(pos);
      e := Primary();
      ghost var n := ParsePrimary(toks, old(pos));
      var more := true;
      while more && Extends(Peek(0))
        invariant n.pos == pos && n.val == e && hadError == (old(hadError) || n.bad)
        invariant old(pos) <= pos <= |toks| && (old(pos) < |toks| ==> old(pos) < pos)
        invariant ParsePostfix(toks, old(pos)) == if more then PostfixRest(toks, n) else n
        decreases |toks| - pos
      {
        ghost var r := PostfixStep(toks, n);
        e, more := Extend(e, n);
        n := r;
      }
      if more { PostfixDone(n); }
    }

    lemma PostfixStart(p: nat)
      requires p <= |toks|
      ensures ParsePostfix(toks, p) == PostfixRest(toks, ParsePrimary(toks, p))
    {
      hide PostfixRest, ParsePrimary;
    }

    lemma PostfixDone(n: Parsed<Tree>)
      requires n.pos <= |toks| && !Extends(Cur(toks, n.pos))
      ensures PostfixRest(toks, n) == n
    {
      hide ParseExpr, ParseList;
    }

    /** One extension of the operand. A dot with no name behind it is reported and ends the loop. */
    method Extend(e: Tree, ghost n: Parsed<Tree>) returns (x: Tree, more: bool)
      requires Valid() && n.pos == pos && n.val == e && (n.bad ==> hadError) && Extends(Cur(toks, pos))
      modifies this
      ensures Did(x, PostfixStep(toks, n)) && more == !Dangling(toks, old(pos))
      decreases |toks| - pos, 1
    {
      hide ParseExpr, ParseList, PostfixRest, Grammar.Expect;
      more := true;
      var t := Peek(0);
      if t == TDot {
        x, more := FieldOrCall(e, n);
      } else if t == TLBracket {
        x := IndexAt(e, n);
      } else if t == TLParen {
        Advance();
        var args := Arguments(TRParen);
        x := Tree.Call(e, args);
      } else {
        Advance();
        x := if t == TInc then PostInc(e) else PostDec(e);
      }
    }

    method IndexAt(e: Tree, ghost n: Parsed<Tree>) returns (x: Tree)
      requires Valid() && n.pos == pos && n.val == e && (n.bad ==> hadError) && Cur(toks, pos) == TLBracket
      modifies this
      ensures Did(x, PostfixStep(toks, n))
      decreases |toks| - pos, 0
    {
      hide ParseExpr, ParseList, PostfixRest;
      Advance();
      ghost var r := ParseExpr(toks, pos);
      var i := Expr();
      Require(TRBracket, r);
      x := Index(e, i);
    }

    method FieldOrCall(e: Tree, ghost n: Parsed<Tree>) returns (x: Tree, more: bool)
      requires Valid() && n.pos == pos && n.val == e && (n.bad ==> hadError) && Cur(toks, pos) == TDot
      modifies this
      ensures Did(x, PostfixStep(toks, n)) && more == Cur(toks, old(pos) + 1).TIdent?
      decreases |toks| - pos, 0
    {
      hide ParseExpr, ParseList, PostfixRest, Grammar.Expect;
      Advance();
      more := Peek(0).TIdent?;
      if more {
        var name := Peek(0).x;
        Advance();
        x := Field(e, name);
        if Peek(0) == TLParen {
          Advance();
          var args := Arguments(TRParen);
          x := Tree.Call(x, args);
        }
      } else {
        Report();
        x := e;
      }
    }

    /** Expressions up to the closing token, and that token. */
    method Arguments(close: Token) returns (es: Trees)
      requires Valid() && close != TEof && close != TComma
      modifies this
      ensures Did(es, Grammar.Expect(toks, ParseList(toks, old(pos), close), close))
      decreases |toks| - pos, 8
    {
      hide ParseList;
      ghost var r := ParseList(toks, pos, close);
      es := List(close);
      Require(close, r);
    }

    method List(close: Token) returns (es: Trees)
      requires Valid() && close != TEof && close != TComma
      modifies this
      ensures Did(es, ParseList(toks, old(pos), close))
      decreases |toks| - pos, 7
    {
      hide ParseExpr;
      ghost var all := ParseList(toks, pos, close);
      ghost var bad := false;
      var acc: seq<Tree> := [];
      var more := true;
      while more && Peek(0) != close && Peek(0) != TEof
        invariant old(pos) <= pos <= |toks| && hadError == (old(hadError) || bad)
        invariant more ==> all == ChainParsed(acc, bad, ParseList(toks, pos, close))
        invariant !more ==> all == ChainParsed(acc, bad, Parsed(NoTrees, pos, false))
        decreases |toks| - pos, more
      {
        ghost var p := pos;
        var e := Expr();
        ghost var r := ParseExpr(toks, p);
        more := Match(TComma);
        ListStep(acc, bad, p, close, r);
        acc := acc + [e];
        bad := bad || r.bad;
      }
      es := Chain(acc, NoTrees);
    }

    /** One element more is collected. */
    lemma ListStep(acc: seq<Tree>, bad: bool, p: nat, close: Token, r: Parsed<Tree>)
      requires p < |toks| && Cur(toks, p) != close && Cur(toks, p) != TEof && r == ParseExpr(toks, p)
      ensures
        ChainParsed(acc, bad, ParseList(toks, p, close)) ==
        if Cur(toks, r.pos) == TComma then ChainParsed(acc + [r.val], bad || r.bad, ParseList(toks, r.pos + 1, close))
        else ChainParsed(acc + [r.val], bad || r.bad, Parsed(NoTrees, r.pos, false))
    {
      hide ParseExpr;
      if Cur(toks, r.pos) == TComma {
        ChainMore(acc, r.val, ParseList(toks, r.pos + 1, close).val);
      } else {
        ChainMore(acc, r.val, NoTrees);
      }
    }

    /** The parameters that `ps` holds, then those still to be parsed. */
    ghost predicate ParamsSoFar(all: Parsed<seq<Name>>, ps: seq<Name>, p: nat)
      requires p <= |toks|
    {
      var rest := ParseParams(toks, p);
      all == rest.(val := ps + rest.val)
    }

    lemma ParamStep(all: Parsed<seq<Name>>, ps: seq<Name>, p: nat)
      requires p <= |toks| && ParamsSoFar(all, ps, p)
      ensures
        var t := Cur(toks, p);
        if t == TOp(Pipe) || t == TEof then all == Parsed(ps, p, false)
        else if !t.TIdent? then all == Parsed(ps, p, true)
        else if Cur(toks, p + 1) == TComma then ParamsSoFar(all, ps + [t.x], p + 2)
        else all == Parsed(ps + [t.x], p + 1, false)
    {
      var t := Cur(toks, p);
      assert ps + [] == ps;
      if t.TIdent? && Cur(toks, p + 1) == TComma {
        var rest := ParseParams(toks, p + 2);
        assert ps + ([t.x] + rest.val) == ps + [t.x] + rest.val;
      }
    }

    lemma ParamsStart(p: nat)
      requires p <= |toks|
      ensures ParamsSoFar(ParseParams(toks, p), [], p)
    {
      hide ParseParams;
      assert [] + ParseParams(toks, p).val == ParseParams(toks, p).val;
    }

    method Params() returns (ps: seq<Name>)
      requires Valid()
      modifies this
      ensures Did(ps, ParseParams(toks, old(pos)))
      decreases |toks| - pos
    {
      hide ParseParams, ParamsSoFar;
      ghost var all := ParseParams(toks, pos);
      ps := [];
      ParamsStart(pos);
      var more := true;
      while more && Peek(0) != TOp(Pipe) && Peek(0) != TEof
        invariant old(pos) <= pos <= |toks|
        invariant more ==> hadError == old(hadError) && ParamsSoFar(all, ps, pos)
        invariant !more ==> all.pos == pos && all.val == ps && hadError == (old(hadError) || all.bad)
        decreases |toks| - pos, more
      {
        ParamStep(all, ps, pos);
        if !Peek(0).TIdent? {
          Report();
          more := false;
        } else {
          ps := ps + [Peek(0).x];
          Advance();
          more := Match(TComma);
        }
      }
      if more { ParamStep(all, ps, pos); }
    }

    method Primary() returns (e: Tree)
      requires Valid()
      modifies this
      ensures Did(e, ParsePrimary(toks, old(pos)))
      decreases |toks| - pos, 0
    {
      hide ParseExpr, ParseList, ParseParams;
      match Peek(0)
      case TInt(n) => Advance(); e := Int(n);
      case TLong(n) => Advance(); e := Long(n);
      case TBool(b) => Advance(); e := Bool(b);
      case TChar(c) => Advance(); e := Char(c);
      case TThis => Advance(); e := This;
      case TLBracket =>
        Advance();
        var es := Arguments(TRBracket);
        e := ArrayLit(es);
      case TOp(op) =>
        if op == Pipe { e := LambdaFrom(); } else { e := Unexpected(); }
      case TIdent(x) => Advance(); e := Ident(x);
      case TLParen =>
        Advance();
        ghost var r := ParseExpr(toks, pos);
        e := Expr();
        Require(TRParen, r);
      case _ => e := Unexpected();
    }

    /** A token that starts no expression is reported and skipped. */
    method Unexpected() returns (e: Tree)
      requires Valid()
      modifies this
      ensures Did(e, Parsed(Int(0), Next(toks, old(pos)), true))
    {
      Report();
      Advance();
      e := Int(0);
    }

    method LambdaFrom() returns (e: Tree)
      requires Valid() && Cur(toks, pos) == TOp(Pipe)
      modifies this
      ensures Did(e, ParsePrimary(toks, old(pos)))
      decreases |toks| - pos, 0, 0
    {
      hide ParseExpr, ParseParams;
      Advance();
      var ps := Params();
      var closed := Match(TOp(Pipe));
      var b := Expr();
      e := Lambda(ps, b);
    }
  }

  /** Parsing what was printed, with the parser itself. */
  method Reparse(e: Tree) returns (t: Tree)
    ensures t == e
  {
    var p := new Parser(Print(e, -1));
    Printing.PrintParse(e);
    t := p.Expr();
  }
}
