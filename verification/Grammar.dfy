/** Expressions as token lists: the parser as functions of the position, and a printer. */
module Grammar {
  import opened Words
  import opened Fir

  // ----- tokens and trees -----

  /** Names; the name `as` is kept for casts, which are not part of this grammar. */
  type Name = s: string | s != "as" witness "x"

  /** The tokens of the binary operators. */
  datatype Infix =
    | RangeOp | RangeEqOp | OrOr | AndAnd | Pipe | Caret | Amp | EqEq | NotEq | Less | Greater | LessEq | GreaterEq
    | ShiftL | ShiftR | Plus | Minus | Star | Slash | Percent

  datatype Token =
    | TInt(n: long) | TLong(n: long) | TBool(b: bool) | TChar(c: long) | TIdent(x: Name) | TThis
    | TOp(op: Infix) | TAssign | TCompound(cop: BinOp) | TNot | TTilde | TInc | TDec
    | TDot | TComma | TLParen | TRParen | TLBracket | TRBracket | TEof

  datatype PrefixOp = NegOp | NotOp | TildeOp | IncOp | DecOp | RefOp | DerefOp

  datatype Tree =
    | Int(n: long) | Long(n: long) | Bool(b: bool) | Char(c: long) | Ident(x: Name) | This
    | Prefix(pre: PrefixOp, e: Tree)
    | Binary(op: Infix, l: Tree, r: Tree)
    | Assign(l: Tree, r: Tree)
    | Compound(cop: BinOp, l: Tree, r: Tree)
    | Call(f: Tree, args: Trees)
    | Field(obj: Tree, name: Name)
    | Index(obj: Tree, idx: Tree)
    | PostInc(e: Tree) | PostDec(e: Tree)
    | ArrayLit(elems: Trees)
    | Lambda(params: seq<Name>, body: Tree)

  datatype Trees = NoTrees | MoreTrees(head: Tree, tail: Trees)

  function Prec(op: Infix): (n: nat)
    ensures n <= 10
  {
    match op
    case RangeOp | RangeEqOp => 0
    case OrOr => 1
    case AndAnd => 2
    case Pipe => 3
    case Caret => 4
    case Amp => 5
    case EqEq | NotEq => 6
    case Less | Greater | LessEq | GreaterEq => 7
    case ShiftL | ShiftR => 8
    case Plus | Minus => 9
    case Star | Slash | Percent => 10
  }

  /** The prefix operator a token is in front of an operand. */
  function PrefixOf(t: Token): Option<PrefixOp> {
    match t
    case TOp(Minus) => Some(NegOp)
    case TNot => Some(NotOp)
    case TTilde => Some(TildeOp)
    case TInc => Some(IncOp)
    case TDec => Some(DecOp)
    case TOp(Amp) => Some(RefOp)
    case TOp(Star) => Some(DerefOp)
    case _ => None
  }

  function PrefixToken(p: PrefixOp): (t: Token)
    ensures PrefixOf(t) == Some(p)
  {
    match p
    case NegOp => TOp(Minus)
    case NotOp => TNot
    case TildeOp => TTilde
    case IncOp => TInc
    case DecOp => TDec
    case RefOp => TOp(Amp)
    case DerefOp => TOp(Star)
  }

  // ----- the parser -----

  /** What was parsed, where parsing stands, and whether anything was reported. */
  datatype Parsed<T> = Parsed(val: T, pos: nat, bad: bool)

  function Cur(ts: seq<Token>, p: nat): Token {
    if p < |ts| then ts[p] else TEof
  }

  /** At the end of the input there is nothing to move past. */
  function Next(ts: seq<Token>, p: nat): (q: nat)
    requires p <= |ts|
    ensures p <= q <= |ts| && (p < |ts| ==> q == p + 1)
  {
    if p < |ts| then p + 1 else p
  }

  /** A required token: missing, it is reported and nothing is skipped. */
  function Expect<T>(ts: seq<Token>, r: Parsed<T>, t: Token): (q: Parsed<T>)
    requires r.pos <= |ts| && t != TEof
    ensures q.val == r.val && r.pos <= q.pos <= |ts|
  {
    if Cur(ts, r.pos) == t then r.(pos := r.pos + 1) else r.(bad := true)
  }

  function ParseExpr(ts: seq<Token>, p: nat): (r: Parsed<Tree>)
    requires p <= |ts|
    ensures p <= r.pos <= |ts| && (p < |ts| ==> p < r.pos)
    decreases |ts| - p, 6
  {
    var l := ParseBinary(ts, p, 0);
    match Cur(ts, l.pos)
    case TAssign =>
      var r := ParseExpr(ts, l.pos + 1);
      Parsed(Assign(l.val, r.val), r.pos, l.bad || r.bad)
    case TCompound(op) =>
      var r := ParseExpr(ts, l.pos + 1);
      Parsed(Compound(op, l.val, r.val), r.pos, l.bad || r.bad)
    case _ => l
  }

  function ParseBinary(ts: seq<Token>, p: nat, m: nat): (r: Parsed<Tree>)
    requires p <= |ts|
    ensures p <= r.pos <= |ts| && (p < |ts| ==> p < r.pos)
    decreases |ts| - p, 5
  {
    var l := ParseUnary(ts, p);
    ParseRest(ts, l, m)
  }

  /** Operators of at least the given precedence, folded to the left. */
  function ParseRest(ts: seq<Token>, l: Parsed<Tree>, m: nat): (r: Parsed<Tree>)
    requires l.pos <= |ts|
    ensures l.pos <= r.pos <= |ts|
    decreases |ts| - l.pos, 4
  {
    var t := Cur(ts, l.pos);
    if t.TOp? && Prec(t.op) >= m then
      var r := ParseBinary(ts, l.pos + 1, Prec(t.op) + 1);
      ParseRest(ts, Parsed(Binary(t.op, l.val, r.val), r.pos, l.bad || r.bad), m)
    else l
  }

  function ParseUnary(ts: seq<Token>, p: nat): (r: Parsed<Tree>)
    requires p <= |ts|
    ensures p <= r.pos <= |ts| && (p < |ts| ==> p < r.pos)
    decreases |ts| - p, 3
  {
    var o := PrefixOf(Cur(ts, p));
    if o.Some? then
      var r := ParseUnary(ts, p + 1);
      r.(val := Prefix(o.value, r.val))
    else ParsePostfix(ts, p)
  }

  function ParsePostfix(ts: seq<Token>, p: nat): (r: Parsed<Tree>)
    requires p <= |ts|
    ensures p <= r.pos <= |ts| && (p < |ts| ==> p < r.pos)
    decreases |ts| - p, 2
  {
    PostfixRest(ts, ParsePrimary(ts, p))
  }

  /** Tokens that extend an operand. */
  predicate Extends(t: Token) {
    t == TDot || t == TLParen || t == TLBracket || t == TInc || t == TDec
  }

  /** A dot with no name behind it. */
  predicate Dangling(ts: seq<Token>, p: nat) {
    Cur(ts, p) == TDot && !Cur(ts, p + 1).TIdent?
  }

  /** The operand as far as it goes. A dangling dot is reported and ends it. */
  function PostfixRest(ts: seq<Token>, n: Parsed<Tree>): (r: Parsed<Tree>)
    requires n.pos <= |ts|
    ensures n.pos <= r.pos <= |ts|
    decreases |ts| - n.pos, 1
  {
    if !Extends(Cur(ts, n.pos)) then n
    else
      var r := PostfixStep(ts, n);
      if Dangling(ts, n.pos) then r else PostfixRest(ts, r)
  }

  /** One field, call, index or step. */
  function PostfixStep(ts: seq<Token>, n: Parsed<Tree>): (r: Parsed<Tree>)
    requires n.pos < |ts| && Extends(Cur(ts, n.pos))
    ensures n.pos < r.pos <= |ts| && (n.bad ==> r.bad)
    decreases |ts| - n.pos, 0
  {
    var p, t := n.pos, Cur(ts, n.pos);
    if t == TDot then
      var x := Cur(ts, p + 1);
      if !x.TIdent? then Parsed(n.val, p + 1, true)
      else if Cur(ts, p + 2) == TLParen then
        var a := Expect(ts, ParseList(ts, p + 3, TRParen), TRParen);
        Parsed(Tree.Call(Field(n.val, x.x), a.val), a.pos, n.bad || a.bad)
      else Parsed(Field(n.val, x.x), p + 2, n.bad)
    else if t == TLParen then
      var a := Expect(ts, ParseList(ts, p + 1, TRParen), TRParen);
      Parsed(Tree.Call(n.val, a.val), a.pos, n.bad || a.bad)
    else if t == TLBracket then
      var i := Expect(ts, ParseExpr(ts, p + 1), TRBracket);
      Parsed(Index(n.val, i.val), i.pos, n.bad || i.bad)
    else Parsed(if t == TInc then PostInc(n.val) else PostDec(n.val), p + 1, n.bad)
  }

  /** Expressions separated by commas, up to the closing token or the end. */
  function ParseList(ts: seq<Token>, p: nat, close: Token): (r: Parsed<Trees>)
    requires p <= |ts|
    ensures p <= r.pos <= |ts|
    decreases |ts| - p, 7
  {
    if Cur(ts, p) == close || Cur(ts, p) == TEof then Parsed(NoTrees, p, false)
    else
      var e := ParseExpr(ts, p);
      if Cur(ts, e.pos) == TComma then
        var rest := ParseList(ts, e.pos + 1, close);
        Parsed(MoreTrees(e.val, rest.val), rest.pos, e.bad || rest.bad)
      else Parsed(MoreTrees(e.val, NoTrees), e.pos, e.bad)
  }

  function ParseParams(ts: seq<Token>, p: nat): (r: Parsed<seq<Name>>)
    requires p <= |ts|
    ensures p <= r.pos <= |ts|
    decreases |ts| - p
  {
    var t := Cur(ts, p);
    if t == TOp(Pipe) || t == TEof then Parsed([], p, false)
    else if !t.TIdent? then Parsed([], p, true)
    else if Cur(ts, p + 1) == TComma then
      var rest := ParseParams(ts, p + 2);
      rest.(val := [t.x] + rest.val)
    else Parsed([t.x], p + 1, false)
  }

  function ParsePrimary(ts: seq<Token>, p: nat): (r: Parsed<Tree>)
    requires p <= |ts|
    ensures p <= r.pos <= |ts| && (p < |ts| ==> p < r.pos)
    decreases |ts| - p, 0
  {
    match Cur(ts, p)
    case TInt(n) => Parsed(Int(n), p + 1, false)
    case TLong(n) => Parsed(Long(n), p + 1, false)
    case TBool(b) => Parsed(Bool(b), p + 1, false)
    case TChar(c) => Parsed(Char(c), p + 1, false)
    case TThis => Parsed(This, p + 1, false)
    case TLBracket =>
      var a := Expect(ts, ParseList(ts, p + 1, TRBracket), TRBracket);
      Parsed(ArrayLit(a.val), a.pos, a.bad)
    case TOp(Pipe) =>
      var a := ParseParams(ts, p + 1);
      var b := ParseExpr(ts, if Cur(ts, a.pos) == TOp(Pipe) then a.pos + 1 else a.pos);
      Parsed(Lambda(a.val, b.val), b.pos, a.bad || b.bad)
    case TIdent(x) => Parsed(Ident(x), p + 1, false)
    case TLParen => Expect(ts, ParseExpr(ts, p + 1), TRParen)
    case _ => Parsed(Int(0), Next(ts, p), true)
  }

  // ----- the printer -----

  /** How tightly a tree binds: 0 to 10 for binary operators, -1 for what only a whole expression is. */
  function Level(e: Tree): int {
    match e
    case Assign(_, _) => -1
    case Compound(_, _, _) => -1
    case Lambda(_, _) => -1
    case Binary(op, _, _) => Prec(op)
    case Prefix(_, _) => 11
    case _ => 12
  }

  /** Parentheses only where the position asks for a tighter binding. */
  function Print(e: Tree, m: int): (ts: seq<Token>)
    ensures |ts| > 0
    decreases e, 1
  {
    if Level(e) < m then [TLParen] + Raw(e) + [TRParen] else Raw(e)
  }

  function Raw(e: Tree): (ts: seq<Token>)
    ensures |ts| > 0
    decreases e, 0
  {
    match e
    case Int(n) => [TInt(n)]
    case Long(n) => [TLong(n)]
    case Bool(b) => [TBool(b)]
    case Char(c) => [TChar(c)]
    case Ident(x) => [TIdent(x)]
    case This => [TThis]
    case Prefix(p, e1) => [PrefixToken(p)] + Print(e1, 11)
    case Binary(op, l, r) => Print(l, Prec(op)) + [TOp(op)] + Print(r, Prec(op) + 1)
    case Assign(l, r) => Print(l, 0) + [TAssign] + Print(r, -1)
    case Compound(op, l, r) => Print(l, 0) + [TCompound(op)] + Print(r, -1)
    case Call(f, args) => Print(f, 12) + [TLParen] + PrintList(args) + [TRParen]
    case Field(o, x) => Print(o, 12) + [TDot, TIdent(x)]
    case Index(o, i) => Print(o, 12) + [TLBracket] + Print(i, -1) + [TRBracket]
    case PostInc(e1) => Print(e1, 12) + [TInc]
    case PostDec(e1) => Print(e1, 12) + [TDec]
    case ArrayLit(es) => [TLBracket] + PrintList(es) + [TRBracket]
    case Lambda(ps, b) => [TOp(Pipe)] + PrintParams(ps) + [TOp(Pipe)] + Print(b, -1)
  }

  function PrintList(es: Trees): seq<Token>
    decreases es
  {
    match es
    case NoTrees => []
    case MoreTrees(e, NoTrees) => Print(e, -1)
    case MoreTrees(e, rest) => Print(e, -1) + [TComma] + PrintList(rest)
  }

  function PrintParams(ps: seq<Name>): seq<Token> {
    if ps == [] then []
    else if |ps| == 1 then [TIdent(ps[0])]
    else [TIdent(ps[0]), TComma] + PrintParams(ps[1..])
  }

  // ----- what follows an expression -----

  /** What may follow an operand printed for level `k`: nothing that would be drawn into it. */
  predicate Follows(t: Token, k: int) {
    !Extends(t) && (t.TOp? ==> Prec(t.op) <= k)
  }

  /** What ends a whole expression. */
  predicate Stops(t: Token) {
    !Extends(t) && !t.TOp? && t != TAssign && !t.TCompound?
  }
}
