/** The whole parser as it moves over the tokens: declarations, statements, types and expressions with all
    their error paths, the trees left out. Every call ends on every token list, moves past at least one
    token while there are any, and leaves the flag against structure literals as it found it; a program is
    read to its end. */
module Progress {

  datatype Kind =
    | LParen | RParen | LBrace | RBrace | LBracket | RBracket | Comma | Semicolon | Colon | DoubleColon | Dot
    | Question | Assign | OpAssign | Arrow | FatArrow | Lt | Gt | Pipe | Amp | Star | Minus | Not | Tilde | Inc | Dec
    | Range | RangeEq | Infix(prec: nat) | At | InterpStart | As
    | Let | Mut | Const | Fn | Unit | Unsafe | External | If | Else | While | Do | For | In | Match | Return | Enum
    | Region | Defer | Break | Continue | Comptime | Export | Module | Import | Class | Private | Public | TypeName
    | BaseType | This | Null | New | IntLit | LongLit | RealLit | BoolLit | CharLit | Other

  /** A string literal carries the tokens of the expressions embedded in it. */
  datatype Token = Tok(kind: Kind) | Ident(name: string) | Str(parts: seq<Part>)

  datatype Part = Part(toks: seq<Token>)

  /** How tightly a token binds as a binary operator, if it is one. */
  function Prec(t: Token): int {
    if !t.Tok? then -1
    else
      match t.kind
      case Range => 0
      case RangeEq => 0
      case Pipe => 3
      case Amp => 5
      case Lt => 7
      case Gt => 7
      case Minus => 9
      case Star => 10
      case Infix(n) => n
      case _ => -1
  }

  class Parser {
    const toks: seq<Token>
    var pos: nat
    /** Inside how many conditions a name before a brace starts no structure literal. */
    var noStruct: nat
    var hadError: bool

    ghost predicate Valid()
      reads this
    {
      pos <= |toks|
    }

    /** The cursor has not gone back, the flag is restored, and no report is lost. */
    twostate predicate Went()
      reads this
    {
      old(pos) <= pos <= |toks| && noStruct == old(noStruct) && (old(hadError) ==> hadError)
    }

    /** And it has moved, unless it stood at the end. */
    twostate predicate Took()
      reads this
    {
      Went() && (old(pos) < |toks| ==> old(pos) < pos)
    }

    constructor (toks: seq<Token>)
      ensures Valid() && this.toks == toks && pos == 0 && noStruct == 0 && !hadError
    {
      this.toks := toks;
      pos, noStruct, hadError := 0, 0, false;
    }

    // ----- single tokens -----

    predicate AtEnd()
      reads this
    {
      pos >= |toks|
    }

    predicate Is(k: Kind)
      reads this
    {
      pos < |toks| && toks[pos] == Tok(k)
    }

    predicate Next(k: Kind)
      reads this
    {
      pos + 1 < |toks| && toks[pos + 1] == Tok(k)
    }

    predicate IsName()
      reads this
    {
      pos < |toks| && toks[pos].Ident?
    }

    predicate IsNamed(x: string)
      reads this
    {
      pos < |toks| && toks[pos] == Ident(x)
    }

    method Advance()
      requires Valid()
      modifies `pos
      ensures Took() && (old(pos) < |toks| ==> pos == old(pos) + 1)
    {
      if pos < |toks| { pos := pos + 1; }
    }

    method Accept(k: Kind) returns (b: bool)
      requires Valid()
      modifies `pos
      ensures Went() && b == old(Is(k)) && (b ==> pos == old(pos) + 1) && (!b ==> pos == old(pos))
    {
      b := Is(k);
      if b { Advance(); }
    }

    method Report()
      requires Valid()
      modifies `hadError
      ensures Went() && hadError && pos == old(pos)
    {
      hadError := true;
    }

    /** Missing, it is reported and nothing is skipped. */
    method Expect(k: Kind)
      requires Valid()
      modifies this
      ensures Went() && (old(Is(k)) ==> pos == old(pos) + 1)
    {
      var b := Accept(k);
      if !b { Report(); }
    }

    // ----- types -----

    method Type()
      requires Valid()
      modifies this
      ensures Went()
      decreases toks, |toks| - pos, 0
    {
      if Is(Amp) || Is(Star) {
        Advance();
        Type();
      } else if Is(LBracket) {
        Advance();
        if !Is(RBracket) {
          Type();
          if Is(Semicolon) {
            Advance();
            var _ := Accept(IntLit);
          }
        }
        Expect(RBracket);
      } else if Is(Fn) {
        FnType();
      } else if Is(BaseType) || Is(Unit) {
        Advance();
      } else if IsName() {
        Advance();
        if Is(Lt) { Skip(Lt, Gt); }
      }
    }

    method FnType()
      requires Valid() && Is(Fn)
      modifies this
      ensures Took()
      decreases toks, |toks| - pos, 0, 0
    {
      Advance();
      if Is(LParen) {
        Advance();
        var more := true;
        while more && !Is(RParen) && !AtEnd()
          invariant Went() && old(pos) < pos
          decreases if more then |toks| - pos + 1 else 0
        {
          Type();
          more := Accept(Comma);
        }
        Expect(RParen);
      }
      if Is(Colon) || Is(Arrow) {
        Advance();
        Type();
      }
    }

    /** Past a bracketed stretch, however it nests. */
    method Skip(open: Kind, close: Kind)
      requires Valid() && Is(open)
      modifies this
      ensures Took()
    {
      Advance();
      var depth: nat := 1;
      while !AtEnd() && depth > 0
        invariant Went() && old(pos) < pos
        decreases |toks| - pos
      {
        if Is(open) { depth := depth + 1; } else if Is(close) { depth := depth - 1; }
        Advance();
      }
    }

    // ----- expressions -----

    method Expr()
      requires Valid()
      modifies this
      ensures Took()
      decreases toks, |toks| - pos, 4
    {
      BinaryFrom(0);
      if Is(Assign) || Is(OpAssign) {
        Advance();
        Expr();
      }
    }

    method BinaryFrom(m: nat)
      requires Valid()
      modifies this
      ensures Took()
      decreases toks, |toks| - pos, 3
    {
      Unary();
      while pos < |toks| && Prec(toks[pos]) >= m
        invariant Took()
        decreases |toks| - pos
      {
        var k := Prec(toks[pos]);
        Advance();
        BinaryFrom(k + 1);
      }
    }

    method Unary()
      requires Valid()
      modifies this
      ensures Took()
      decreases toks, |toks| - pos, 2
    {
      if Is(Minus) || Is(Not) || Is(Tilde) || Is(Inc) || Is(Dec) || Is(Amp) || Is(Star) {
        Advance();
        Unary();
      } else {
        Postfix();
      }
    }

    method Postfix()
      requires Valid()
      modifies this
      ensures Took()
      decreases toks, |toks| - pos, 1
    {
      Primary();
      var more := true;
      while more
        invariant Took() && (old(pos) == |toks| ==> pos == |toks|)
        decreases if more then |toks| - pos + 1 else 0
      {
        more := Extend();
      }
    }

    /** One field, call, index, step, condition, try or cast, if there is one. */
    method Extend() returns (more: bool)
      requires Valid()
      modifies this
      ensures Went() && (more ==> old(pos) < pos)
      decreases toks, |toks| - pos, 0
    {
      more := true;
      if Is(Dot) {
        Advance();
        if !IsName() {
          Report();
          more := false;
        } else if Next(LParen) {
          Advance();
          Advance();
          List(RParen);
          Expect(RParen);
        } else {
          Advance();
        }
      } else if Is(LParen) {
        Advance();
        List(RParen);
        Expect(RParen);
      } else if Is(LBracket) {
        Advance();
        Expr();
        Expect(RBracket);
      } else if Is(Inc) || Is(Dec) {
        Advance();
      } else if Is(Question) {
        Advance();
        if !(Is(Semicolon) || Is(Comma) || Is(RParen) || Is(RBrace) || Is(RBracket) || AtEnd()) {
          Expr();
          Expect(Colon);
          Expr();
        }
      } else if Is(As) || IsNamed("as") {
        Advance();
        Type();
      } else {
        more := false;
      }
    }

    /** Expressions between commas, up to the closing token or the end. */
    method List(close: Kind)
      requires Valid()
      modifies this
      ensures Went()
      decreases toks, |toks| - pos, 5
    {
      var more := true;
      while more && !Is(close) && !AtEnd()
        invariant Went()
        decreases if more then |toks| - pos + 1 else 0
      {
        Expr();
        more := Accept(Comma);
      }
    }

    method Primary()
      requires Valid()
      modifies this
      ensures Took()
      decreases toks, |toks| - pos, 0
    {
      if AtEnd() {
        Report();
      } else if toks[pos].Str? {
        Advance();
        Embedded(toks[pos - 1].parts);
      } else if Is(LBracket) {
        Advance();
        List(RBracket);
        Expect(RBracket);
      } else if Is(Pipe) {
        Lambda();
      } else if Is(At) {
        Intrinsic();
      } else if IsName() {
        Named();
      } else if Is(LParen) {
        Advance();
        Expr();
        Expect(RParen);
      } else if Is(Amp) || Is(Star) {
        Advance();
        Unary();
      } else if Is(InterpStart) {
        Advance();
        while !Is(RBrace) && !AtEnd()
          invariant Went() && old(pos) < pos
          decreases |toks| - pos
        {
          Expr();
          var _ := Accept(Comma);
        }
        var _ := Accept(RBrace);
      } else {
        if !(toks[pos].kind.IntLit? || toks[pos].kind.LongLit? || toks[pos].kind.RealLit? || toks[pos].kind.BoolLit?
             || toks[pos].kind.CharLit? || Is(Null) || Is(This)) {
          Report();
        }
        Advance();
      }
    }

    /** Each embedded expression is read by a parser of its own, whose reports are its own. */
    method Embedded(parts: seq<Part>)
      requires Valid() && 0 < pos && toks[pos - 1] == Str(parts)
      modifies this
      ensures Went() && pos == old(pos)
      decreases toks, |toks| - pos, 6
    {
      for i := 0 to |parts|
        invariant Went() && pos == old(pos)
      {
        var sub := new Parser(parts[i].toks);
        sub.Expr();
      }
    }

    method Lambda()
      requires Valid() && Is(Pipe)
      modifies this
      ensures Took()
      decreases toks, |toks| - pos, 0, 0
    {
      Advance();
      var more := true;
      while more && !Is(Pipe) && !AtEnd()
        invariant Went() && old(pos) < pos
        decreases if more then |toks| - pos + 1 else 0
      {
        if !IsName() {
          Report();
          more := false;
        } else {
          Advance();
          var typed := Accept(Colon);
          if typed { Type(); }
          more := Accept(Comma);
        }
      }
      var _ := Accept(Pipe);
      if Is(Arrow) || Is(Colon) {
        Advance();
        Type();
      }
      if Is(LBrace) { Block(); } else { Expr(); }
    }

    method Intrinsic()
      requires Valid() && Is(At)
      modifies this
      ensures Took()
      decreases toks, |toks| - pos, 0, 0
    {
      Advance();
      if !IsName() {
        Report();
        return;
      }
      var ofType := IsNamed("sizeof") || IsNamed("alignof") || IsNamed("typeof");
      Advance();
      Expect(LParen);
      if !ofType { List(RParen); } else if !Is(RParen) { Type(); }
      Expect(RParen);
    }

    /** A name: one with a namespace, a structure literal, or just that. */
    method Named()
      requires Valid() && IsName()
      modifies this
      ensures Took()
      decreases toks, |toks| - pos, 0, 0
    {
      if Next(DoubleColon) {
        Advance();
        Advance();
        if AtEnd() || Is(Semicolon) {
          Report();
          return;
        }
        Advance();
        if Is(LParen) {
          Advance();
          List(RParen);
          Expect(RParen);
        }
      } else if Next(LBrace) && noStruct == 0 {
        Advance();
        Expect(LBrace);
        var more := true;
        while more && !Is(RBrace) && !AtEnd()
          invariant Went() && old(pos) < pos
          decreases if more then |toks| - pos + 1 else 0
        {
          if !IsName() {
            Report();
            more := false;
          } else {
            Advance();
            Expect(Colon);
            Expr();
            more := Accept(Comma);
          }
        }
        Expect(RBrace);
      } else {
        Advance();
      }
    }

    /** An expression before a brace that opens a body. */
    method Condition()
      requires Valid()
      modifies this
      ensures Took()
      decreases toks, |toks| - pos, 5
    {
      noStruct := noStruct + 1;
      Expr();
      noStruct := noStruct - 1;
    }

    // ----- statements -----

    method Statement()
      requires Valid()
      modifies this
      ensures Took()
      decreases toks, |toks| - pos, 8
    {
      if Is(Let) || Is(Mut) || Is(Const) {
        VarDecl();
      } else if Is(Fn) || Is(Unit) {
        FnDecl(false);
      } else if Is(Unsafe) {
        Advance();
        Block();
      } else if Is(External) {
        Advance();
        if Is(Fn) || Is(Unit) { FnDecl(true); } else { Report(); }
      } else if Is(If) {
        IfStatement();
      } else if Is(While) {
        Advance();
        Expect(LParen);
        Condition();
        Expect(RParen);
        Block();
      } else if Is(Do) {
        DoStatement();
      } else if Is(For) {
        ForStatement();
      } else if Is(Match) {
        MatchStatement();
      } else if Is(Return) {
        Advance();
        if !Is(Semicolon) { Expr(); }
        Expect(Semicolon);
      } else if Is(Enum) {
        EnumDecl();
      } else if Is(LBrace) {
        Block();
      } else if Is(Region) {
        RegionBlock();
      } else if Is(Defer) {
        Advance();
        Statement();
      } else if Is(Break) || Is(Continue) {
        Advance();
        Expect(Semicolon);
      } else if Is(Comptime) {
        ComptimeLet();
      } else {
        Expr();
        Expect(Semicolon);
      }
    }

    /** A missing brace is reported, and the statements are read all the same. */
    method Block()
      requires Valid()
      modifies this
      ensures Went() && (old(Is(LBrace)) ==> old(pos) < pos)
      decreases toks, |toks| - pos, if Is(LBrace) then 7 else 10
    {
      Expect(LBrace);
      Statements();
      Expect(RBrace);
    }

    /** Up to the closing brace or the end: each turn moves. */
    method Statements()
      requires Valid()
      modifies this
      ensures Went() && (Is(RBrace) || AtEnd())
      decreases toks, |toks| - pos, 9
    {
      while !Is(RBrace) && !AtEnd()
        invariant Went()
        decreases |toks| - pos
      {
        Statement();
      }
    }

    method VarDecl()
      requires Valid()
      modifies this
      ensures Took()
      decreases toks, |toks| - pos, 5
    {
      Advance();
      if !IsName() {
        Report();
        return;
      }
      Advance();
      var typed := Accept(Colon);
      if typed { Type(); }
      var given := Accept(Assign);
      if given { Expr(); }
      Expect(Semicolon);
    }

    method ComptimeLet()
      requires Valid() && Is(Comptime)
      modifies this
      ensures Took()
      decreases toks, |toks| - pos, 5
    {
      Advance();
      if !Is(Let) {
        Report();
        return;
      }
      Advance();
      if !IsName() {
        Report();
        return;
      }
      Advance();
      var typed := Accept(Colon);
      if typed { Type(); }
      Expect(Assign);
      Expr();
      Expect(Semicolon);
    }

    method EnumDecl()
      requires Valid() && Is(Enum)
      modifies this
      ensures Took()
    {
      Advance();
      if !IsName() {
        Report();
        return;
      }
      Advance();
      Expect(LBrace);
      var more := true;
      while more && !Is(RBrace) && !AtEnd()
        invariant Went() && old(pos) < pos
        decreases if more then |toks| - pos + 1 else 0
      {
        if !IsName() {
          Report();
          Advance();
        } else {
          Advance();
          if Is(LParen) {
            Advance();
            Type();
            Expect(RParen);
          }
          more := Accept(Comma);
        }
      }
      Expect(RBrace);
    }

    method IfStatement()
      requires Valid() && Is(If)
      modifies this
      ensures Took()
      decreases toks, |toks| - pos, 5
    {
      Advance();
      Expect(LParen);
      Condition();
      Expect(RParen);
      Block();
      var other := Accept(Else);
      if other {
        if Is(If) { IfStatement(); } else { Block(); }
      }
    }

    method DoStatement()
      requires Valid() && Is(Do)
      modifies this
      ensures Took()
      decreases toks, |toks| - pos, 5
    {
      Advance();
      Block();
      var _ := Accept(FatArrow);
      Expect(While);
      var paren := Accept(LParen);
      Condition();
      if paren { Expect(RParen); }
      Expect(Semicolon);
    }

    method ForStatement()
      requires Valid() && Is(For)
      modifies this
      ensures Took()
      decreases toks, |toks| - pos, 5
    {
      Advance();
      if !Is(LParen) {
        Report();
        return;
      }
      Advance();
      if (Is(Let) || Is(Mut) || IsName()) && Next(In) {
        Advance();
        Expect(In);
        Condition();
      } else {
        ForHead();
      }
      Expect(RParen);
      Block();
    }

    /** The three parts of a C-style head; a declaration takes its own semicolon. */
    method ForHead()
      requires Valid()
      modifies this
      ensures Went()
      decreases toks, |toks| - pos, 6
    {
      if Is(Semicolon) {
        Advance();
      } else if Is(Let) || Is(Mut) {
        VarDecl();
      } else {
        Condition();
        Expect(Semicolon);
      }
      if !Is(Semicolon) { Condition(); }
      Expect(Semicolon);
      if !Is(RParen) { Condition(); }
    }

    /** Arms up to the closing brace or the end: each of them moves, whatever it starts with. */
    method MatchStatement()
      requires Valid() && Is(Match)
      modifies this
      ensures Took()
      decreases toks, |toks| - pos, 5
    {
      Advance();
      Expect(LParen);
      Condition();
      Expect(RParen);
      Expect(LBrace);
      while !Is(RBrace) && !AtEnd()
        invariant Went() && old(pos) < pos
        decreases |toks| - pos
      {
        Arm();
      }
      Expect(RBrace);
    }

    method Arm()
      requires Valid()
      modifies this
      ensures Took()
      decreases toks, |toks| - pos, 9
    {
      Pattern();
      Expect(FatArrow);
      if Is(LBrace) { Block(); } else { Statement(); }
      var _ := Accept(Comma);
    }

    /** The pattern of an arm; nothing is reported, and perhaps nothing read, if there is none. */
    method Pattern()
      requires Valid()
      modifies this
      ensures Went()
    {
      if IsNamed("_") || Is(BoolLit) || (pos < |toks| && toks[pos].Str?) {
        Advance();
      } else if IsName() && (Next(LParen) || Next(FatArrow) || Next(Comma)) {
        Advance();
        if Is(LParen) {
          Advance();
          if IsName() { Advance(); }
          Expect(RParen);
        }
      } else {
        if Is(IntLit) || Is(LongLit) || Is(CharLit) { Advance(); }
        if Is(Range) || Is(RangeEq) {
          Advance();
          if Is(IntLit) || Is(LongLit) { Advance(); }
        }
      }
    }

    method RegionBlock()
      requires Valid() && Is(Region)
      modifies this
      ensures Took()
      decreases toks, |toks| - pos, 5
    {
      Advance();
      if !IsName() {
        Report();
        return;
      }
      Advance();
      Expect(LBrace);
      Statements();
      Expect(RBrace);
    }

    // ----- functions -----

    predicate IsFnName()
      reads this
    {
      IsName() || Is(New) || Is(Let) || Is(Mut) || Is(BaseType)
    }

    method FnDecl(external: bool)
      requires Valid()
      modifies this
      ensures Took()
      decreases toks, |toks| - pos, 5
    {
      Advance();
      if !IsFnName() {
        Report();
        return;
      }
      Advance();
      Expect(LParen);
      Params();
      Expect(RParen);
      if Is(Colon) || Is(Arrow) {
        Advance();
        Type();
      }
      if !external {
        Block();
      } else if Is(LBrace) {
        Skip(LBrace, RBrace);
      } else {
        var _ := Accept(Semicolon);
      }
    }

    method Params()
      requires Valid()
      modifies this
      ensures Went()
      decreases toks, |toks| - pos, 5
    {
      var more := true;
      while more && !Is(RParen) && !AtEnd()
        invariant Went()
        decreases if more then |toks| - pos + 1 else 0
      {
        var _ := Accept(Mut);
        if !IsName() {
          Report();
          more := false;
        } else {
          Advance();
          var typed := Accept(Colon);
          if typed { Type(); }
          var given := Accept(Assign);
          if given { Expr(); }
          more := Accept(Comma);
        }
      }
    }

    // ----- the top level -----

    /** Members up to the closing brace or the end; what is no member is reported and skipped. */
    method ClassBody()
      requires Valid()
      modifies this
      ensures Went() && (Is(RBrace) || AtEnd())
      decreases toks, |toks| - pos, 9
    {
      while !Is(RBrace) && !AtEnd()
        invariant Went()
        decreases |toks| - pos
      {
        if Is(Fn) || Is(Unit) {
          FnDecl(false);
        } else if Is(Mut) || Is(Let) {
          VarDecl();
        } else if IsName() {
          Advance();
          Expect(Colon);
          Type();
          Expect(Semicolon);
        } else {
          Report();
          Advance();
        }
      }
    }

    method ClassDecl()
      requires Valid() && Is(Class)
      modifies this
      ensures Took()
    {
      Advance();
      if !IsName() {
        Report();
        return;
      }
      Advance();
      Expect(LBrace);
      while !Is(RBrace) && !AtEnd()
        invariant Went() && old(pos) < pos
        decreases |toks| - pos
      {
        if Is(Private) || Is(Public) {
          Advance();
          Expect(LBrace);
          ClassBody();
          Expect(RBrace);
        } else {
          Report();
          Advance();
        }
      }
      Expect(RBrace);
    }

    method ImportDecl()
      requires Valid() && Is(Import)
      modifies this
      ensures Took()
    {
      Advance();
      if Is(Lt) {
        Advance();
        while !Is(Gt) && !AtEnd()
          invariant Went() && old(pos) < pos
          decreases |toks| - pos
        {
          Advance();
        }
        Expect(Gt);
      } else if pos < |toks| && toks[pos].Str? {
        Advance();
      } else {
        Report();
      }
      var _ := Accept(Semicolon);
    }

    method ExportDecl()
      requires Valid() && Is(Export)
      modifies this
      ensures Took()
    {
      Advance();
      if Is(Module) {
        Advance();
        var _ := Accept(Semicolon);
        return;
      }
      if Is(Fn) || Is(Unit) {
        FnDecl(false);
        return;
      }
      if Is(External) {
        Advance();
        if Is(Fn) || Is(Unit) {
          FnDecl(true);
          return;
        }
      }
      Report();
    }

    method TopLevel()
      requires Valid()
      modifies this
      ensures Took()
    {
      if Is(Export) {
        ExportDecl();
      } else if Is(Import) {
        ImportDecl();
      } else if Is(Fn) || Is(Unit) {
        FnDecl(false);
      } else if Is(External) {
        Advance();
        if Is(Fn) || Is(Unit) { FnDecl(true); } else { Report(); }
      } else if Is(Enum) {
        EnumDecl();
      } else if Is(Class) {
        ClassDecl();
      } else if Is(Const) {
        VarDecl();
      } else if Is(Region) {
        RegionBlock();
      } else if Is(Comptime) {
        ComptimeLet();
      } else if Is(TypeName) {
        Advance();
        if !IsName() {
          Report();
          return;
        }
        Advance();
        Expect(Assign);
        Type();
        var _ := Accept(Semicolon);
      } else {
        Report();
        Advance();
      }
    }

    /** Declarations to the end of the tokens. */
    method Program()
      requires Valid()
      modifies this
      ensures Went() && pos == |toks|
    {
      while !AtEnd()
        invariant Went()
        decreases |toks| - pos
      {
        TopLevel();
      }
    }
  }
}
