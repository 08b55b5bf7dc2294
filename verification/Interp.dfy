/** Expressions embedded in string literals: how a literal's value is cut into text and holes, and how the text
    of each hole is lexed and parsed in its turn. The lexer's other tokens are a parameter. */
module Interp {
  import opened Lexer
  import Progress

  const PERCENT: nat := 37
  const OPEN: nat := 123
  const CLOSE: nat := 125

  // ----- cutting a value up -----

  datatype Segment = Text(out: Bytes) | Hole(inner: Bytes, closed: bool)

  predicate StartsHole(v: Bytes, i: nat) {
    i + 1 < |v| && v[i] == PERCENT && v[i + 1] == OPEN
  }

  /** Where the text that starts at `i` ends: at a percent sign before a brace, or at the end. */
  function TextEnd(v: Bytes, i: nat): (n: nat)
    requires i <= |v|
    ensures i <= n <= |v| && (n < |v| ==> StartsHole(v, n) && n + 2 <= |v|)
    ensures forall k :: i <= k < n ==> !StartsHole(v, k)
    decreases |v| - i
  {
    if i == |v| || StartsHole(v, i) then i else TextEnd(v, i + 1)
  }

  /** Where the hole ends, `depth` braces being open at `i`: at the brace that closes the first of them. */
  function HoleEnd(v: Bytes, i: nat, depth: nat): (n: nat)
    requires i <= |v| && depth > 0
    ensures i <= n <= |v| && (n < |v| ==> v[n] == CLOSE)
    decreases |v| - i
  {
    if i == |v| || (v[i] == CLOSE && depth == 1) then i
    else HoleEnd(v, i + 1, if v[i] == OPEN then depth + 1 else if v[i] == CLOSE then depth - 1 else depth)
  }

  function Split(v: Bytes): seq<Segment>
    decreases |v|
  {
    if v == [] then []
    else
      var n := TextEnd(v, 0);
      if n == |v| then [Text(v)]
      else
        var e := HoleEnd(v, n + 2, 1);
        [Text(v[..n]), Hole(v[n + 2..e], e < |v|)] + Split(if e < |v| then v[e + 1..] else [])
  }

  function Written(s: Segment): Bytes {
    match s
    case Text(out) => out
    case Hole(inner, closed) => [PERCENT, OPEN] + inner + if closed then [CLOSE] else []
  }

  function Join(ss: seq<Segment>): Bytes {
    if ss == [] then [] else Written(ss[0]) + Join(ss[1..])
  }

  /** What is written from a hole on. */
  function FromHole(h: Bytes, closed: bool, rest: Bytes): Bytes {
    [PERCENT, OPEN] + h + (if closed then [CLOSE] else []) + rest
  }

  lemma {:induction false} JoinTwo(t: Bytes, h: Bytes, closed: bool, ss: seq<Segment>)
    ensures Join([Text(t), Hole(h, closed)] + ss) == t + FromHole(h, closed, Join(ss))
  {
    var all := [Text(t), Hole(h, closed)] + ss;
    assert all[1..] == [Hole(h, closed)] + ss && all[1..][1..] == ss;
    assert Join(all) == t + (Written(Hole(h, closed)) + Join(ss));
  }

  lemma {:induction false} CutAt(v: Bytes, n: nat, e: nat)
    requires StartsHole(v, n) && n + 2 <= e <= |v| && (e < |v| ==> v[e] == CLOSE)
    ensures v == v[..n] + FromHole(v[n + 2..e], e < |v|, if e < |v| then v[e + 1..] else [])
  {
    assert v == v[..n] + v[n..n + 2] + v[n + 2..e] + v[e..];
    assert v[n..n + 2] == [PERCENT, OPEN];
    if e < |v| { assert v[e..] == [CLOSE] + v[e + 1..]; }
  }

  /** The first text and the first hole, with what is left. */
  lemma {:induction false} SplitStep(v: Bytes) returns (n: nat, e: nat, rest: Bytes)
    requires v != []
    ensures n <= |v| && (forall k :: 0 <= k < n ==> !StartsHole(v, k)) && (n == |v| ==> Split(v) == [Text(v)])
    ensures
      n < |v| ==>
        && StartsHole(v, n) && n + 2 <= e <= |v| && e == HoleEnd(v, n + 2, 1) && (e < |v| ==> v[e] == CLOSE)
        && rest == (if e < |v| then v[e + 1..] else [])
        && Split(v) == [Text(v[..n]), Hole(v[n + 2..e], e < |v|)] + Split(rest)
  {
    hide HoleEnd, TextEnd, StartsHole;
    n := TextEnd(v, 0);
    e := if n < |v| then HoleEnd(v, n + 2, 1) else n;
    rest := if e < |v| then v[e + 1..] else [];
    if n < |v| { SplitDef(v, n, e); }
  }

  /** Cutting up loses nothing. */
  lemma {:induction false} JoinSplit(v: Bytes)
    ensures Join(Split(v)) == v
    decreases |v|
  {
    hide *;
    if v == [] {
      SplitNone();
      JoinNone();
    } else {
      var n, e, rest := SplitStep(v);
      if n == |v| {
        JoinOne(v);
      } else {
        JoinSplit(rest);
        JoinTwo(v[..n], v[n + 2..e], e < |v|, Split(rest));
        CutAt(v, n, e);
      }
    }
  }

  lemma {:induction false} JoinOne(t: Bytes)
    ensures Join([Text(t)]) == t
  {
    assert Join([Text(t)]) == t + [];
  }

  lemma {:induction false} JoinNone()
    ensures Join([]) == []
  {
  }

  // ----- the one way to cut -----

  /** With `depth` braces open before it, `h` leaves the first of them open, and no other if it is closed next. */
  predicate Balanced(h: Bytes, depth: nat, closed: bool)
    requires depth > 0
  {
    if h == [] then closed ==> depth == 1
    else if h[0] == CLOSE && depth == 1 then false
    else Balanced(h[1..], if h[0] == OPEN then depth + 1 else if h[0] == CLOSE then depth - 1 else depth, closed)
  }

  predicate PlainText(t: Bytes) { forall k :: 0 <= k < |t| ==> !StartsHole(t, k) }

  /** Text and holes by turns; only the last hole may lack its closing brace. */
  predicate WellCut(ss: seq<Segment>)
    decreases |ss|
  {
    if ss == [] then true
    else
      && ss[0].Text? && PlainText(ss[0].out)
      && if |ss| == 1 then ss[0].out != []
         else
           && ss[1].Hole? && Balanced(ss[1].inner, 1, ss[1].closed)
           && (!ss[1].closed ==> |ss| == 2) && WellCut(ss[2..])
  }

  lemma {:induction false} HoleBalanced(v: Bytes, i: nat, depth: nat)
    requires i <= |v| && depth > 0
    ensures var e := HoleEnd(v, i, depth); Balanced(v[i..e], depth, e < |v|)
    decreases |v| - i
  {
    var e := HoleEnd(v, i, depth);
    if i < e {
      HoleBalanced(v, i + 1, if v[i] == OPEN then depth + 1 else if v[i] == CLOSE then depth - 1 else depth);
      assert v[i..e][1..] == v[i + 1..e];
    }
  }

  lemma {:induction false} SplitWell(v: Bytes)
    ensures WellCut(Split(v))
    decreases |v|
  {
    hide StartsHole, Balanced, PlainText, Split, HoleEnd;
    if v == [] {
      SplitNone();
    } else {
      var n, e, rest := SplitStep(v);
      PlainBefore(v, n);
      if n < |v| {
        SplitWell(rest);
        HoleBalanced(v, n + 2, 1);
        var ss := Split(v);
        assert ss[2..] == Split(rest) && ss[0] == Text(v[..n]) && ss[1] == Hole(v[n + 2..e], e < |v|);
        if e == |v| { SplitNone(); }
      }
    }
  }

  lemma {:induction false} PlainBefore(v: Bytes, n: nat)
    requires n <= |v| && forall k :: 0 <= k < n ==> !StartsHole(v, k)
    ensures PlainText(v[..n]) && (n == |v| ==> PlainText(v))
  {
    forall k | 0 <= k < n
      ensures !StartsHole(v[..n], k)
    {
      assert !StartsHole(v, k);
    }
  }

  lemma {:induction false} HoleEndIs(v: Bytes, i: nat, h: Bytes, depth: nat, closed: bool)
    requires depth > 0 && i + |h| <= |v| && v[i..i + |h|] == h && Balanced(h, depth, closed)
    requires if closed then i + |h| < |v| && v[i + |h|] == CLOSE else i + |h| == |v|
    ensures HoleEnd(v, i, depth) == i + |h|
    decreases |h|
  {
    if h != [] {
      assert v[i] == h[0] && v[i + 1..i + |h|] == h[1..];
      var d := if h[0] == OPEN then depth + 1 else if h[0] == CLOSE then depth - 1 else depth;
      HoleEndIs(v, i + 1, h[1..], d, closed);
    }
  }

  lemma {:induction false} TextEndIs(t: Bytes, after: Bytes)
    requires PlainText(t) && |after| >= 2 && after[0] == PERCENT && after[1] == OPEN
    ensures TextEnd(t + after, 0) == |t|
  {
    var v, n := t + after, TextEnd(t + after, 0);
    assert StartsHole(v, |t|);
    forall k | 0 <= k < |t|
      ensures !StartsHole(v, k)
    {
      assert !StartsHole(t, k);
    }
  }

  lemma {:induction false} SplitJoin(ss: seq<Segment>)
    requires WellCut(ss)
    ensures Split(Join(ss)) == ss
    decreases |ss|
  {
    hide PlainText, Balanced, FromHole, Split, Join;
    if ss == [] {
      JoinNone();
      SplitNone();
    } else if |ss| == 1 {
      SplitOne(ss[0].out);
      assert ss == [Text(ss[0].out)];
      JoinOne(ss[0].out);
    } else {
      var t, h, c := ss[0].out, ss[1].inner, ss[1].closed;
      var rest := Join(ss[2..]);
      SplitJoin(ss[2..]);
      JoinTwo(t, h, c, ss[2..]);
      assert ss == [Text(t), Hole(h, c)] + ss[2..];
      if !c {
        assert ss[2..] == [];
        JoinNone();
      }
      SplitTwo(t, h, c, rest);
    }
  }

  lemma {:induction false} SplitNone()
    ensures Split([]) == []
  {
  }

  lemma {:induction false} SplitOne(t: Bytes)
    requires PlainText(t) && t != []
    ensures Split(t) == [Text(t)]
  {
    hide StartsHole;
    assert !(TextEnd(t, 0) < |t|);
  }

  lemma {:induction false} SplitTwo(t: Bytes, h: Bytes, c: bool, rest: Bytes)
    requires PlainText(t) && Balanced(h, 1, c) && (!c ==> rest == [])
    ensures Split(t + FromHole(h, c, rest)) == [Text(t), Hole(h, c)] + Split(rest)
  {
    hide *;
    var after, i := FromHole(h, c, rest), |t| + 2;
    var v, e := t + after, i + |h|;
    WholeParts(t, h, c, rest);
    TextEndIs(t, after);
    HoleEndIs(v, i, h, 1, c);
    SplitDef(v, |t|, e);
    if !c { assert rest == []; }
  }

  lemma {:induction false} SplitDef(v: Bytes, n: nat, e: nat)
    requires n + 2 <= |v| && TextEnd(v, 0) == n && HoleEnd(v, n + 2, 1) == e
    ensures n + 2 <= e <= |v|
    ensures
      Split(v) == [Text(v[..n]), Hole(v[n + 2..e], e < |v|)] + Split(if e < |v| then v[e + 1..] else [])
  {
    hide TextEnd, HoleEnd;
  }

  lemma {:induction false} WholeParts(t: Bytes, h: Bytes, c: bool, rest: Bytes)
    requires !c ==> rest == []
    ensures
      var after := FromHole(h, c, rest);
      var v, i := t + after, |t| + 2;
      && |after| >= 2 && after[0] == PERCENT && after[1] == OPEN && i + |h| <= |v|
      && v[..|t|] == t && v[i..i + |h|] == h && (i + |h| < |v| <==> c)
      && (c ==> v[i + |h|] == CLOSE && v[i + |h| + 1..] == rest)
  {
    var v, i := t + FromHole(h, c, rest), |t| + 2;
    assert v == (t + [PERCENT, OPEN]) + h + ((if c then [CLOSE] else []) + rest);
    assert v[i..i + |h|] == h;
    if c { assert v[i + |h| + 1..] == rest; }
  }

  /** For every value there is one way to cut it into plain text and balanced holes, and that is the one found. */
  lemma {:induction false} SplitExact(v: Bytes, ss: seq<Segment>)
    ensures Split(v) == ss <==> WellCut(ss) && Join(ss) == v
  {
    hide *;
    JoinSplit(v);
    SplitWell(v);
    if WellCut(ss) { SplitJoin(ss); }
  }

  // ----- from text to tokens, literals inside literals included -----

  function Holes(ss: seq<Segment>): (hs: seq<Bytes>)
    ensures forall h :: h in hs ==> |h| < |Join(ss)|
  {
    if ss == [] then []
    else
      var hs := Holes(ss[1..]);
      if ss[0].Hole? then [ss[0].inner] + hs else hs
  }

  /** A value is kept as a string that ends at its first zero. */
  function Kept(v: Bytes): (r: Bytes)
    ensures |r| <= |v| && r == v[..|r|] && 0 !in r && (|r| < |v| ==> v[|r|] == 0)
  {
    if v == [] || v[0] == 0 then []
    else
      var r := Kept(v[1..]);
      assert v == [v[0]] + v[1..];
      [v[0]] + r
  }

  /** What stands between raw quotes, as far as the buffer reaches. */
  function RawValue(s: Bytes, p: nat, room: nat): (r: Bytes)
    requires p <= |s|
    ensures |r| <= room && p + |r| <= |s| && r == s[p..p + |r|] && QUOTE !in r
    ensures |r| == room || p + |r| == |s| || s[p + |r|] == QUOTE
    decreases |s| - p
  {
    if p == |s| || s[p] == QUOTE || room == 0 then []
    else [s[p]] + RawValue(s, p + 1, room - 1)
  }

  /** A token of a text; of a literal, where its opening quote is. */
  datatype Raw = Plain(tok: Progress.Kind) | Name(x: string) | Quoted(at: nat) | Verbatim(at: nat)

  type Lexical = Bytes -> seq<Raw>

  function ValueAt(s: Bytes, r: Raw): (v: Bytes)
    requires r.Quoted? || r.Verbatim?
    ensures |v| < |s| || v == []
  {
    if r.at >= |s| then []
    else if r.Verbatim? then Kept(RawValue(s, r.at + 1, BUFFER_MAX))
    else
      ValueShorter(s, r.at);
      Kept(LexString(s, r.at).out)
  }

  /** Every token of a text; a literal carries the tokens of the texts in its holes. It ends on every text, with
      every lexer: each hole is shorter than the text that its literal stands in. */
  function Tokens(lex: Lexical, s: Bytes): (ts: seq<Progress.Token>)
    ensures |ts| == |lex(s)|
    decreases |s|, 1
  {
    seq(|lex(s)|, i requires 0 <= i < |lex(s)| => TokenOf(lex, s, lex(s)[i]))
  }

  function TokenOf(lex: Lexical, s: Bytes, r: Raw): Progress.Token
    decreases |s|, 0
  {
    match r
    case Plain(k) => Progress.Tok(k)
    case Name(x) => Progress.Ident(x)
    case _ =>
      var v := ValueAt(s, r);
      JoinSplit(v);
      var hs := Holes(Split(v));
      Progress.Str(seq(|hs|, j requires 0 <= j < |hs| => Progress.Part(Tokens(lex, hs[j]))))
  }

  /** The token of a literal has a part for every hole there is in the one way to cut its value: the tokens of the
      text in that hole. */
  lemma {:induction false} PartsExact(lex: Lexical, s: Bytes, i: nat, ss: seq<Segment>)
    requires i < |lex(s)| && (lex(s)[i].Quoted? || lex(s)[i].Verbatim?)
    requires WellCut(ss) && Join(ss) == ValueAt(s, lex(s)[i])
    ensures
      var t := Tokens(lex, s)[i];
      && t.Str? && |t.parts| == |ss| / 2
      && forall j :: 0 <= j < |t.parts| ==>
           ss[2 * j + 1].Hole? && t.parts[j] == Progress.Part(Tokens(lex, ss[2 * j + 1].inner))
  {
    hide WellCut, Join, ValueAt, Split;
    SplitExact(ValueAt(s, lex(s)[i]), ss);
    HolesAt(ss);
  }

  lemma {:induction false} HolesAt(ss: seq<Segment>)
    requires WellCut(ss)
    ensures |Holes(ss)| == |ss| / 2
    ensures forall j :: 0 <= j < |Holes(ss)| ==> ss[2 * j + 1].Hole? && Holes(ss)[j] == ss[2 * j + 1].inner
    decreases |ss|
  {
    hide PlainText, Balanced, Holes, Join;
    if |ss| < 2 {
      HolesFew(ss);
    } else {
      HolesAt(ss[2..]);
      HolesTwo(ss);
      var hs := Holes(ss[2..]);
      forall j | 0 <= j < |Holes(ss)|
        ensures ss[2 * j + 1].Hole? && Holes(ss)[j] == ss[2 * j + 1].inner
      {
        if j > 0 { assert ss[2..][2 * (j - 1) + 1] == ss[2 * j + 1] && Holes(ss)[j] == hs[j - 1]; }
      }
    }
  }

  lemma {:induction false} HolesFew(ss: seq<Segment>)
    requires |ss| < 2 && (ss != [] ==> ss[0].Text?)
    ensures Holes(ss) == []
  {
    hide Join;
  }

  lemma {:induction false} HolesTwo(ss: seq<Segment>)
    requires |ss| >= 2 && ss[0].Text? && ss[1].Hole?
    ensures Holes(ss) == [ss[1].inner] + Holes(ss[2..])
  {
    hide Join;
    assert ss[1..][1..] == ss[2..];
    assert Holes(ss) == Holes(ss[1..]);
  }

  /** For every text and every lexer: parsing ends, with all tokens read. */
  method Parse(lex: Lexical, text: Bytes) returns (p: Progress.Parser)
    ensures p.toks == Tokens(lex, text) && p.pos == |p.toks|
  {
    p := new Progress.Parser(Tokens(lex, text));
    p.Program();
  }
}
