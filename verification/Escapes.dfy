/** Literals written with any of the escapes, and what they read as. */
module Escapes {
  import opened Words
  import opened Fir
  import opened Lexer

  // ----- digits -----

  const LOWER := "0123456789abcdef"
  const UPPER := "0123456789ABCDEF"

  datatype Digit = Digit(d: nat, upper: bool)

  predicate AllDigits(ds: seq<Digit>) { forall i :: 0 <= i < |ds| ==> ds[i].d < 16 }

  function DigitText(ds: seq<Digit>): (t: Bytes)
    requires AllDigits(ds)
    ensures |t| == |ds|
  {
    seq(|ds|, i requires 0 <= i < |ds| => (if ds[i].upper then UPPER[ds[i].d] else LOWER[ds[i].d]) as nat)
  }

  /** The number that the digits write in base sixteen. */
  function Number(ds: seq<Digit>): nat {
    if ds == [] then 0 else 16 * Number(ds[..|ds| - 1]) + ds[|ds| - 1].d
  }

  // ----- what may be written in a literal -----

  /** The escapes of one character, and the character each stands for. */
  const LETTERS: seq<(char, char)> := [
    ('n', '\n'), ('t', '\t'), ('r', '\r'), ('0', '\0'), ('\\', '\\'), ('\"', '\"'), ('\'', '\''),
    ('a', '\U{0007}'), ('b', '\U{0008}'), ('f', '\U{000C}'), ('v', '\U{000B}')
  ]

  /** A byte as it is; a letter behind a backslash; a byte in two digits; a code point in four digits, in eight or in
      any number of digits between braces; a character that no escape has. */
  datatype Item =
    | Byte(b: nat)
    | Letter(k: nat)
    | Pair(ds: seq<Digit>)
    | Four(ds: seq<Digit>)
    | Eight(ds: seq<Digit>)
    | Braced(ds: seq<Digit>)
    | Other(e: nat)

  predicate IsLetter(e: nat) { exists k :: 0 <= k < |LETTERS| && LETTERS[k].0 as nat == e }

  /** A quote must be escaped, but not between triple quotes. */
  predicate Fine(i: Item, triple: bool) {
    match i
    case Byte(b) => b != BACKSLASH && (b == QUOTE ==> triple)
    case Letter(k) => k < |LETTERS|
    case Pair(ds) => |ds| == 2 && AllDigits(ds)
    case Four(ds) => |ds| == 4 && AllDigits(ds) && IsScalar(Number(ds))
    case Eight(ds) => |ds| == 8 && AllDigits(ds) && IsScalar(Number(ds))
    case Braced(ds) => AllDigits(ds) && IsScalar(Number(ds))
    case Other(e) => !IsLetter(e) && e != 'x' as nat && e != 'u' as nat && e != 'U' as nat && e != '\n' as nat
  }

  /** Behind the backslash. */
  function Body(i: Item): (t: Bytes)
    requires Fine(i, true) && !i.Byte?
    ensures |t| > 0
  {
    match i
    case Letter(k) => [LETTERS[k].0 as nat]
    case Pair(ds) => ['x' as nat] + DigitText(ds)
    case Four(ds) => ['u' as nat] + DigitText(ds)
    case Eight(ds) => ['U' as nat] + DigitText(ds)
    case Braced(ds) => ['u' as nat, '{' as nat] + (DigitText(ds) + ['}' as nat])
    case Other(e) => [e]
  }

  function Write(i: Item): (t: Bytes)
    requires Fine(i, true)
    ensures |t| > 0 && (Fine(i, false) ==> t[0] != QUOTE)
  {
    if i.Byte? then [i.b] else [BACKSLASH] + Body(i)
  }

  /** The bytes that are meant. */
  function Says(i: Item): (out: Bytes)
    requires Fine(i, true)
    ensures |out| > 0
  {
    match i
    case Byte(b) => [b]
    case Letter(k) => [LETTERS[k].1 as nat]
    case Pair(ds) => [16 * ds[0].d + ds[1].d]
    case Four(ds) => Encode(Number(ds))
    case Eight(ds) => Encode(Number(ds))
    case Braced(ds) => Encode(Number(ds))
    case Other(e) => [BACKSLASH, e]
  }

  predicate AllFine(items: seq<Item>, triple: bool) { forall i :: 0 <= i < |items| ==> Fine(items[i], triple) }

  function WriteAll(items: seq<Item>): Bytes
    requires AllFine(items, true)
  {
    if items == [] then [] else Write(items[0]) + WriteAll(items[1..])
  }

  function SaysAll(items: seq<Item>): Bytes
    requires AllFine(items, true)
  {
    if items == [] then [] else Says(items[0]) + SaysAll(items[1..])
  }

  // ----- each escape -----

  lemma {:induction false} DigitReads(d: nat, upper: bool)
    requires d < 16
    ensures
      var c := (if upper then UPPER[d] else LOWER[d]) as nat;
      IsHex(c) && HexVal(c) == d
  {
    assert d == 0 || d == 1 || d == 2 || d == 3 || d == 4 || d == 5 || d == 6 || d == 7 || d == 8 || d == 9 || d == 10
        || d == 11 || d == 12 || d == 13 || d == 14 || d == 15;
  }

  lemma {:induction false} TextAt(s: Bytes, p: nat, ds: seq<Digit>, i: nat)
    requires AllDigits(ds) && Here(s, p, DigitText(ds)) && i < |ds|
    ensures p + i < |s| && IsHex(s[p + i]) && HexVal(s[p + i]) == ds[i].d
  {
    hide Here, HexVal, IsHex;
    HereAt(s, p, DigitText(ds), i);
    DigitReads(ds[i].d, ds[i].upper);
  }

  /** The digits from `i` on, when those before it have been read. */
  lemma {:induction false} FixedReads(s: Bytes, p: nat, ds: seq<Digit>, i: nat)
    requires AllDigits(ds) && Here(s, p, DigitText(ds)) && i <= |ds| && Number(ds) < WORD
    ensures p + i <= |s| && ReadFixed(s, p + i, Number(ds[..i]), |ds| - i) == (Number(ds), p + |ds|)
    decreases |ds| - i
  {
    hide HexVal, DigitText, Number;
    if i == |ds| {
      assert ds[..i] == ds;
    } else {
      TextAt(s, p, ds, i);
      NumberGrows(ds, i + 1);
      NumberNext(ds, i);
      FixedReads(s, p, ds, i + 1);
    }
  }

  lemma {:induction false} HexReads(s: Bytes, p: nat, ds: seq<Digit>, i: nat)
    requires AllDigits(ds) && Here(s, p, DigitText(ds)) && i <= |ds| && Number(ds) < WORD
    requires p + |ds| < |s| && s[p + |ds|] == '}' as nat
    ensures ReadHex(s, p + i, Number(ds[..i])) == (Number(ds), p + |ds|)
    decreases |ds| - i
  {
    hide HexVal, DigitText, IsHex, Here, Number;
    if i == |ds| {
      assert ds[..i] == ds;
      NoDigit();
    } else {
      TextAt(s, p, ds, i);
      NumberGrows(ds, i + 1);
      NumberNext(ds, i);
      HexReads(s, p, ds, i + 1);
    }
  }

  lemma {:induction false} NumberNext(ds: seq<Digit>, i: nat)
    requires i < |ds|
    ensures Number(ds[..i + 1]) == 16 * Number(ds[..i]) + ds[i].d
  {
    assert ds[..i + 1][..i] == ds[..i];
  }

  lemma {:induction false} NoDigit()
    ensures !IsHex('}' as nat)
  {
  }

  lemma {:induction false} NumberGrows(ds: seq<Digit>, i: nat)
    requires i <= |ds|
    ensures Number(ds[..i]) <= Number(ds)
    decreases |ds|
  {
    if i == |ds| {
      assert ds[..i] == ds;
    } else {
      NumberGrows(ds[..|ds| - 1], i);
      assert ds[..|ds| - 1][..i] == ds[..i];
    }
  }

  /** Every escape but the byte as it is: read from behind the backslash it gives what it says. */
  lemma {:induction false} EscapeReads(s: Bytes, p: nat, i: Item)
    requires Fine(i, true) && !i.Byte? && Here(s, p, Body(i))
    ensures p < |s| && LexEscape(s, p) == Piece(Says(i), p + |Body(i)|)
  {
    hide Here, Encode, ReadHex, ReadFixed, HexVal, IsHex, DigitText, Number, IsScalar;
    HereAt(s, p, Body(i), 0);
    match i
    case Letter(k) => LetterReads(s, p, k);
    case Pair(ds) => PairReads(s, p, ds);
    case Four(ds) =>
      HereParts(s, p, ['u' as nat], DigitText(ds));
      CodeReads(s, p, ds);
      HereBelow(s, p + 1, ds);
    case Eight(ds) =>
      HereParts(s, p, ['U' as nat], DigitText(ds));
      CodeReads(s, p, ds);
    case Braced(ds) => BracedReads(s, p, ds);
    case Other(e) => OtherReads(s, p, e);
  }

  lemma {:induction false} LetterReads(s: Bytes, p: nat, k: nat)
    requires k < |LETTERS| && p < |s| && s[p] == LETTERS[k].0 as nat
    ensures LexEscape(s, p) == Piece([LETTERS[k].1 as nat], p + 1)
  {
    hide Encode, ReadHex, ReadFixed, HexVal, IsHex;
    assert k == 0 || k == 1 || k == 2 || k == 3 || k == 4 || k == 5 || k == 6 || k == 7 || k == 8 || k == 9 || k == 10;
  }

  lemma {:induction false} PairReads(s: Bytes, p: nat, ds: seq<Digit>)
    requires |ds| == 2 && AllDigits(ds) && Here(s, p, ['x' as nat] + DigitText(ds))
    ensures LexEscape(s, p) == Piece([16 * ds[0].d + ds[1].d], p + 3)
  {
    hide Here, Encode, ReadHex, ReadFixed, HexVal, IsHex, DigitText;
    HereParts(s, p, ['x' as nat], DigitText(ds));
    HereAt(s, p, ['x' as nat], 0);
    TextAt(s, p + 1, ds, 0);
    TextAt(s, p + 1, ds, 1);
  }

  lemma {:induction false} CodeReads(s: Bytes, p: nat, ds: seq<Digit>)
    requires AllDigits(ds) && Here(s, p + 1, DigitText(ds)) && IsScalar(Number(ds)) && p + 1 <= |s|
    ensures ReadFixed(s, p + 1, 0, |ds|) == (Number(ds), p + 1 + |ds|)
  {
    hide Here, DigitText;
    FixedReads(s, p + 1, ds, 0);
    assert ds[..0] == [];
  }

  /** A digit is no brace. */
  lemma {:induction false} HereBelow(s: Bytes, p: nat, ds: seq<Digit>)
    requires AllDigits(ds) && |ds| > 0 && Here(s, p, DigitText(ds))
    ensures Peek(s, p) != '{' as nat
  {
    hide Here, DigitText;
    TextAt(s, p, ds, 0);
  }

  lemma {:induction false} BracedReads(s: Bytes, p: nat, ds: seq<Digit>)
    requires AllDigits(ds) && IsScalar(Number(ds)) && Here(s, p, Body(Braced(ds)))
    ensures p < |s| && LexEscape(s, p) == Piece(Encode(Number(ds)), p + |ds| + 3)
  {
    hide Here, Encode, HexVal, IsHex, DigitText, ReadHex, ReadFixed;
    var a, t, c := ['u' as nat, '{' as nat], DigitText(ds), ['}' as nat];
    HereParts(s, p, a, t + c);
    HereParts(s, p + 2, t, c);
    HereAt(s, p, a, 0);
    HereAt(s, p, a, 1);
    HereAt(s, p + 2 + |ds|, c, 0);
    HexReads(s, p + 2, ds, 0);
    assert ds[..0] == [];
  }

  lemma {:induction false} OtherReads(s: Bytes, p: nat, e: nat)
    requires Fine(Other(e), true) && p < |s| && s[p] == e
    ensures LexEscape(s, p) == Piece([BACKSLASH, e], p + 1)
  {
    hide Encode, ReadHex, ReadFixed, HexVal, IsHex;
    assert forall k :: 0 <= k < |LETTERS| ==> LETTERS[k].0 as nat != e;
    assert LETTERS[0].0 == 'n' && LETTERS[1].0 == 't' && LETTERS[2].0 == 'r' && LETTERS[3].0 == '0'
        && LETTERS[4].0 == '\\' && LETTERS[5].0 == '\"' && LETTERS[6].0 == '\'' && LETTERS[7].0 == 'a'
        && LETTERS[8].0 == 'b' && LETTERS[9].0 == 'f' && LETTERS[10].0 == 'v';
  }

  // ----- whole literals -----

  lemma {:induction false} AllDef(items: seq<Item>)
    requires AllFine(items, true) && items != []
    ensures Fine(items[0], true) && AllFine(items[1..], true)
    ensures WriteAll(items) == Write(items[0]) + WriteAll(items[1..])
    ensures |WriteAll(items)| == |Write(items[0])| + |WriteAll(items[1..])|
    ensures SaysAll(items) == Says(items[0]) + SaysAll(items[1..])
  {
    hide Write, Says;
  }

  lemma {:induction false} NoneDef()
    ensures WriteAll([]) == [] && SaysAll([]) == []
  {
  }

  /** One item more is read. */
  lemma {:induction false} ItemTurn(s: Bytes, p: nat, triple: bool, i: Item, buf: Bytes)
    requires Fine(i, true) && Here(s, p, Write(i)) && |buf| + |Says(i)| <= BUFFER_MAX && !Closes(s, p, triple)
    ensures
      var b, q := buf + Says(i), p + |Write(i)|;
      q <= |s| && LexBody(s, p, triple, buf) == if |b| < BUFFER_MAX then LexBody(s, q, triple, b) else Piece(b, q)
  {
    hide Here, LexEscape, Body, Says, Closes;
    HereAt(s, p, Write(i), 0);
    if i.Byte? {
      ByteSays(i);
    } else {
      HereParts(s, p, [BACKSLASH], Body(i));
      EscapeReads(s, p + 1, i);
      Inside(s, p + 1, Body(i));
    }
    BodyTurn(s, p, triple, buf);
  }

  lemma {:induction false} ByteSays(i: Item)
    requires i.Byte? && Fine(i, true)
    ensures Says(i) == [i.b]
  {
  }

  lemma {:induction false} Inside(s: Bytes, p: nat, t: Bytes)
    requires Here(s, p, t)
    ensures p + |t| <= |s|
  {
  }

  /** The literal does not close before its end. */
  predicate OpenUntil(s: Bytes, p: nat, q: nat, triple: bool) { forall k :: p <= k < q ==> !Closes(s, k, triple) }

  lemma {:induction false} ItemsRead(s: Bytes, p: nat, triple: bool, items: seq<Item>, buf: Bytes)
    requires AllFine(items, true) && Here(s, p, WriteAll(items))
    requires OpenUntil(s, p, p + |WriteAll(items)|, triple) && Closes(s, p + |WriteAll(items)|, triple)
    requires |buf| < BUFFER_MAX && |buf| + |SaysAll(items)| <= BUFFER_MAX
    ensures LexBody(s, p, triple, buf) == Piece(buf + SaysAll(items), p + |WriteAll(items)|)
    decreases |items|
  {
    hide *;
    Inside(s, p, WriteAll(items));
    if items == [] {
      NoneDef();
      BodyCloses(s, p, triple, buf);
    } else {
      AllDef(items);
      var i, rest := items[0], items[1..];
      HereParts(s, p, Write(i), WriteAll(rest));
      StillOpen(s, p, |Write(i)|, |WriteAll(rest)|, triple);
      ItemTurn(s, p, triple, i, buf);
      var b := buf + Says(i);
      assert b + SaysAll(rest) == buf + SaysAll(items);
      if |b| < BUFFER_MAX {
        ItemsRead(s, p + |Write(i)|, triple, rest, b);
      } else if rest != [] {
        AllDef(rest);
        assert false;
      } else {
        NoneDef();
        assert b + [] == b;
      }
    }
  }

  lemma {:induction false} StillOpen(s: Bytes, p: nat, m: nat, n: nat, triple: bool)
    requires OpenUntil(s, p, p + (m + n), triple) && m > 0
    ensures !Closes(s, p, triple) && OpenUntil(s, p + m, p + m + n, triple)
  {
    hide Closes;
  }

  lemma {:induction false} BodyCloses(s: Bytes, p: nat, triple: bool, buf: Bytes)
    requires p <= |s| && Closes(s, p, triple)
    ensures LexBody(s, p, triple, buf) == Piece(buf + [], p)
  {
    assert buf + [] == buf;
  }

  /** Outside triple quotes no item contains the quote but behind a backslash, where the scan does not look. */
  lemma {:induction false} SingleRead(s: Bytes, p: nat, items: seq<Item>, buf: Bytes)
    requires AllFine(items, false) && Here(s, p, WriteAll(items) + [QUOTE])
    requires |buf| < BUFFER_MAX && |buf| + |SaysAll(items)| <= BUFFER_MAX
    ensures LexBody(s, p, false, buf) == Piece(buf + SaysAll(items), p + |WriteAll(items)|)
    decreases |items|
  {
    hide *;
    FineToo(items);
    HereParts(s, p, WriteAll(items), [QUOTE]);
    HereAt(s, p + |WriteAll(items)|, [QUOTE], 0);
    if items == [] {
      NoneDef();
      BodyEnds(s, p, buf);
    } else {
      AllDef(items);
      var i, rest := items[0], items[1..];
      assert WriteAll(items) + [QUOTE] == Write(i) + (WriteAll(rest) + [QUOTE]);
      HereParts(s, p, Write(i), WriteAll(rest) + [QUOTE]);
      HereAt(s, p, Write(i), 0);
      NoClose(s, p);
      ItemTurn(s, p, false, i, buf);
      var b := buf + Says(i);
      assert b + SaysAll(rest) == buf + SaysAll(items);
      if |b| < BUFFER_MAX {
        SingleRead(s, p + |Write(i)|, rest, b);
      } else if rest != [] {
        AllDef(rest);
        assert false;
      } else {
        NoneDef();
        assert b + [] == b;
      }
    }
  }

  lemma {:induction false} NoClose(s: Bytes, p: nat)
    requires p < |s| && s[p] != QUOTE
    ensures !Closes(s, p, false)
  {
  }

  lemma {:induction false} FineToo(items: seq<Item>)
    requires AllFine(items, false)
    ensures AllFine(items, true)
    ensures items != [] ==> Fine(items[0], false) && AllFine(items[1..], false)
  {
  }

  /** For every list of items, in whatever text the literal stands: written between quotes they read as what they say,
      up to just behind the closing quote, if that fits the buffer and the literal is not the empty one in front of a
      quote. */
  lemma {:induction false} LiteralReads(before: Bytes, items: seq<Item>, rest: Bytes)
    requires AllFine(items, false) && |SaysAll(items)| <= BUFFER_MAX
    requires !(items == [] && rest != [] && rest[0] == QUOTE)
    ensures
      LexString(before + ([QUOTE] + WriteAll(items) + [QUOTE] + rest), |before|)
      == Piece(SaysAll(items), |before| + |WriteAll(items)| + 2)
  {
    hide LexBody, Write, Says;
    var t := WriteAll(items) + [QUOTE];
    var s, p := before + ([QUOTE] + WriteAll(items) + [QUOTE] + rest), |before| + 1;
    assert s[p..p + |t|] == t;
    assert s[p + |WriteAll(items)|] == QUOTE;
    SingleRead(s, p, items, []);
    assert [] + SaysAll(items) == SaysAll(items);
    assert !IsTriple(s, p) by {
      if items != [] {
        AllDef(items);
        assert s[p] == t[0] == Write(items[0])[0];
      } else if rest != [] {
        assert s[p + 1] == rest[0];
      }
    }
  }

  const TRIPLE: Bytes := [QUOTE, QUOTE, QUOTE]

  /** No three quotes in a row start before the end of `w`, three more being put there. */
  predicate Unbroken(w: Bytes) { forall k :: 0 <= k < |w| ==> !Closes(w + TRIPLE, k, true) }

  /** The same between triple quotes, where quotes may stand as they are as long as no three of them close the
      literal. */
  lemma {:induction false} TripleReads(before: Bytes, items: seq<Item>, rest: Bytes)
    requires AllFine(items, true) && |SaysAll(items)| <= BUFFER_MAX && Unbroken(WriteAll(items))
    ensures
      LexString(before + (TRIPLE + WriteAll(items) + TRIPLE + rest), |before|)
      == Piece(SaysAll(items), |before| + |WriteAll(items)| + 6)
  {
    hide LexBody, Write, Says, WriteAll, SaysAll, Unbroken;
    var w := WriteAll(items);
    var s, p := before + (TRIPLE + w + TRIPLE + rest), |before| + 3;
    assert s[|before|..p] == TRIPLE && s[p..p + |w|] == w && s[p + |w|..p + |w| + 3] == TRIPLE;
    assert s[p - 2] == s[|before|..p][1] && s[p - 1] == s[|before|..p][2];
    ThreeClose(s, p + |w|);
    StaysOpen(s, p, w);
    ItemsRead(s, p, true, items, []);
    assert [] + SaysAll(items) == SaysAll(items);
  }

  lemma {:induction false} ThreeClose(s: Bytes, p: nat)
    requires p + 3 <= |s|
    ensures s[p..p + 3] == TRIPLE <==> Closes(s, p, true)
  {
    var t := s[p..p + 3];
    assert t[0] == s[p] && t[1] == s[p + 1] && t[2] == s[p + 2];
  }

  lemma {:induction false} StaysOpen(s: Bytes, p: nat, w: Bytes)
    requires p + |w| + 3 <= |s| && s[p..p + |w|] == w && s[p + |w|..p + |w| + 3] == TRIPLE && Unbroken(w)
    ensures OpenUntil(s, p, p + |w|, true)
  {
    var t := w + TRIPLE;
    assert s[p..p + |w| + 3] == t;
    forall k | p <= k < p + |w|
      ensures !Closes(s, k, true)
    {
      assert s[k] == t[k - p] && s[k + 1] == t[k - p + 1] && s[k + 2] == t[k - p + 2];
      assert !Closes(t, k - p, true);
    }
  }

  /** The encodings that items say are those of their code points. */
  lemma {:induction false} SaysDecodes(i: Item)
    requires Fine(i, true) && (i.Four? || i.Eight? || i.Braced?)
    ensures Decode(Says(i)) == Some(Number(i.ds))
  {
    hide Encode, Decode;
    EncodeDecode(Number(i.ds));
  }

  /** Every code point can be written in digits of either case, in as many digits as it needs or more. */
  lemma {:induction false} Writable(cp: nat, k: nat, upper: bool) returns (ds: seq<Digit>)
    requires cp < Pow2(4 * k)
    ensures |ds| == k && AllDigits(ds) && Number(ds) == cp && forall i :: 0 <= i < k ==> ds[i].upper == upper
    decreases k
  {
    if k == 0 {
      ds := [];
    } else {
      Pow2Add(4 * (k - 1), 4);
      Powers();
      var d := Digit(cp % 16, upper);
      var high := Writable(cp / 16, k - 1, upper);
      ds := high + [d];
      assert ds[..k - 1] == high;
    }
  }

  /** A backslash before the end of a line says nothing. */
  lemma {:induction false} LineGoesOn(s: Bytes, p: nat, triple: bool, buf: Bytes)
    requires p + 1 < |s| && s[p] == BACKSLASH && s[p + 1] == '\n' as nat && |buf| < BUFFER_MAX
    ensures LexBody(s, p, triple, buf) == LexBody(s, p + 2, triple, buf)
  {
    assert Fill(buf, []) == buf;
  }

  /** One digit behind the `x` is the high one; none at all says zero. */
  lemma {:induction false} ShortPair(s: Bytes, p: nat, c: Digit)
    requires p < |s| && s[p] == 'x' as nat && c.d < 16
    ensures !IsHex(Peek(s, p + 1)) ==> LexEscape(s, p) == Piece([0], p + 1)
    ensures
      Here(s, p + 1, DigitText([c])) && !IsHex(Peek(s, p + 2)) ==> LexEscape(s, p) == Piece([16 * c.d], p + 2)
  {
    hide Encode, ReadHex, ReadFixed, HexVal, IsHex, Here, DigitText;
    assert !IsHex(0) by { NoHex(); }
    if Here(s, p + 1, DigitText([c])) { TextAt(s, p + 1, [c], 0); }
  }

  lemma {:induction false} NoHex()
    ensures !IsHex(0)
  {
  }
}
