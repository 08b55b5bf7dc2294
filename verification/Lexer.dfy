/** String literals: the escapes, the encoding of code points, and the scan from quote to quote. Source
    text is a sequence of byte values. */
module Lexer {
  import opened Words
  import opened Bits
  import opened Fir
  import HashMap

  type Bytes = seq<nat>

  const BUFFER_MAX := 65530
  const QUOTE: nat := 34
  const BACKSLASH: nat := 92

  /** The character at `p`, or a zero past the end. */
  function Peek(s: Bytes, p: nat): nat {
    if p < |s| then s[p] else 0
  }

  // ----- code points -----

  predicate IsScalar(cp: nat) {
    cp < 0xD800 || 0xE000 <= cp < 0x11_0000
  }

  /** A lead or continuation byte: tag bits or-ed with payload bits, cut to a byte. */
  function Tagged(tag: nat, payload: nat): nat {
    BitOp(BitOr, tag, payload) % 256
  }

  function SixBits(n: nat): (r: nat) {
    BitOp(BitAnd, n, 63) % 64
  }

  function Encode(cp: nat): Bytes {
    if cp < 0x80 then [cp]
    else if cp < 0x800 then [Tagged(0xC0, cp / 0x40), Tagged(0x80, SixBits(cp))]
    else if cp < 0x1_0000 then [Tagged(0xE0, cp / 0x1000), Tagged(0x80, SixBits(cp / 0x40)), Tagged(0x80, SixBits(cp))]
    else [Tagged(0xF0, cp / 0x4_0000), Tagged(0x80, SixBits(cp / 0x1000)), Tagged(0x80, SixBits(cp / 0x40)),
        Tagged(0x80, SixBits(cp))]
  }

  predicate Cont(b: nat) { 0x80 <= b <= 0xBF }

  /** The code point of a well-formed sequence, by the table in section 4 of RFC 3629. */
  function Decode(s: Bytes): Option<nat> {
    if |s| == 1 then (if s[0] < 0x80 then Some(s[0]) else None)
    else if |s| == 2 then
      if 0xC2 <= s[0] <= 0xDF && Cont(s[1]) then Some((s[0] - 0xC0) * 0x40 + s[1] - 0x80) else None
    else if |s| == 3 then
      if 0xE0 <= s[0] <= 0xEF && Cont(s[1]) && Cont(s[2]) && (s[0] == 0xE0 ==> s[1] >= 0xA0)
          && (s[0] == 0xED ==> s[1] <= 0x9F)
      then Some((s[0] - 0xE0) * 0x1000 + (s[1] - 0x80) * 0x40 + s[2] - 0x80) else None
    else if |s| == 4 then
      if 0xF0 <= s[0] <= 0xF4 && Cont(s[1]) && Cont(s[2]) && Cont(s[3]) && (s[0] == 0xF0 ==> s[1] >= 0x90)
          && (s[0] == 0xF4 ==> s[1] <= 0x8F)
      then Some((s[0] - 0xF0) * 0x4_0000 + (s[1] - 0x80) * 0x1000 + (s[2] - 0x80) * 0x40 + s[3] - 0x80) else None
    else None
  }

  /** Or-ing bits that do not overlap adds them. */
  lemma {:induction false} OrIsSum(a: nat, b: nat, k: nat)
    requires b < Pow2(k)
    ensures BitOp(BitOr, a * Pow2(k), b) == a * Pow2(k) + b
    decreases k
  {
    if k == 0 {
      BitUnits(a);
    } else {
      var p := Pow2(k - 1);
      Doubled(a, p);
      BitStep(BitOr, 2 * (a * p), b);
      OrIsSum(a, b / 2, k - 1);
    }
  }

  lemma Powers()
    ensures Pow2(3) == 8 && Pow2(4) == 16 && Pow2(5) == 32 && Pow2(6) == 64
  {
    Pow2Add(3, 3);
    Pow2Add(2, 2);
    assert Pow2(2) == 4 && Pow2(3) == 8;
  }

  lemma TagSum(a: nat, k: nat, n: nat)
    requires n < Pow2(k) && a * Pow2(k) + n < 256
    ensures Tagged(a * Pow2(k), n) == a * Pow2(k) + n
  {
    hide BitOp, Pow2;
    OrIsSum(a, n, k);
  }

  lemma TaggedIsSum(n: nat)
    ensures n < 0x20 ==> Tagged(0xC0, n) == 0xC0 + n
    ensures n < 0x10 ==> Tagged(0xE0, n) == 0xE0 + n
    ensures n < 8 ==> Tagged(0xF0, n) == 0xF0 + n
    ensures n < 64 ==> Tagged(0x80, n) == 0x80 + n
  {
    hide Tagged, Pow2;
    Powers();
    if n < 0x20 { TagSum(6, 5, n); }
    if n < 0x10 { TagSum(14, 4, n); }
    if n < 8 { TagSum(30, 3, n); }
    if n < 64 { TagSum(2, 6, n); }
  }

  lemma SixBitsIsMod(n: nat)
    ensures SixBits(n) == n % 64
  {
    Powers();
    HashMap.MaskIsMod(n, 6);
  }

  /** A continuation byte carries six bits. */
  lemma ContByte(n: nat)
    ensures Tagged(0x80, SixBits(n)) == 0x80 + n % 64
  {
    hide Tagged, SixBits;
    SixBitsIsMod(n);
    TaggedIsSum(n % 64);
  }

  lemma TwoBytes(cp: nat)
    requires 0x80 <= cp < 0x800
    ensures Encode(cp) == [0xC0 + cp / 0x40, 0x80 + cp % 64]
  {
    hide Tagged, SixBits;
    TaggedIsSum(cp / 0x40);
    ContByte(cp);
  }

  lemma ThreeBytes(cp: nat)
    requires 0x800 <= cp < 0x1_0000
    ensures Encode(cp) == [0xE0 + cp / 0x1000, 0x80 + cp / 0x40 % 64, 0x80 + cp % 64]
  {
    hide Tagged, SixBits;
    TaggedIsSum(cp / 0x1000);
    ContByte(cp / 0x40);
    ContByte(cp);
  }

  lemma FourBytes(cp: nat)
    requires 0x1_0000 <= cp < 0x20_0000
    ensures Encode(cp) == [0xF0 + cp / 0x4_0000, 0x80 + cp / 0x1000 % 64, 0x80 + cp / 0x40 % 64, 0x80 + cp % 64]
  {
    hide Tagged, SixBits;
    TaggedIsSum(cp / 0x4_0000);
    ContByte(cp / 0x1000);
    ContByte(cp / 0x40);
    ContByte(cp);
  }

  /** The encoding of a code point reads back as that code point if and only if it is a scalar value. */
  lemma {:induction false} EncodeDecode(cp: nat)
    ensures Decode(Encode(cp)) == Some(cp) <==> IsScalar(cp)
  {
    hide Encode;
    if cp < 0x80 {
      OneByte(cp);
    } else if cp < 0x800 {
      TwoBytes(cp);
    } else if cp < 0x1_0000 {
      ThreeBytes(cp);
      ThreeParts(cp);
    } else if cp < 0x11_0000 {
      FourBytes(cp);
      FourParts(cp);
    } else {
      DecodeSmall(Encode(cp));
    }
  }

  lemma OneByte(cp: nat)
    requires cp < 0x80
    ensures Encode(cp) == [cp]
  {
  }

  lemma ThreeParts(cp: nat)
    requires 0x800 <= cp < 0x1_0000
    ensures
      var a, b, c := cp / 0x1000, cp / 0x40 % 64, cp % 64;
      && cp == a * 0x1000 + b * 0x40 + c && a < 16 && (a == 0 ==> b >= 0x20)
      && (IsScalar(cp) <==> (a == 13 ==> b < 0x20))
  {
  }

  lemma FourParts(cp: nat)
    requires 0x1_0000 <= cp < 0x11_0000
    ensures
      var a, b, c, d := cp / 0x4_0000, cp / 0x1000 % 64, cp / 0x40 % 64, cp % 64;
      && cp == a * 0x4_0000 + b * 0x1000 + c * 0x40 + d && a <= 4 && (a == 0 ==> b >= 0x10) && (a == 4 ==> b < 0x10)
  {
  }

  lemma DecodeSmall(s: Bytes)
    ensures Decode(s).Some? ==> Decode(s).value < 0x11_0000
  {
  }

  // ----- escapes -----

  predicate IsHex(c: nat) { 48 <= c <= 57 || 97 <= c <= 102 || 65 <= c <= 70 }

  function HexVal(c: nat): (v: nat)
    ensures v < 16
  {
    if 48 <= c <= 57 then c - 48 else if 97 <= c <= 102 then c - 87 else if 65 <= c <= 70 then c - 55 else 0
  }

  /** What an escape puts into the buffer, and where scanning goes on. */
  datatype Piece = Piece(out: Bytes, pos: nat)

  const WORD := 0x1_0000_0000

  /** Hex digits as far as they go, in 32 bits. */
  function ReadHex(s: Bytes, p: nat, cp: nat): (r: (nat, nat))
    requires p <= |s|
    ensures p <= r.1 <= |s|
    decreases |s| - p
  {
    if p < |s| && IsHex(s[p]) then ReadHex(s, p + 1, (cp * 16 + HexVal(s[p])) % WORD) else (cp, p)
  }

  /** A fixed number of characters, whatever they are. */
  function ReadFixed(s: Bytes, p: nat, cp: nat, k: nat): (r: (nat, nat))
    requires p <= |s|
    ensures p <= r.1 <= |s|
    decreases k
  {
    if k > 0 && p < |s| then ReadFixed(s, p + 1, (cp * 16 + HexVal(s[p])) % WORD, k - 1) else (cp, p)
  }

  /** Behind the backslash. */
  function LexEscape(s: Bytes, p: nat): (r: Piece)
    requires p <= |s|
    ensures p <= r.pos <= |s| && (p < |s| ==> p < r.pos)
  {
    if p == |s| then Piece([], p)
    else
      var e, q := s[p], p + 1;
      if e == 110 then Piece([10], q)
      else if e == 116 then Piece([9], q)
      else if e == 114 then Piece([13], q)
      else if e == 97 then Piece([7], q)
      else if e == 98 then Piece([8], q)
      else if e == 102 then Piece([12], q)
      else if e == 118 then Piece([11], q)
      else if e == BACKSLASH then Piece([BACKSLASH], q)
      else if e == QUOTE then Piece([QUOTE], q)
      else if e == 39 then Piece([39], q)
      else if e == 48 then Piece([0], q)
      else if e == 120 then
        var a := IsHex(Peek(s, q));
        var q1 := if a then q + 1 else q;
        var b := IsHex(Peek(s, q1));
        var v := (if a then HexVal(Peek(s, q)) else 0) * 16 + (if b then HexVal(Peek(s, q1)) else 0);
        Piece([v], if b then q1 + 1 else q1)
      else if e == 117 then
        if Peek(s, q) == 123 then
          var r := ReadHex(s, q + 1, 0);
          Piece(Encode(r.0), if Peek(s, r.1) == 125 then r.1 + 1 else r.1)
        else
          var r := ReadFixed(s, q, 0, 4);
          Piece(Encode(r.0), r.1)
      else if e == 85 then
        var r := ReadFixed(s, q, 0, 8);
        Piece(Encode(r.0), r.1)
      else if e == 10 then Piece([], q)
      else Piece([BACKSLASH, e], q)
  }

  // ----- literals -----

  /** As much of the escape as the buffer takes. */
  function Fill(buf: Bytes, out: Bytes): Bytes {
    var room := if |buf| < BUFFER_MAX then BUFFER_MAX - |buf| else 0;
    buf + (if |out| <= room then out else out[..room])
  }

  predicate Closes(s: Bytes, p: nat, triple: bool) {
    Peek(s, p) == QUOTE && (triple ==> Peek(s, p + 1) == QUOTE && Peek(s, p + 2) == QUOTE)
  }

  /** The scan behind the opening quotes. */
  function LexBody(s: Bytes, p: nat, triple: bool, buf: Bytes): (r: Piece)
    requires p <= |s|
    ensures p <= r.pos <= |s|
    decreases |s| - p
  {
    if p == |s| || Closes(s, p, triple) then Piece(buf, p)
    else if s[p] == BACKSLASH then
      var e := LexEscape(s, p + 1);
      var b := Fill(buf, e.out);
      if |b| >= BUFFER_MAX then Piece(b, e.pos) else LexBody(s, e.pos, triple, b)
    else
      var b := buf + [s[p]];
      if |b| >= BUFFER_MAX then Piece(b, p + 1) else LexBody(s, p + 1, triple, b)
  }

  predicate IsTriple(s: Bytes, p: nat) {
    Peek(s, p) == QUOTE && Peek(s, p + 1) == QUOTE
  }

  /** The literal that starts with the quote at `p`: its bytes, and where it ends. A triple literal is
      taken to end in three quotes if it ends in one. */
  function LexString(s: Bytes, p: nat): (r: Piece)
    requires p < |s|
  {
    var triple := IsTriple(s, p + 1);
    var b := LexBody(s, if triple then p + 3 else p + 1, triple, []);
    Piece(b.out, if Peek(s, b.pos) == QUOTE then b.pos + (if triple then 3 else 1) else b.pos)
  }

  // ----- a literal is longer than what it says -----

  lemma {:induction false} FewDigits(s: Bytes, p: nat, k: nat)
    requires p <= |s|
    ensures
      var r := ReadFixed(s, p, 0, k);
      r.1 <= p + 1 ==> r.0 < 16
  {
    if k > 0 && p < |s| {
      FixedMoves(s, p + 1, HexVal(s[p]), k - 1);
    }
  }

  lemma {:induction false} FixedMoves(s: Bytes, p: nat, cp: nat, k: nat)
    requires p <= |s| && cp < WORD
    ensures
      var r := ReadFixed(s, p, cp, k);
      p <= r.1 && (r.1 == p ==> r.0 == cp)
  {
  }

  lemma {:induction false} EncodeLength(cp: nat)
    ensures 1 <= |Encode(cp)| <= 4 && (cp < 16 ==> |Encode(cp)| == 1)
  {
  }

  /** No escape says more bytes than it takes, backslash included. */
  lemma {:induction false} EscapeShorter(s: Bytes, p: nat)
    requires p < |s|
    ensures
      var r := LexEscape(s, p);
      |r.out| <= r.pos - p + 1
  {
    hide Encode;
    FewDigits(s, p + 1, 4);
    FewDigits(s, p + 1, 8);
    EncodeLength(ReadFixed(s, p + 1, 0, 4).0);
    EncodeLength(ReadFixed(s, p + 1, 0, 8).0);
    if p + 2 <= |s| { EncodeLength(ReadHex(s, p + 2, 0).0); }
  }

  lemma {:induction false} BodyShorter(s: Bytes, p: nat, triple: bool, buf: Bytes)
    requires p <= |s| && |buf| < BUFFER_MAX
    ensures
      var r := LexBody(s, p, triple, buf);
      |r.out| <= |buf| + (r.pos - p)
    decreases |s| - p
  {
    hide LexEscape;
    if p < |s| && !Closes(s, p, triple) {
      if s[p] == BACKSLASH {
        var e := LexEscape(s, p + 1);
        if p + 1 < |s| { EscapeShorter(s, p + 1); } else { EscapeAtEnd(s); }
        var b := Fill(buf, e.out);
        if |b| < BUFFER_MAX { BodyShorter(s, e.pos, triple, b); }
      } else if |buf| + 1 < BUFFER_MAX {
        BodyShorter(s, p + 1, triple, buf + [s[p]]);
      }
    }
  }

  lemma {:induction false} EscapeAtEnd(s: Bytes)
    ensures LexEscape(s, |s|) == Piece([], |s|)
  {
  }

  /** The bytes of a literal are fewer than the text it was read from: expressions embedded in it, and the
      literals inside those, get strictly shorter. */
  lemma {:induction false} ValueShorter(s: Bytes, p: nat)
    requires p < |s|
    ensures
      var r := LexString(s, p);
      |r.out| < r.pos - p && |r.out| < |s| - p
  {
    hide LexBody;
    var triple := IsTriple(s, p + 1);
    BodyShorter(s, if triple then p + 3 else p + 1, triple, []);
  }

  // ----- writing a literal -----

  /** Only the quote and the backslash need an escape. */
  function Escaped(bs: Bytes): Bytes {
    if bs == [] then []
    else if bs[0] == QUOTE || bs[0] == BACKSLASH then [BACKSLASH, bs[0]] + Escaped(bs[1..])
    else [bs[0]] + Escaped(bs[1..])
  }

  predicate Here(s: Bytes, p: nat, t: Bytes) {
    p + |t| <= |s| && s[p..p + |t|] == t
  }

  lemma HereParts(s: Bytes, p: nat, a: Bytes, b: Bytes)
    requires Here(s, p, a + b)
    ensures Here(s, p, a) && Here(s, p + |a|, b)
  {
    var t := s[p..p + |a + b|];
    assert s[p..p + |a|] == t[..|a|] == a;
    assert s[p + |a|..p + |a| + |b|] == t[|a|..] == b;
  }

  lemma HereAt(s: Bytes, p: nat, t: Bytes, i: nat)
    requires Here(s, p, t) && i < |t|
    ensures p + i < |s| && s[p + i] == t[i]
  {
    assert s[p..p + |t|][i] == t[i];
  }

  /** The scan reads back what was escaped, up to the closing quote. */
  lemma {:induction false} ReadEscaped(s: Bytes, p: nat, bs: Bytes, buf: Bytes)
    requires Here(s, p, Escaped(bs) + [QUOTE]) && |buf| < BUFFER_MAX && |buf| + |bs| <= BUFFER_MAX
    ensures LexBody(s, p, false, buf) == Piece(buf + bs, p + |Escaped(bs)|)
    decreases |bs|
  {
    hide *;
    EscapedDef(bs);
    HereParts(s, p, Escaped(bs), [QUOTE]);
    HereAt(s, p + |Escaped(bs)|, [QUOTE], 0);
    if bs == [] {
      BodyEnds(s, p, buf);
    } else {
      var rest := Escaped(bs[1..]) + [QUOTE];
      var c: Bytes := if bs[0] == QUOTE || bs[0] == BACKSLASH then [BACKSLASH, bs[0]] else [bs[0]];
      HereParts(s, p, c, rest);
      BodyStep(s, p, bs[0], buf);
      assert buf + [bs[0]] + bs[1..] == buf + bs;
      if |buf| + 1 < BUFFER_MAX {
        ReadEscaped(s, p + |c|, bs[1..], buf + [bs[0]]);
      } else {
        assert bs[1..] == [];
        EscapedDef([]);
      }
    }
  }

  lemma EscapedDef(bs: Bytes)
    ensures bs == [] ==> Escaped(bs) == []
    ensures
      bs != [] ==>
        var c: Bytes := if bs[0] == QUOTE || bs[0] == BACKSLASH then [BACKSLASH, bs[0]] else [bs[0]];
        Escaped(bs) == c + Escaped(bs[1..]) && Escaped(bs) + [QUOTE] == c + (Escaped(bs[1..]) + [QUOTE])
  {
    if bs != [] {
      var c: Bytes := if bs[0] == QUOTE || bs[0] == BACKSLASH then [BACKSLASH, bs[0]] else [bs[0]];
      assert c + Escaped(bs[1..]) + [QUOTE] == c + (Escaped(bs[1..]) + [QUOTE]);
    }
  }

  lemma BodyEnds(s: Bytes, p: nat, buf: Bytes)
    requires p < |s| && s[p] == QUOTE
    ensures LexBody(s, p, false, buf) == Piece(buf + [], p)
  {
    assert buf + [] == buf;
  }

  /** One written byte is one byte read, and the last one that the buffer takes ends the scan. */
  lemma BodyStep(s: Bytes, p: nat, b: nat, buf: Bytes)
    requires |buf| < BUFFER_MAX
    requires Here(s, p, if b == QUOTE || b == BACKSLASH then [BACKSLASH, b] else [b])
    ensures
      var q := p + if b == QUOTE || b == BACKSLASH then 2 else 1;
      q <= |s| &&
      LexBody(s, p, false, buf)
      == if |buf| + 1 < BUFFER_MAX then LexBody(s, q, false, buf + [b]) else Piece(buf + [b], q)
  {
    hide Encode, ReadHex, ReadFixed, Here;
    var c := if b == QUOTE || b == BACKSLASH then [BACKSLASH, b] else [b];
    HereAt(s, p, c, 0);
    if |c| == 2 {
      HereAt(s, p, c, 1);
      assert LexEscape(s, p + 1) == Piece([b], p + 2);
    }
  }

  /** The buffer bounds what is read. */
  lemma {:induction false} BodyBounded(s: Bytes, p: nat, triple: bool, buf: Bytes)
    requires p <= |s| && |buf| < BUFFER_MAX
    ensures |LexBody(s, p, triple, buf).out| <= BUFFER_MAX
    decreases |s| - p
  {
    hide LexEscape;
    if p < |s| && !Closes(s, p, triple) {
      if s[p] == BACKSLASH {
        var e := LexEscape(s, p + 1);
        var b := Fill(buf, e.out);
        if |b| < BUFFER_MAX { BodyBounded(s, e.pos, triple, b); }
      } else if |buf| + 1 < BUFFER_MAX {
        BodyBounded(s, p + 1, triple, buf + [s[p]]);
      }
    }
  }

  /** A byte string written as a literal reads back as itself, up to just behind the closing quote, if and
      only if it fits the buffer and is not the empty one in front of a quote, which opens a triple
      literal. */
  lemma {:induction false} LiteralRoundTrip(bs: Bytes, rest: Bytes)
    ensures
      LexString([QUOTE] + Escaped(bs) + [QUOTE] + rest, 0) == Piece(bs, |Escaped(bs)| + 2)
      <==> |bs| <= BUFFER_MAX && !(bs == [] && rest != [] && rest[0] == QUOTE)
  {
    hide LexBody;
    var s := [QUOTE] + Escaped(bs) + [QUOTE] + rest;
    var t := Escaped(bs) + [QUOTE];
    assert s[1..1 + |t|] == t;
    assert s[1 + |Escaped(bs)|] == QUOTE;
    if |bs| > BUFFER_MAX {
      BodyBounded(s, if IsTriple(s, 1) then 3 else 1, IsTriple(s, 1), []);
    } else if bs == [] && rest != [] && rest[0] == QUOTE {
      assert s == [QUOTE, QUOTE] + rest;
    } else {
      ReadEscaped(s, 1, bs, []);
      assert [] + bs == bs;
      assert !IsTriple(s, 1) by {
        if bs != [] { assert s[1] == Escaped(bs)[0]; }
      }
    }
  }

  /** The exception is real: the empty literal before a quote opens a triple literal. */
  lemma {:induction false} EmptyBeforeQuote()
    ensures LexString([QUOTE, QUOTE, QUOTE, 65], 0) == Piece([65], 4)
  {
    var s := [QUOTE, QUOTE, QUOTE, 65];
    assert [] + [65] == [65];
    assert LexBody(s, 4, true, [65]) == Piece([65], 4);
    assert LexBody(s, 3, true, []) == Piece([65], 4);
  }

  // ----- writing a code point -----

  function HexDigit(d: nat): (c: nat)
    requires d < 16
    ensures IsHex(c) && HexVal(c) == d
  {
    if d < 10 then 48 + d else 87 + d
  }

  function HexText(n: nat): (t: Bytes)
    ensures |t| > 0
  {
    if n < 16 then [HexDigit(n)] else HexText(n / 16) + [HexDigit(n % 16)]
  }

  lemma {:induction false} ReadHexText(s: Bytes, p: nat, n: nat)
    requires Here(s, p, HexText(n)) && n < WORD
    ensures ReadHex(s, p, 0) == ReadHex(s, p + |HexText(n)|, n)
    decreases n
  {
    hide *;
    HexTextDef(n);
    if n < 16 {
      HereAt(s, p, HexText(n), 0);
      ReadDigit(s, p, 0, n);
    } else {
      var a, d := HexText(n / 16), HexDigit(n % 16);
      HereParts(s, p, a, [d]);
      HereAt(s, p + |a|, [d], 0);
      ReadHexText(s, p, n / 16);
      ReadDigit(s, p + |a|, n / 16, n % 16);
    }
  }

  lemma HexTextDef(n: nat)
    ensures n < 16 ==> HexText(n) == [HexDigit(n)]
    ensures n >= 16 ==> HexText(n) == HexText(n / 16) + [HexDigit(n % 16)]
  {
    hide HexDigit;
  }

  lemma ReadDigit(s: Bytes, p: nat, cp: nat, d: nat)
    requires p < |s| && d < 16 && s[p] == HexDigit(d) && cp * 16 + d < WORD
    ensures ReadHex(s, p, cp) == ReadHex(s, p + 1, cp * 16 + d)
  {
    hide HexDigit, HexVal, IsHex;
  }

  /** Every scalar value written between braces puts its well-formed encoding into the literal. */
  lemma {:induction false} BracedEscape(s: Bytes, p: nat, cp: nat)
    requires IsScalar(cp) && Here(s, p, [117, 123] + (HexText(cp) + [125]))
    ensures
      var r := LexEscape(s, p);
      r == Piece(Encode(cp), p + 3 + |HexText(cp)|) && Decode(r.out) == Some(cp)
  {
    hide Here, Encode, Decode;
    HereParts(s, p, [117, 123], HexText(cp) + [125]);
    HereParts(s, p + 2, HexText(cp), [125]);
    HereAt(s, p, [117, 123], 0);
    HereAt(s, p, [117, 123], 1);
    HereAt(s, p + 2 + |HexText(cp)|, [125], 0);
    ReadHexText(s, p + 2, cp);
    EncodeDecode(cp);
  }

  // ----- the scanner as it runs -----

  /** A position in the text. The buffer it fills never overflows. */
  class Scanner {
    const src: Bytes
    var pos: nat

    ghost predicate Valid()
      reads this
    {
      pos <= |src|
    }

    constructor (src: Bytes, pos: nat)
      requires pos <= |src|
      ensures Valid() && this.src == src && this.pos == pos
    {
      this.src := src;
      this.pos := pos;
    }

    method HexDigits() returns (cp: nat)
      requires Valid()
      modifies this
      ensures Valid() && (cp, pos) == ReadHex(src, old(pos), 0)
    {
      cp := 0;
      while pos < |src| && IsHex(src[pos])
        invariant Valid() && ReadHex(src, old(pos), 0) == ReadHex(src, pos, cp)
        decreases |src| - pos
      {
        cp := (cp * 16 + HexVal(src[pos])) % WORD;
        pos := pos + 1;
      }
    }

    method FixedDigits(k: nat) returns (cp: nat)
      requires Valid()
      modifies this
      ensures Valid() && (cp, pos) == ReadFixed(src, old(pos), 0, k)
    {
      cp := 0;
      var i := 0;
      while i < k && pos < |src|
        invariant 0 <= i <= k && Valid() && ReadFixed(src, old(pos), 0, k) == ReadFixed(src, pos, cp, k - i)
      {
        cp := (cp * 16 + HexVal(src[pos])) % WORD;
        pos, i := pos + 1, i + 1;
      }
    }

    method OneHex() returns (v: nat)
      requires Valid()
      modifies this
      ensures Valid() && v == (if IsHex(Peek(src, old(pos))) then HexVal(Peek(src, old(pos))) else 0)
      ensures pos == if IsHex(Peek(src, old(pos))) then old(pos) + 1 else old(pos)
    {
      v := 0;
      if IsHex(Peek(src, pos)) {
        v := HexVal(src[pos]);
        pos := pos + 1;
      }
    }

    method Escape() returns (out: Bytes)
      requires Valid()
      modifies this
      ensures Valid() && Piece(out, pos) == LexEscape(src, old(pos))
    {
      hide Encode, ReadHex, ReadFixed, HexVal, IsHex;
      out := [];
      if pos < |src| {
        var e := src[pos];
        pos := pos + 1;
        if e == 120 {
          var a := OneHex();
          var b := OneHex();
          out := [a * 16 + b];
        } else if e == 117 && Peek(src, pos) == 123 {
          pos := pos + 1;
          var cp := HexDigits();
          if Peek(src, pos) == 125 { pos := pos + 1; }
          out := Encode(cp);
        } else if e == 117 || e == 85 {
          var cp := FixedDigits(if e == 117 then 4 else 8);
          out := Encode(cp);
        } else {
          out := Simple(e);
        }
      }
    }

    /** The escapes of one letter. */
    function Simple(e: nat): Bytes {
      match e
      case 110 => [10]
      case 116 => [9]
      case 114 => [13]
      case 97 => [7]
      case 98 => [8]
      case 102 => [12]
      case 118 => [11]
      case 92 => [92]
      case 34 => [34]
      case 39 => [39]
      case 48 => [0]
      case 10 => []
      case _ => [BACKSLASH, e]
    }

    /** From behind the opening quotes into the buffer. */
    method Body(triple: bool, buf: array<nat>) returns (i: nat)
      requires Valid() && buf.Length == 65536
      modifies this, buf
      ensures Valid() && i <= BUFFER_MAX && Piece(buf[..i], pos) == LexBody(src, old(pos), triple, [])
    {
      hide LexEscape;
      i := 0;
      ghost var all := LexBody(src, pos, triple, []);
      assert buf[..0] == [];
      while pos < |src| && !Closes(src, pos, triple) && i < BUFFER_MAX
        invariant Valid() && i <= BUFFER_MAX
        invariant all == if i < BUFFER_MAX then LexBody(src, pos, triple, buf[..i]) else Piece(buf[..i], pos)
        decreases |src| - pos
      {
        ghost var was, p := buf[..i], pos;
        var c := src[pos];
        pos := pos + 1;
        if c == BACKSLASH {
          var esc := Escape();
          i := Put(buf, i, esc);
        } else {
          buf[i] := c;
          i := i + 1;
          assert buf[..i] == was + [c];
        }
        BodyTurn(src, p, triple, was);
      }
    }

    /** As much of the escape as there is room for. */
    method Put(buf: array<nat>, i: nat, esc: Bytes) returns (n: nat)
      requires buf.Length == 65536 && i <= BUFFER_MAX
      modifies buf
      ensures n <= BUFFER_MAX && buf[..n] == Fill(old(buf[..i]), esc)
    {
      n := i;
      var k := 0;
      while k < |esc| && n < BUFFER_MAX
        invariant 0 <= k <= |esc| && n == i + k <= BUFFER_MAX && buf[..n] == old(buf[..i]) + esc[..k]
      {
        buf[n] := esc[k];
        assert buf[..n + 1] == buf[..n] + [esc[k]] && esc[..k + 1] == esc[..k] + [esc[k]];
        n, k := n + 1, k + 1;
      }
      assert k == |esc| ==> esc[..k] == esc;
    }

    method StringLiteral() returns (out: Bytes)
      requires Valid() && pos < |src|
      modifies this
      ensures
        var r := LexString(src, old(pos));
        out == r.out && (r.pos <= |src| ==> pos == r.pos)
      ensures Valid()
    {
      hide LexBody;
      pos := pos + 1;
      var triple := IsTriple(src, pos);
      if triple { pos := pos + 2; }
      var buf := new nat[65536];
      var i := Body(triple, buf);
      out := buf[..i];
      if Peek(src, pos) == QUOTE {
        var n := if triple then 3 else 1;
        pos := if pos + n <= |src| then pos + n else |src|;
      }
    }
  }

  /** One turn of the scan. */
  lemma BodyTurn(s: Bytes, p: nat, triple: bool, buf: Bytes)
    requires p < |s| && !Closes(s, p, triple)
    ensures
      var e := LexEscape(s, p + 1);
      var b := if s[p] == BACKSLASH then Fill(buf, e.out) else buf + [s[p]];
      var q := if s[p] == BACKSLASH then e.pos else p + 1;
      LexBody(s, p, triple, buf) == if |b| < BUFFER_MAX then LexBody(s, q, triple, b) else Piece(b, q)
  {
    hide LexEscape, Fill;
  }
}
