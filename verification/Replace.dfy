/** The runtime's text replacement: one scan counts the matches and sizes the buffer, a second one fills it. */
module Replace {
  import opened Fir

  /** `f` occurs in `s` at `i`. */
  predicate At(s: string, f: string, i: nat) {
    i + |f| <= |s| && s[i..i + |f|] == f
  }

  /** The first occurrence at or after `p`. */
  function Find(s: string, f: string, p: nat): (r: Option<nat>)
    requires p <= |s|
    ensures r.Some? ==> p <= r.value && At(s, f, r.value)
    ensures forall j :: p <= j && (r.Some? ==> j < r.value) ==> !At(s, f, j)
    decreases |s| - p
  {
    if At(s, f, p) then Some(p) else if p == |s| then None else Find(s, f, p + 1)
  }

  /** Where the scan from `p` finds its matches: the search goes on behind each one. */
  function Cuts(s: string, f: string, p: nat): seq<nat>
    requires p <= |s| && f != ""
    decreases |s| - p
  {
    var k := Find(s, f, p);
    if k.None? then [] else [k.value] + Cuts(s, f, k.value + |f|)
  }

  function Replaced(s: string, f: string, t: string, p: nat): string
    requires p <= |s| && f != ""
    decreases |s| - p
  {
    var k := Find(s, f, p);
    if k.None? then s[p..] else s[p..k.value] + t + Replaced(s, f, t, k.value + |f|)
  }

  // ----- what the scan finds -----

  /** Occurrences from `p` on that do not overlap. */
  predicate Disjoint(s: string, f: string, p: nat, cs: seq<nat>)
    decreases |cs|
  {
    cs == [] || (p <= cs[0] && At(s, f, cs[0]) && Disjoint(s, f, cs[0] + |f|, cs[1..]))
  }

  /** Nothing is left between, before or behind them. */
  ghost predicate Leftmost(s: string, f: string, p: nat, cs: seq<nat>)
    decreases |cs|
  {
    if cs == [] then forall j :: p <= j ==> !At(s, f, j)
    else (forall j :: p <= j < cs[0] ==> !At(s, f, j)) && Leftmost(s, f, cs[0] + |f|, cs[1..])
  }

  /** The scan's matches are the only ones of that kind. */
  lemma {:induction false} CutsExact(s: string, f: string, p: nat, cs: seq<nat>)
    requires p <= |s| && f != ""
    ensures cs == Cuts(s, f, p) <==> Disjoint(s, f, p, cs) && Leftmost(s, f, p, cs)
  {
    hide *;
    CutsMatch(s, f, p);
    if Disjoint(s, f, p, cs) && Leftmost(s, f, p, cs) { CutsUnique(s, f, p, cs); }
  }

  lemma {:induction false} CutsMatch(s: string, f: string, p: nat)
    requires p <= |s| && f != ""
    ensures Disjoint(s, f, p, Cuts(s, f, p)) && Leftmost(s, f, p, Cuts(s, f, p))
    decreases |s| - p
  {
    hide At, Find;
    var k, cs := Find(s, f, p), Cuts(s, f, p);
    if k.Some? {
      var q := k.value + |f|;
      InText(s, f, k.value);
      CutsMatch(s, f, q);
      assert cs[1..] == Cuts(s, f, q);
    }
  }

  lemma {:induction false} InText(s: string, f: string, k: nat)
    requires At(s, f, k)
    ensures k + |f| <= |s|
  {
  }

  lemma {:induction false} CutsUnique(s: string, f: string, p: nat, cs: seq<nat>)
    requires p <= |s| && f != "" && Disjoint(s, f, p, cs) && Leftmost(s, f, p, cs)
    ensures cs == Cuts(s, f, p)
    decreases |cs|
  {
    hide At, Find;
    var k := Find(s, f, p);
    if cs != [] {
      assert k == Some(cs[0]);
      InText(s, f, cs[0]);
      CutsUnique(s, f, cs[0] + |f|, cs[1..]);
    }
  }

  /** No choice of matches that do not overlap has more of them. */
  lemma {:induction false} CutsAreMost(s: string, f: string, p: nat, q: nat, cs: seq<nat>)
    requires p <= q && p <= |s| && f != "" && Disjoint(s, f, q, cs)
    ensures |cs| <= |Cuts(s, f, p)|
    decreases |cs|
  {
    if cs != [] {
      assert At(s, f, cs[0]);
      var k := Find(s, f, p).value;
      assert k <= cs[0];
      CutsAreMost(s, f, k + |f|, cs[0] + |f|, cs[1..]);
    }
  }

  // ----- what the text becomes -----

  /** The text from `p` on with `lf` characters at each cut exchanged for `t`. */
  function Splice(s: string, lf: nat, t: string, p: nat, cs: seq<nat>): string
    requires p <= |s|
    decreases |cs|
  {
    if cs == [] || !(p <= cs[0] && cs[0] + lf <= |s|) then s[p..]
    else s[p..cs[0]] + t + Splice(s, lf, t, cs[0] + lf, cs[1..])
  }

  lemma {:induction false} ReplacedIsSplice(s: string, f: string, t: string, p: nat)
    requires p <= |s| && f != ""
    ensures Replaced(s, f, t, p) == Splice(s, |f|, t, p, Cuts(s, f, p))
    decreases |s| - p
  {
    var k := Find(s, f, p);
    if k.Some? { ReplacedIsSplice(s, f, t, k.value + |f|); }
  }

  lemma {:induction false} ReplacedLength(s: string, f: string, t: string, p: nat)
    requires p <= |s| && f != ""
    ensures |Replaced(s, f, t, p)| == |s| - p + |Cuts(s, f, p)| * (|t| - |f|)
    decreases |s| - p
  {
    hide At, Find;
    var k := Find(s, f, p);
    if k.Some? {
      InText(s, f, k.value);
      ReplacedLength(s, f, t, k.value + |f|);
      OneMore(|Cuts(s, f, k.value + |f|)|, |t| - |f|);
    }
  }

  lemma {:induction false} OneMore(n: nat, d: int)
    ensures (n + 1) * d == n * d + d
  {
  }

  lemma {:induction false} SameWord(s: string, f: string, p: nat)
    requires p <= |s| && f != ""
    ensures Replaced(s, f, f, p) == s[p..]
    decreases |s| - p
  {
    var k := Find(s, f, p);
    if k.Some? {
      assert At(s, f, k.value);
      SameWord(s, f, k.value + |f|);
      assert s[p..] == s[p..k.value] + f + s[k.value + |f|..];
    }
  }

  /** The text stays as it is only if there is nothing to replace or nothing to replace it with. */
  lemma {:induction false} UnchangedExact(s: string, f: string, t: string)
    requires f != ""
    ensures Replaced(s, f, t, 0) == s <==> f == t || forall i :: 0 <= i ==> !At(s, f, i)
  {
    var k := Find(s, f, 0);
    if f == t {
      SameWord(s, f, 0);
    } else if k.Some? {
      assert At(s, f, k.value);
      var i, r := k.value, Replaced(s, f, t, 0);
      if |t| == |f| {
        assert r[i..i + |f|] == t;
      } else {
        ReplacedLength(s, f, t, 0);
        NonZero(|Cuts(s, f, 0)|, |t| - |f|);
      }
    }
  }

  lemma {:induction false} NonZero(n: nat, d: int)
    requires n > 0 && d != 0
    ensures n * d != 0
  {
  }

  // ----- the replacement as it runs -----

  /** What the first scan comes to, and the size it asks for, computed in 64 bits. */
  function Wanted(ls: nat, lf: nat, lt: nat, count: nat): nat {
    ls + count * (if lt > lf then lt - lf else 0) * 100 + 1
  }

  function Capacity(ls: nat, lf: nat, lt: nat, count: nat): nat {
    Wanted(ls, lf, lt, count) % 0x1_0000_0000_0000_0000
  }

  const INT_MAX := 0x7FFF_FFFF

  /** No C object is as large. */
  const HALF := 0x8000_0000_0000_0000

  /** The matches can be counted in an int, and there can be a buffer of the size asked for. */
  predicate Sized(s: string, f: string, t: string)
    requires f != ""
  {
    |Cuts(s, f, 0)| <= INT_MAX && Wanted(|s|, |f|, |t|, |Cuts(s, f, 0)|) < HALF
  }

  lemma {:induction false} Growth(n: nat, d: int)
    ensures n * d <= n * (if d > 0 then d else 0) * 100
  {
    if d > 0 { assert n * d >= 0; }
  }

  lemma {:induction false} Fits(s: string, f: string, t: string)
    requires f != "" && Sized(s, f, t)
    ensures |Replaced(s, f, t, 0)| < Capacity(|s|, |f|, |t|, |Cuts(s, f, 0)|)
  {
    hide Replaced, Cuts;
    ReplacedLength(s, f, t, 0);
    Growth(|Cuts(s, f, 0)|, |t| - |f|);
  }

  /** A block of characters written at `w`. */
  method Copy(buf: array<char>, w: nat, src: string)
    requires w + |src| <= buf.Length
    modifies buf
    ensures buf[..w + |src|] == old(buf[..w]) + src
  {
    for i := 0 to |src|
      invariant buf[..w + i] == old(buf[..w]) + src[..i]
    {
      buf[w + i] := src[i];
    }
  }

  /** What a C string in the buffer reads as. */
  ghost predicate Holds(buf: array<char>, s: string)
    reads buf
  {
    |s| < buf.Length && buf[..|s|] == s && buf[|s|] == '\0'
  }

  method Duplicate(s: string) returns (buf: array<char>)
    ensures fresh(buf) && Holds(buf, s)
  {
    buf := new char[|s| + 1];
    Copy(buf, 0, s + "\0");
  }

  method Count(s: string, f: string) returns (n: nat)
    requires f != ""
    ensures n == |Cuts(s, f, 0)|
  {
    hide At, Find;
    n := 0;
    var k := Find(s, f, 0);
    ghost var p: nat := 0;
    while k.Some?
      invariant p <= |s| && k == Find(s, f, p) && n + |Cuts(s, f, p)| == |Cuts(s, f, 0)|
      decreases |s| - p
    {
      InText(s, f, k.value);
      n, p := n + 1, k.value + |f|;
      k := Find(s, f, k.value + |f|);
    }
  }

  /** What replacing comes to, missing arguments included. */
  function Result(s: Option<string>, f: Option<string>, t: Option<string>): string {
    if s.None? then ""
    else if f.None? || t.None? || f.value == "" then s.value
    else Replaced(s.value, f.value, t.value, 0)
  }

  method Replace(s: Option<string>, f: Option<string>, t: Option<string>) returns (buf: array<char>)
    requires s.Some? && f.Some? && t.Some? && f.value != "" ==> Sized(s.value, f.value, t.value)
    ensures fresh(buf) && Holds(buf, Result(s, f, t))
  {
    if s.None? || f.None? || t.None? {
      buf := Duplicate(if s.Some? then s.value else "");
    } else if f.value == "" {
      buf := Duplicate(s.value);
    } else {
      var count := Count(s.value, f.value);
      Fits(s.value, f.value, t.value);
      buf := new char[Capacity(|s.value|, |f.value|, |t.value|, count)];
      Fill(buf, s.value, f.value, t.value);
    }
  }

  /** The text in front of a match, then the replacement. */
  method Emit(buf: array<char>, w: nat, before: string, t: string) returns (v: nat)
    requires w + |before| + |t| <= buf.Length
    modifies buf
    ensures v == w + |before| + |t| && buf[..v] == old(buf[..w]) + before + t
  {
    Copy(buf, w, before);
    v := w + |before|;
    Copy(buf, v, t);
    v := v + |t|;
  }

  method Fill(buf: array<char>, s: string, f: string, t: string)
    requires f != "" && |Replaced(s, f, t, 0)| < buf.Length
    modifies buf
    ensures Holds(buf, Replaced(s, f, t, 0))
  {
    hide At, Find, Replaced;
    ghost var want := Replaced(s, f, t, 0);
    var w: nat, p: nat := 0, 0;
    var k := Find(s, f, 0);
    while k.Some?
      invariant p <= |s| && k == Find(s, f, p)
      invariant w <= buf.Length && want == buf[..w] + Replaced(s, f, t, p)
      decreases |s| - p
    {
      Turn(s, f, t, p, buf[..w]);
      w := Emit(buf, w, s[p..k.value], t);
      p := k.value + |f|;
      k := Find(s, f, p);
    }
    Last(s, f, t, p);
    Copy(buf, w, s[p..] + "\0");
  }

  lemma {:induction false} Last(s: string, f: string, t: string, p: nat)
    requires p <= |s| && f != "" && Find(s, f, p).None?
    ensures Replaced(s, f, t, p) == s[p..]
  {
  }

  /** What one match adds to the text. */
  lemma {:induction false} Turn(s: string, f: string, t: string, p: nat, done: string)
    requires p <= |s| && f != "" && Find(s, f, p).Some?
    ensures
      var k := Find(s, f, p).value;
      && p <= k && k + |f| <= |s|
      && done + Replaced(s, f, t, p) == done + s[p..k] + t + Replaced(s, f, t, k + |f|)
  {
    var k := Find(s, f, p).value;
    assert At(s, f, k);
    var rest := Replaced(s, f, t, k + |f|);
    assert Replaced(s, f, t, p) == s[p..k] + t + rest;
    assert done + (s[p..k] + t + rest) == done + s[p..k] + t + rest;
  }
}
