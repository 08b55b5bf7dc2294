/** The checker's nested scopes, and the generator's flat table that holds the same. */
module Sema {
  import opened Words
  import opened Fir
  import opened Lower

  // ----- scopes -----

  datatype Sym = Sym(name: string, mut: bool)

  /** Outermost scope first, each with its oldest entry first. */
  type Scopes = seq<seq<Sym>>

  /** The newest entry for `x`. */
  function Newest(sc: seq<Sym>, x: string): (r: Option<nat>)
    ensures r.Some? ==> r.value < |sc| && sc[r.value].name == x
    ensures r.Some? ==> forall j :: r.value < j < |sc| ==> sc[j].name != x
    ensures r.None? ==> forall j :: 0 <= j < |sc| ==> sc[j].name != x
  {
    if sc == [] then None
    else if sc[|sc| - 1].name == x then Some(|sc| - 1)
    else Newest(sc[..|sc| - 1], x)
  }

  /** The innermost scope that has an entry decides. */
  function ScLookup(scs: Scopes, x: string): Option<Sym> {
    if scs == [] then None
    else
      var sc := scs[|scs| - 1];
      var k := Newest(sc, x);
      if k.Some? then Some(sc[k.value]) else ScLookup(scs[..|scs| - 1], x)
  }

  function ScPush(scs: Scopes): Scopes { scs + [[]] }

  function ScPop(scs: Scopes): Scopes { if scs == [] then scs else scs[..|scs| - 1] }

  function ScDef(scs: Scopes, s: Sym): Scopes {
    if scs == [] then scs else scs[|scs| - 1 := scs[|scs| - 1] + [s]]
  }

  /** All entries, oldest first. */
  function Flat(scs: Scopes): seq<Sym> {
    if scs == [] then [] else Flat(scs[..|scs| - 1]) + scs[|scs| - 1]
  }

  function InFlat(syms: seq<Sym>, x: string): Option<Sym> {
    var k := Newest(syms, x);
    if k.Some? then Some(syms[k.value]) else None
  }

  lemma NewestUnique(sc: seq<Sym>, x: string, k: nat)
    requires k < |sc| && sc[k].name == x && forall j :: k < j < |sc| ==> sc[j].name != x
    ensures Newest(sc, x) == Some(k)
  {
    var r := Newest(sc, x);
    assert r.Some?;
    assert !(r.value < k) && !(k < r.value);
  }

  lemma InFlatAppend(a: seq<Sym>, b: seq<Sym>, x: string)
    ensures InFlat(a + b, x) == if Newest(b, x).Some? then InFlat(b, x) else InFlat(a, x)
  {
    var k, m := Newest(b, x), Newest(a, x);
    if k.Some? {
      NewestUnique(a + b, x, |a| + k.value);
    } else if m.Some? {
      NewestUnique(a + b, x, m.value);
    } else {
      assert Newest(a + b, x).None?;
    }
  }

  /** Walking the scopes outwards finds the newest entry of all. */
  lemma {:induction false} LookupIsFlat(scs: Scopes, x: string)
    ensures ScLookup(scs, x) == InFlat(Flat(scs), x)
    decreases |scs|
  {
    if scs != [] {
      LookupIsFlat(scs[..|scs| - 1], x);
      InFlatAppend(Flat(scs[..|scs| - 1]), scs[|scs| - 1], x);
    }
  }

  lemma FlatSteps(scs: Scopes, s: Sym)
    ensures Flat(ScPush(scs)) == Flat(scs)
    ensures scs != [] ==> Flat(ScDef(scs, s)) == Flat(scs) + [s]
    ensures ScPop(ScPush(scs)) == scs
  {
    assert ScPush(scs)[..|scs|] == scs;
    if scs != [] {
      var n := |scs| - 1;
      assert ScDef(scs, s)[..n] == scs[..n];
      assert Flat(scs[..n]) + scs[n] + [s] == Flat(scs[..n]) + (scs[n] + [s]);
    }
  }

  // ----- the generator's flat table does the same -----

  /** Inside a function: the table holds what the scopes hold from the function's own scope on, but for
      `self`, and its marks are where those scopes begin. The `hidden` oldest entries are those of the
      scopes outside and `self`. */
  ghost predicate Tracks(scs: Scopes, hidden: nat, g: Gen) {
    var outer := |scs| - |g.bases|;
    && 0 <= outer < |scs|
    && |Flat(scs)| == hidden + |g.vars|
    && (forall i :: 0 <= i < |g.vars| ==> g.vars[i].name == Flat(scs)[hidden + i].name)
    && g.bases[0] == 0 && |Flat(scs[..outer])| <= hidden
    && forall k :: 0 < k < |g.bases| ==> |Flat(scs[..outer + k])| == hidden + g.bases[k]
  }

  lemma {:induction false} FlatPrefix(scs: Scopes, k: nat)
    requires k <= |scs|
    ensures |Flat(scs[..k])| <= |Flat(scs)| && Flat(scs)[..|Flat(scs[..k])|] == Flat(scs[..k])
    decreases |scs|
  {
    if k == |scs| {
      assert scs[..k] == scs;
    } else {
      var n := |scs| - 1;
      FlatPrefix(scs[..n], k);
      assert scs[..n][..k] == scs[..k];
      assert Flat(scs)[..|Flat(scs[..n])|] == Flat(scs[..n]);
      assert Flat(scs)[..|Flat(scs[..k])|] == Flat(scs)[..|Flat(scs[..n])|][..|Flat(scs[..k])|];
    }
  }

  /** Only the table and the marks matter. */
  lemma {:induction false} SameTable(scs: Scopes, hidden: nat, g: Gen, r: Gen)
    requires Tracks(scs, hidden, g) && r.vars == g.vars && r.bases == g.bases
    ensures Tracks(scs, hidden, r)
  {
  }

  /** A scope is entered. */
  lemma {:induction false} EnterTracks(scs: Scopes, hidden: nat, g: Gen)
    requires Tracks(scs, hidden, g)
    ensures Tracks(ScPush(scs), hidden, ScopePush(g))
  {
    var scs', g', outer := ScPush(scs), ScopePush(g), |scs| - |g.bases|;
    FlatSteps(scs, Sym("", false));
    assert scs'[..outer] == scs[..outer];
    forall k | 0 < k < |g'.bases|
      ensures |Flat(scs'[..outer + k])| == hidden + g'.bases[k]
    {
      assert scs'[..outer + k] == scs[..outer + k];
      if k == |g.bases| { assert scs[..outer + k] == scs; }
    }
  }

  /** A variable is declared. */
  lemma {:induction false} DefineTracks(scs: Scopes, hidden: nat, g: Gen, s: Sym, e: VarEntry)
    requires Tracks(scs, hidden, g) && |g.vars| < MAX_VARS && e.name == s.name
    ensures Tracks(ScDef(scs, s), hidden, g.(vars := Enter(g.vars, e)))
  {
    var scs', outer := ScDef(scs, s), |scs| - |g.bases|;
    FlatSteps(scs, s);
    assert scs'[..outer] == scs[..outer];
    forall k | 0 < k < |g.bases|
      ensures |Flat(scs'[..outer + k])| == hidden + g.bases[k]
    {
      assert scs'[..outer + k] == scs[..outer + k];
    }
  }

  /** A name means the same to both: the same declaration, or one that is no variable of the function. */
  ghost predicate SameDecl(scs: Scopes, hidden: nat, vars: seq<VarEntry>, x: string) {
    var all, k := Flat(scs), VarLookup(vars, x);
    |all| == hidden + |vars| &&
    ScLookup(scs, x) == if k.Some? then Some(all[hidden + k.value]) else InFlat(all[..hidden], x)
  }

  lemma {:induction false} LookupsAgree(scs: Scopes, hidden: nat, g: Gen, x: string)
    requires Tracks(scs, hidden, g)
    ensures SameDecl(scs, hidden, g.vars, x)
  {
    var all := Flat(scs);
    var outer, inner := all[..hidden], all[hidden..];
    LookupIsFlat(scs, x);
    assert all == outer + inner;
    InFlatAppend(outer, inner, x);
    InTable(inner, g.vars, x);
  }

  /** Lists with the same names have the newest entry for a name at the same place. */
  lemma {:induction false} InTable(syms: seq<Sym>, vars: seq<VarEntry>, x: string)
    requires |syms| == |vars| && forall i :: 0 <= i < |vars| ==> vars[i].name == syms[i].name
    ensures Newest(syms, x) == VarLookup(vars, x)
  {
    var k := VarLookup(vars, x);
    if k.Some? { NewestUnique(syms, x, k.value); }
  }
}
