/** The runtime's chained hash map: 64 buckets of linked entries that behave as one finite map. */
module HashMap {
  import opened Bits
  import opened Fir

  const BUCKETS := 64

  /** 32-bit FNV-1a over the key's bytes. */
  function Fnv(h: nat, key: string): nat
    decreases key
  {
    if key == [] then h
    else Fnv((BitOp(BitXor, h, key[0] as int % 256) * 16777619) % 0x1_0000_0000, key[1..])
  }

  /** The low six bits of the hash. */
  function Hash(key: string): (h: nat)
    ensures h < BUCKETS
  {
    Fnv(2166136261, key) % BUCKETS
  }

  /** Two of the hash function's published test vectors. */
  lemma {:induction false} FnvVectors()
    ensures Fnv(2166136261, "") == 0x811C9DC5 && Hash("") == 0x811C9DC5 % 64
    ensures Fnv(2166136261, "a") == 0xE40C292C && Hash("a") == 0xE40C292C % 64
  {
    hide BitOp, Fnv;
    XorByte();
    FnvNone(2166136261);
    FnvOne(2166136261, 'a');
    Product();
  }

  lemma {:induction false} FnvNone(h: nat)
    ensures Fnv(h, "") == h
  {
  }

  lemma {:induction false} FnvOne(h: nat, c: char)
    ensures Fnv(h, [c]) == (BitOp(BitXor, h, c as int % 256) * 16777619) % 0x1_0000_0000
  {
    hide BitOp;
  }

  lemma {:induction false} Product()
    ensures (0x811C9DA4 * 16777619) % 0x1_0000_0000 == 0xE40C292C
  {
  }

  lemma {:induction false} XorByte()
    ensures BitOp(BitXor, 0x811C9DC5, 0x61) == 0x811C9DA4
  {
    hide BitOp;
    var h: nat, b: nat := 0x811C9DC5, 0x61;
    BitStep(BitXor, h, b);
    BitStep(BitXor, h / 2, b / 2);
    BitStep(BitXor, h / 4, b / 4);
    BitStep(BitXor, h / 8, b / 8);
    BitStep(BitXor, h / 16, b / 16);
    BitStep(BitXor, h / 32, b / 32);
    BitStep(BitXor, h / 64, b / 64);
    BitUnits(h / 128);
  }

  /** Masking with one less than a power of two takes the low bits. */
  lemma {:induction false} MaskIsMod(h: nat, n: nat)
    ensures BitOp(BitAnd, h, Words.Pow2(n) - 1) == h % Words.Pow2(n)
    decreases n
  {
    BitStep(BitAnd, h, Words.Pow2(n) - 1);
    if n == 0 {
      ZeroMask(h);
    } else {
      MaskIsMod(h / 2, n - 1);
      var p := Words.Pow2(n - 1);
      assert (2 * p - 1) / 2 == p - 1;
      HalfMod(h, p);
    }
  }

  lemma HalfMod(h: nat, p: nat)
    requires p > 0
    ensures h % (2 * p) == 2 * ((h / 2) % p) + h % 2
  {
    var q, r := h / 2 / p, (h / 2) % p;
    assert h / 2 == p * q + r;
    var s := 2 * r + h % 2;
    assert h == (2 * p) * q + s;
    ModUnique(h, 2 * p, q, s);
  }

  lemma ModUnique(h: nat, m: nat, q: nat, s: nat)
    requires m > 0 && h == m * q + s && s < m
    ensures h % m == s
  {
    Words.ModCongruent(m, h, s, q);
  }

  lemma {:induction false} ZeroMask(a: nat)
    ensures BitOp(BitAnd, a, 0) == 0
    decreases a
  {
    BitStep(BitAnd, a, 0);
    if a > 0 { ZeroMask(a / 2); }
  }

  // ----- the map as values -----

  type Pair = (string, int)

  /** A bucket's pairs, the newest key first. */
  type Bucket = seq<Pair>

  type Table = seq<Bucket>

  function Pos(ps: Bucket, key: string): (r: Option<nat>)
    ensures r.Some? ==> r.value < |ps| && ps[r.value].0 == key
    ensures r.Some? ==> forall j :: 0 <= j < r.value ==> ps[j].0 != key
    ensures r.None? ==> forall j :: 0 <= j < |ps| ==> ps[j].0 != key
  {
    if ps == [] then None
    else if ps[0].0 == key then Some(0)
    else
      var r := Pos(ps[1..], key);
      assert forall j :: 0 < j < |ps| ==> ps[j] == ps[1..][j - 1];
      if r.Some? then Some(r.value + 1) else None
  }

  function LookupIn(ps: Bucket, key: string): Option<int> {
    var k := Pos(ps, key);
    if k.Some? then Some(ps[k.value].1) else None
  }

  function SetIn(ps: Bucket, key: string, v: int): Bucket {
    var k := Pos(ps, key);
    if k.Some? then ps[k.value := (key, v)] else [(key, v)] + ps
  }

  /** A list without its element at `i`. */
  function Without<T>(c: seq<T>, i: nat): (d: seq<T>)
    requires i < |c|
    ensures |d| == |c| - 1
    ensures forall j :: 0 <= j < |d| ==> d[j] == if j < i then c[j] else c[j + 1]
  {
    c[..i] + c[i + 1..]
  }

  function DeleteIn(ps: Bucket, key: string): Bucket {
    var k := Pos(ps, key);
    if k.Some? then Without(ps, k.value) else ps
  }

  predicate Distinct(ps: Bucket) {
    forall i, j :: 0 <= i < j < |ps| ==> ps[i].0 != ps[j].0
  }

  /** Every pair is in its key's bucket, and no key is there twice. */
  predicate TableOk(t: Table) {
    && |t| == BUCKETS
    && (forall h :: 0 <= h < BUCKETS ==> Distinct(t[h]))
    && forall h, i :: 0 <= h < BUCKETS && 0 <= i < |t[h]| ==> Hash(t[h][i].0) == h
  }

  function Get(t: Table, key: string): Option<int>
    requires |t| == BUCKETS
  {
    LookupIn(t[Hash(key)], key)
  }

  function SetKey(t: Table, key: string, v: int): (r: Table)
    requires |t| == BUCKETS
    ensures |r| == BUCKETS
  {
    t[Hash(key) := SetIn(t[Hash(key)], key, v)]
  }

  function DeleteKey(t: Table, key: string): (r: Table)
    requires |t| == BUCKETS
    ensures |r| == BUCKETS
  {
    t[Hash(key) := DeleteIn(t[Hash(key)], key)]
  }

  /** A position where the key is, being the only one, is the one found. */
  lemma PosUnique(ps: Bucket, key: string, i: nat)
    requires i < |ps| && ps[i].0 == key && forall j :: 0 <= j < i ==> ps[j].0 != key
    ensures Pos(ps, key) == Some(i)
  {
    var r := Pos(ps, key);
    assert r.Some? && !(r.value < i) && !(i < r.value);
  }

  lemma SetInLookup(ps: Bucket, key: string, v: int, x: string)
    ensures LookupIn(SetIn(ps, key, v), x) == if x == key then Some(v) else LookupIn(ps, x)
  {
    var k, r, m := Pos(ps, key), SetIn(ps, key, v), Pos(ps, x);
    if k.Some? {
      if x == key {
        PosUnique(r, x, k.value);
      } else if m.Some? {
        PosUnique(r, x, m.value);
      } else {
        assert Pos(r, x).None?;
      }
    } else {
      assert r[1..] == ps;
    }
  }

  lemma DeleteInLookup(ps: Bucket, key: string, x: string)
    requires Distinct(ps)
    ensures LookupIn(DeleteIn(ps, key), x) == if x == key then None else LookupIn(ps, x)
    ensures Distinct(DeleteIn(ps, key))
  {
    var k, r, m := Pos(ps, key), DeleteIn(ps, key), Pos(ps, x);
    if k.Some? {
      if x == key {
        assert Pos(r, x).None?;
      } else if m.Some? {
        PosUnique(r, x, if m.value < k.value then m.value else m.value - 1);
      } else {
        assert Pos(r, x).None?;
      }
    }
  }

  lemma SetDistinct(ps: Bucket, key: string, v: int)
    requires Distinct(ps)
    ensures Distinct(SetIn(ps, key, v))
  {
  }

  lemma {:induction false} SetOk(t: Table, key: string, v: int)
    requires TableOk(t)
    ensures TableOk(SetKey(t, key, v))
    ensures forall x :: Get(SetKey(t, key, v), x) == if x == key then Some(v) else Get(t, x)
  {
    hide Hash, Pos, LookupIn;
    SetDistinct(t[Hash(key)], key, v);
    forall x
      ensures Get(SetKey(t, key, v), x) == if x == key then Some(v) else Get(t, x)
    {
      SetInLookup(t[Hash(key)], key, v, x);
    }
  }

  lemma {:induction false} DeleteOk(t: Table, key: string)
    requires TableOk(t)
    ensures TableOk(DeleteKey(t, key))
    ensures forall x :: Get(DeleteKey(t, key), x) == if x == key then None else Get(t, x)
  {
    hide Hash, Pos, LookupIn;
    DeleteInLookup(t[Hash(key)], key, key);
    forall x
      ensures Get(DeleteKey(t, key), x) == if x == key then None else Get(t, x)
    {
      DeleteInLookup(t[Hash(key)], key, x);
    }
  }

  // ----- any sequence of operations -----

  datatype MapOp = SetOp(key: string, v: int) | DeleteOp(key: string)

  function RunTable(t: Table, ops: seq<MapOp>): (r: Table)
    requires |t| == BUCKETS
    ensures |r| == BUCKETS
    decreases |ops|
  {
    if ops == [] then t
    else
      match ops[0]
      case SetOp(k, v) => RunTable(SetKey(t, k, v), ops[1..])
      case DeleteOp(k) => RunTable(DeleteKey(t, k), ops[1..])
  }

  function RunMap(m: map<string, int>, ops: seq<MapOp>): map<string, int>
    decreases |ops|
  {
    if ops == [] then m
    else
      match ops[0]
      case SetOp(k, v) => RunMap(m[k := v], ops[1..])
      case DeleteOp(k) => RunMap(m - {k}, ops[1..])
  }

  ghost predicate Refines(t: Table, m: map<string, int>) {
    TableOk(t) && forall x :: Get(t, x) == if x in m then Some(m[x]) else None
  }

  /** The chains hold what a finite map holds, over every sequence of operations. */
  lemma {:induction false} RunsRefine(t: Table, m: map<string, int>, ops: seq<MapOp>)
    requires |t| == BUCKETS && Refines(t, m)
    ensures Refines(RunTable(t, ops), RunMap(m, ops))
    decreases |ops|
  {
    hide Refines, SetKey, DeleteKey;
    if ops != [] {
      match ops[0]
      case SetOp(k, v) =>
        SetRefines(t, m, k, v);
        RunsRefine(SetKey(t, k, v), m[k := v], ops[1..]);
      case DeleteOp(k) =>
        DeleteRefines(t, m, k);
        RunsRefine(DeleteKey(t, k), m - {k}, ops[1..]);
    }
  }

  lemma SetRefines(t: Table, m: map<string, int>, key: string, v: int)
    requires Refines(t, m)
    ensures Refines(SetKey(t, key, v), m[key := v])
  {
    hide TableOk, Get, SetKey;
    SetOk(t, key, v);
  }

  lemma DeleteRefines(t: Table, m: map<string, int>, key: string)
    requires Refines(t, m)
    ensures Refines(DeleteKey(t, key), m - {key})
  {
    hide TableOk, Get, DeleteKey;
    DeleteOk(t, key);
  }

  lemma EmptyRefines()
    ensures Refines(seq(BUCKETS, _ => []), map[])
  {
    hide Hash;
  }

  // ----- the linked entries -----

  class Entry {
    const key: string
    var val: int
    var next: Entry?

    constructor (key: string, val: int, next: Entry?)
      ensures this.key == key && this.val == val && this.next == next
    {
      this.key, this.val, this.next := key, val, next;
    }
  }

  /** The entry after the one at `i`. */
  ghost function After(c: seq<Entry>, i: int): Entry? {
    if 0 <= i + 1 < |c| then c[i + 1] else null
  }

  /** `c` lists the entries linked from `head`, each once. */
  ghost predicate Linked(head: Entry?, c: seq<Entry>)
    reads c
  {
    && head == (if c == [] then null else c[0])
    && (forall i :: 0 <= i < |c| ==> c[i].next == After(c, i))
    && forall i, j :: 0 <= i < j < |c| ==> c[i] != c[j]
  }

  ghost function Pairs(c: seq<Entry>): (ps: Bucket)
    reads c
    ensures |ps| == |c| && forall i :: 0 <= i < |c| ==> ps[i] == (c[i].key, c[i].val)
  {
    if c == [] then [] else Pairs(c[..|c| - 1]) + [(c[|c| - 1].key, c[|c| - 1].val)]
  }

  /** Along the chain to the key. */
  method FindIn(head: Entry?, ghost c: seq<Entry>, key: string) returns (e: Entry?)
    requires Linked(head, c)
    ensures
      var k := Pos(Pairs(c), key);
      e == if k.Some? then c[k.value] else null
  {
    ghost var i := 0;
    e := head;
    while e != null
      invariant 0 <= i <= |c| && e == if i < |c| then c[i] else null
      invariant forall j :: 0 <= j < i ==> c[j].key != key
      decreases |c| - i
    {
      if e.key == key {
        PosUnique(Pairs(c), key, i);
        return;
      }
      e, i := e.next, i + 1;
    }
    assert Pos(Pairs(c), key).None?;
  }

  /** The entry with the key and what points to it: its predecessor, or the bucket if there is none. */
  method Locate(head: Entry?, ghost c: seq<Entry>, key: string) returns (prev: Entry?, e: Entry?)
    requires Linked(head, c)
    ensures
      var k := Pos(Pairs(c), key);
      && e == (if k.Some? then c[k.value] else null)
      && (k.Some? ==> prev == if k.value > 0 then c[k.value - 1] else null)
  {
    ghost var i := 0;
    prev, e := null, head;
    while e != null
      invariant 0 <= i <= |c| && e == (if i < |c| then c[i] else null) && prev == (if i > 0 then c[i - 1] else null)
      invariant forall j :: 0 <= j < i ==> c[j].key != key
      decreases |c| - i
    {
      if e.key == key {
        PosUnique(Pairs(c), key, i);
        return;
      }
      prev, e, i := e, e.next, i + 1;
    }
    assert Pos(Pairs(c), key).None?;
  }

  /** The entry with the key is unlinked from whatever points to it. */
  method Unlink(head: Entry?, ghost c: seq<Entry>, key: string) returns (first: Entry?, ghost d: seq<Entry>)
    requires Linked(head, c)
    modifies c
    ensures Linked(first, d) && Pairs(d) == DeleteIn(old(Pairs(c)), key)
    ensures forall e :: e in d ==> e in c
  {
    hide Pairs, Pos, Linked, After;
    var prev, e := Locate(head, c, key);
    if e == null { return head, c; }
    ghost var ps := Pairs(c);
    ghost var i := Pos(ps, key).value;
    d := Without(c, i);
    first := Relink(head, c, i, prev, e);
    SamePairs(c, d, i, ps);
  }

  method Relink(head: Entry?, ghost c: seq<Entry>, ghost i: nat, prev: Entry?, e: Entry) returns (first: Entry?)
    requires Linked(head, c) && i < |c| && e == c[i] && prev == if i > 0 then c[i - 1] else null
    modifies c
    ensures Linked(first, Without(c, i)) && forall j :: 0 <= j < |c| ==> c[j].val == old(c[j].val)
  {
    hide After;
    first := head;
    if prev == null { first := e.next; } else { prev.next := e.next; }
    AfterFirst(c);
    SameNext(first, c, i, Without(c, i));
  }

  lemma AfterFirst(c: seq<Entry>)
    ensures After(c, 0) == if 1 < |c| then c[1] else null
  {
  }

  lemma SameNext(first: Entry?, c: seq<Entry>, i: nat, d: seq<Entry>)
    requires i < |c| && d == Without(c, i)
    requires forall j :: 0 <= j < |c| && j + 1 != i ==> c[j].next == After(c, j)
    requires i > 0 ==> c[i - 1].next == After(c, i)
    requires first == if i > 0 then c[0] else c[0].next
    requires forall a, b :: 0 <= a < b < |c| ==> c[a] != c[b]
    ensures Linked(first, d)
  {
    forall j | 0 <= j < |d|
      ensures d[j].next == After(d, j)
    {
      var k := if j < i then j else j + 1;
      assert d[j] == c[k];
      if j + 1 == i {
        assert j + 1 < |d| ==> d[j + 1] == c[i + 1];
      } else {
        assert c[k].next == After(c, k);
        assert j + 1 < |d| ==> d[j + 1] == c[k + 1];
      }
    }
    if |d| > 0 {
      assert d[0] == if i > 0 then c[0] else c[1];
    }
  }

  lemma SamePairs(c: seq<Entry>, d: seq<Entry>, i: nat, ps: Bucket)
    requires i < |c| && d == Without(c, i) && |ps| == |c|
    requires forall j :: 0 <= j < |c| ==> ps[j] == (c[j].key, c[j].val)
    ensures Pairs(d) == Without(ps, i)
  {
    hide Pairs;
    assert |Pairs(d)| == |Without(ps, i)|;
  }

  /** No entry is in both. */
  ghost predicate Apart(c: seq<Entry>, d: seq<Entry>) {
    forall e :: e in c ==> e !in d
  }

  /** A new first entry. */
  lemma LinkedMore(n: Entry, head: Entry?, c: seq<Entry>)
    requires Linked(head, c) && n !in c && n.next == head
    ensures Linked(n, [n] + c) && Pairs([n] + c) == [(n.key, n.val)] + Pairs(c)
  {
    var d := [n] + c;
    forall i | 0 <= i < |d|
      ensures d[i].next == After(d, i)
    {
      if i > 0 { assert d[i] == c[i - 1] && After(d, i) == After(c, i - 1); }
    }
    assert |Pairs(d)| == |[(n.key, n.val)] + Pairs(c)|;
  }

  /** A new value in one entry. */
  method SetVal(ghost head: Entry?, ghost c: seq<Entry>, ghost i: nat, e: Entry, val: int)
    requires Linked(head, c) && i < |c| && e == c[i]
    modifies e
    ensures Linked(head, c) && Pairs(c) == old(Pairs(c))[i := (e.key, val)]
  {
    e.val := val;
    assert |Pairs(c)| == |c|;
  }

  class Map {
    const buckets: array<Entry?>
    /** The entries of each bucket in order. */
    ghost var chains: seq<seq<Entry>>
    /** The finite map that it is. */
    ghost var model: map<string, int>

    ghost predicate Shape()
      reads this
    {
      && buckets.Length == BUCKETS && |chains| == BUCKETS
      && forall g, h :: 0 <= g < BUCKETS && 0 <= h < BUCKETS && g != h ==> Apart(chains[g], chains[h])
    }

    ghost function Nodes(): set<Entry>
      reads this
    {
      set h, e | 0 <= h < |chains| && e in chains[h] :: e
    }

    /** The chains hold what the finite map holds. */
    ghost predicate Valid()
      reads this, buckets, Nodes()
    {
      Chained() && Refines(Contents(), model)
    }

    ghost predicate Chained()
      reads this, buckets, Nodes()
    {
      && Shape()
      && (forall h, e :: 0 <= h < BUCKETS && e in chains[h] ==> e in Nodes())
      && forall h :: 0 <= h < BUCKETS ==> Linked(buckets[h], chains[h])
    }

    /** What the map holds, bucket by bucket. */
    ghost function Contents(): (t: Table)
      requires Chained()
      reads this, buckets, Nodes()
      ensures |t| == BUCKETS && forall h :: 0 <= h < BUCKETS ==> t[h] == Pairs(chains[h])
    {
      seq(BUCKETS, h requires 0 <= h < BUCKETS && Chained() reads this, buckets, Nodes() => Pairs(chains[h]))
    }

    constructor ()
      ensures Valid() && fresh(buckets) && Nodes() == {} && model == map[]
    {
      buckets := new Entry?[BUCKETS](_ => null);
      chains := seq(BUCKETS, _ => []);
      model := map[];
      new;
      EmptyRefines();
      assert Contents() == seq(BUCKETS, _ => []);
    }

    method GetVal(key: string) returns (v: int)
      requires Valid()
      ensures v == if key in model then model[key] else 0
    {
      hide Hash, Pos, Linked, Pairs, Apart, TableOk;
      var h := Hash(key);
      var e := FindIn(buckets[h], chains[h], key);
      v := if e != null then e.val else 0;
    }

    method Has(key: string) returns (b: bool)
      requires Valid()
      ensures b <==> key in model
    {
      hide Hash, Pos, Linked, Pairs, Apart, TableOk;
      var h := Hash(key);
      var e := FindIn(buckets[h], chains[h], key);
      b := e != null;
    }

    method Set(key: string, val: int)
      requires Valid()
      modifies this, buckets, Nodes()
      ensures Valid() && model == old(model)[key := val] && Contents() == SetKey(old(Contents()), key, val)
      ensures forall e :: e in Nodes() && e !in old(Nodes()) ==> fresh(e)
    {
      hide Refines, Linked, Pairs, SetKey, Apart;
      ghost var t := Contents();
      PutIn(key, val);
      SetRefines(t, model, key, val);
      Remodel(model[key := val]);
    }

    /** The chains stay as they are. */
    ghost method Remodel(m: map<string, int>)
      requires Chained() && Refines(Contents(), m)
      modifies `model
      ensures Valid() && model == m && Contents() == old(Contents()) && chains == old(chains)
    {
      hide Refines, Linked, Pairs;
      ghost var t := Contents();
      model := m;
      assert Contents() == t;
    }

    method PutIn(key: string, val: int)
      requires Chained()
      modifies `chains, buckets, Nodes()
      ensures Chained() && Contents() == SetKey(old(Contents()), key, val)
      ensures forall e :: e in Nodes() && e !in old(Nodes()) ==> fresh(e)
    {
      hide Hash, Pos, Linked, Pairs, Apart;
      var h := Hash(key);
      ghost var k := Pos(Pairs(chains[h]), key);
      var e := FindIn(buckets[h], chains[h], key);
      if e != null { Update(h, k.value, e, val, SetIn(Pairs(chains[h]), key, val)); } else { Insert(h, key, val); }
    }

    method Update(ghost h: nat, ghost i: nat, e: Entry, val: int, ghost ps: Bucket)
      requires Chained() && h < BUCKETS && i < |chains[h]| && chains[h][i] == e
      requires ps == Pairs(chains[h])[i := (e.key, val)]
      modifies e
      ensures Chained() && Contents() == old(Contents())[h := ps]
    {
      hide Hash, Linked, Pairs;
      assert e in chains[h];
      SetVal(buckets[h], chains[h], i, e, val);
      forall g | 0 <= g < BUCKETS && g != h
        ensures e !in chains[g]
      {
        assert Apart(chains[h], chains[g]);
      }
      SameBuckets(h, old(Contents()), ps);
    }

    method Insert(h: nat, key: string, val: int)
      requires Chained() && h < BUCKETS
      modifies `chains, buckets
      ensures Chained() && Contents() == old(Contents())[h := [(key, val)] + old(Pairs(chains[h]))]
      ensures forall e :: e in Nodes() && e !in old(Nodes()) ==> fresh(e)
    {
      hide Hash, Linked, Pairs;
      ghost var c := chains[h];
      var n := new Entry(key, val, buckets[h]);
      assert forall g :: 0 <= g < BUCKETS ==> n !in chains[g];
      LinkedMore(n, buckets[h], c);
      buckets[h] := n;
      chains := chains[h := [n] + c];
      SameBuckets(h, old(Contents()), [(key, val)] + old(Pairs(c)));
    }

    method Delete(key: string)
      requires Valid()
      modifies this, buckets, Nodes()
      ensures Valid() && model == old(model) - {key} && Contents() == DeleteKey(old(Contents()), key)
      ensures Nodes() <= old(Nodes())
    {
      hide Refines, Linked, Pairs, DeleteKey, Apart;
      ghost var t := Contents();
      TakeOut(key);
      DeleteRefines(t, model, key);
      Remodel(model - {key});
    }

    method TakeOut(key: string)
      requires Chained()
      modifies `chains, buckets, Nodes()
      ensures Chained() && Contents() == DeleteKey(old(Contents()), key) && Nodes() <= old(Nodes())
    {
      hide Hash, Pos, Linked, Pairs;
      var h := Hash(key);
      ghost var c := chains[h];
      assert forall g, e :: 0 <= g < BUCKETS && g != h && e in chains[g] ==> e !in c;
      var first, d := Unlink(buckets[h], c, key);
      OthersUntouched(h);
      buckets[h] := first;
      chains := chains[h := d];
      SameBuckets(h, old(Contents()), DeleteIn(old(Pairs(c)), key));
    }

    /** Buckets and chains are as they were, and only entries of chain `h` have changed. */
    twostate lemma OthersUntouched(h: nat)
      requires old(Chained()) && h < BUCKETS && chains == old(chains) && buckets[..] == old(buckets[..])
      requires
        forall g, e :: 0 <= g < BUCKETS && g != h && e in chains[g] ==>
          e.next == old(e.next) && e.val == old(e.val)
      ensures
        forall g :: 0 <= g < BUCKETS && g != h ==>
          Linked(buckets[g], chains[g]) && Pairs(chains[g]) == old(Pairs(chains[g]))
    {
      hide Pairs, After;
      forall g | 0 <= g < BUCKETS && g != h
        ensures Linked(buckets[g], chains[g]) && Pairs(chains[g]) == old(Pairs(chains[g]))
      {
        var c := chains[g];
        assert old(Linked(buckets[g], c)) && buckets[g] == buckets[..][g];
        forall i | 0 <= i < |c|
          ensures c[i].next == old(c[i].next) && c[i].val == old(c[i].val)
        {
          assert c[i] in c;
        }
        assert |Pairs(c)| == |old(Pairs(c))|;
      }
    }

    /** One bucket has changed. */
    lemma SameBuckets(h: nat, was: Table, ps: Bucket)
      requires Chained() && h < BUCKETS && |was| == BUCKETS && Pairs(chains[h]) == ps
      requires forall g :: 0 <= g < BUCKETS && g != h ==> Pairs(chains[g]) == was[g]
      ensures Contents() == was[h := ps]
    {
      hide Pairs, Linked;
    }
  }
}
