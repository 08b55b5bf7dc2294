/** The runtime's region stack: what is allocated inside a region is freed when that region is left. */
module Regions {

  const MAX_DEPTH := 32

  /** An address that the C heap has given out. */
  type Ptr = nat

  /** The pointers recorded at each open level, the newest first, and the heap: what is live, and the
      next address. */
  datatype State = State(levels: seq<seq<Ptr>>, live: set<Ptr>, next: Ptr)

  function Elems(ps: seq<Ptr>): set<Ptr> {
    set p | p in ps
  }

  predicate NoTwice(ps: seq<Ptr>) {
    forall i, j :: 0 <= i < j < |ps| ==> ps[i] != ps[j]
  }

  predicate Apart(ps: seq<Ptr>, qs: seq<Ptr>) {
    forall p :: p in ps ==> p !in qs
  }

  /** Everything recorded is live, and recorded once. */
  predicate Ok(st: State) {
    && |st.levels| <= MAX_DEPTH
    && (forall p :: p in st.live ==> p < st.next)
    && (forall i :: 0 <= i < |st.levels| ==> NoTwice(st.levels[i]) && Elems(st.levels[i]) <= st.live)
    && forall i, j :: 0 <= i < |st.levels| && 0 <= j < |st.levels| && i != j ==> Apart(st.levels[i], st.levels[j])
  }

  function Top(st: State): seq<Ptr> {
    if st.levels == [] then [] else st.levels[|st.levels| - 1]
  }

  /** Past the deepest level nothing is opened. */
  function Pushed(st: State): State {
    if |st.levels| < MAX_DEPTH then st.(levels := st.levels + [[]]) else st
  }

  /** Outside every region the pointer is not recorded. */
  function Allocated(st: State): State {
    var n := |st.levels|;
    State(if n == 0 then [] else st.levels[n - 1 := [st.next] + Top(st)], st.live + {st.next}, st.next + 1)
  }

  function Popped(st: State): State {
    if st.levels == [] then st
    else st.(levels := st.levels[..|st.levels| - 1], live := st.live - Elems(Top(st)))
  }

  lemma {:induction false} StepsKeepOk(st: State)
    requires Ok(st)
    ensures Ok(Pushed(st)) && Ok(Allocated(st)) && Ok(Popped(st))
  {
    if st.levels != [] {
      var a, n := Allocated(st), |st.levels| - 1;
      forall i | 0 <= i < n
        ensures Apart(a.levels[i], a.levels[n]) && Apart(a.levels[n], a.levels[i])
      {
        assert Apart(st.levels[n], st.levels[i]) && st.next !in Elems(st.levels[i]);
      }
      assert st.next !in Elems(Top(st));
      forall i | 0 <= i < n
        ensures Elems(st.levels[i]) <= Popped(st).live
      {
        assert Apart(st.levels[i], st.levels[n]);
      }
    }
  }

  // ----- bracketed runs -----

  datatype Run = Done | Alloc(rest: Run) | Region(body: Run, rest: Run)

  function Exec(r: Run, st: State): State {
    match r
    case Done => st
    case Alloc(rest) => Exec(rest, Allocated(st))
    case Region(body, rest) => Exec(rest, Popped(Exec(body, Pushed(st))))
  }

  function Nest(r: Run): nat {
    match r
    case Done => 0
    case Alloc(rest) => Nest(rest)
    case Region(body, rest) => if Nest(body) + 1 > Nest(rest) then Nest(body) + 1 else Nest(rest)
  }

  function Count(r: Run): nat {
    match r
    case Done => 0
    case Alloc(rest) => 1 + Count(rest)
    case Region(body, rest) => Count(body) + Count(rest)
  }

  /** What a run allocates outside its inner regions, the newest first, if the next address is `n`. */
  function Direct(r: Run, n: Ptr): (ps: seq<Ptr>)
    ensures forall p :: p in ps ==> n <= p
    decreases r
  {
    match r
    case Done => []
    case Alloc(rest) => Direct(rest, n + 1) + [n]
    case Region(body, rest) => Direct(rest, n + Count(body))
  }

  /** The state after a run that leaves no trace of its inner regions. */
  function After(r: Run, st: State): State {
    var ps, n := Direct(r, st.next), |st.levels|;
    State(if n == 0 then [] else st.levels[n - 1 := ps + Top(st)], st.live + Elems(ps), st.next + Count(r))
  }

  lemma {:induction false} Balanced(r: Run, st: State)
    requires Ok(st) && |st.levels| + Nest(r) <= MAX_DEPTH
    ensures Exec(r, st) == After(r, st)
    decreases r, 0
  {
    hide Ok, After, Popped, Pushed, Allocated, Direct;
    StepsKeepOk(st);
    match r
    case Done => AfterDone(st);
    case Alloc(rest) =>
      AfterAlloc(rest, st);
      Balanced(rest, Allocated(st));
    case Region(body, rest) =>
      PopFreesOwn(body, st);
      AfterRegion(body, rest, st);
      Balanced(rest, st.(next := st.next + Count(body)));
  }

  lemma {:induction false} AfterDone(st: State)
    ensures After(Done, st) == st
  {
    assert Elems([]) == {};
    assert [] + Top(st) == Top(st);
  }

  lemma {:induction false} AfterAlloc(rest: Run, st: State)
    ensures |Allocated(st).levels| == |st.levels| && After(Alloc(rest), st) == After(rest, Allocated(st))
  {
    hide Elems;
    var ps, n := Direct(rest, st.next + 1), |st.levels|;
    OneMore(ps, st.next);
    assert ps + [st.next] + Top(st) == ps + ([st.next] + Top(st));
  }

  lemma {:induction false} AfterRegion(body: Run, rest: Run, st: State)
    ensures After(Region(body, rest), st) == After(rest, st.(next := st.next + Count(body)))
  {
    var r, s := Region(body, rest), st.(next := st.next + Count(body));
    assert Direct(r, st.next) == Direct(rest, s.next) && Count(r) == Count(body) + Count(rest) && Top(s) == Top(st) by {
      hide After;
    }
    hide Direct, Count, Elems, Top;
    assert s.levels == st.levels && s.live == st.live && s.next + Count(rest) == st.next + Count(r);
  }

  lemma {:induction false} OneMore(ps: seq<Ptr>, p: Ptr)
    ensures Elems(ps + [p]) == Elems(ps) + {p}
  {
  }

  /** Leaving a region finds exactly what was allocated directly in it, and frees just that: everything
      that was live before is live, nothing else is. */
  lemma {:induction false} PopFreesOwn(body: Run, st: State)
    requires Ok(st) && |st.levels| + 1 + Nest(body) <= MAX_DEPTH
    ensures
      var s := Exec(body, Pushed(st));
      && |s.levels| == |st.levels| + 1 && Top(s) == Direct(body, st.next)
      && Popped(s) == st.(next := st.next + Count(body)) && Ok(Popped(s))
    decreases body, 1
  {
    hide Apart, NoTwice;
    StepsKeepOk(st);
    var o := Pushed(st);
    Balanced(body, o);
    var s := After(body, o);
    assert Top(s) == Direct(body, st.next) + [];
    assert Popped(s).levels == st.levels;
    assert Popped(s).live == st.live;
  }

  // ----- deeper nesting -----

  /** What was recorded stays recorded at its level or is freed, and freed memory does not come back. */
  ghost predicate Later(st: State, s: State) {
    && st.next <= s.next
    && (forall p :: p < st.next && p !in st.live ==> p !in s.live)
    && forall i, p :: 0 <= i < |st.levels| && p in st.levels[i] ==> p !in s.live || (i < |s.levels| && p in s.levels[i])
  }

  lemma {:induction false} LaterStep(st: State)
    requires Ok(st)
    ensures Later(st, Pushed(st)) && Later(st, Allocated(st)) && Later(st, Popped(st))
  {
    hide Apart, NoTwice;
  }

  lemma {:induction false} LaterTrans(a: State, b: State, c: State)
    requires Ok(a) && Later(a, b) && Later(b, c)
    ensures Later(a, c)
  {
    hide Apart, NoTwice;
    forall i, p | 0 <= i < |a.levels| && p in a.levels[i]
      ensures p !in c.live || (i < |c.levels| && p in c.levels[i])
    {
      assert p in Elems(a.levels[i]);
      assert p < b.next;
    }
  }

  lemma {:induction false} ExecLater(r: Run, st: State)
    requires Ok(st)
    ensures Ok(Exec(r, st)) && Later(st, Exec(r, st))
    decreases r
  {
    hide Ok, Later, Allocated, Pushed, Popped;
    LaterStep(st);
    StepsKeepOk(st);
    match r
    case Done => Still(st);
    case Alloc(rest) =>
      ExecLater(rest, Allocated(st));
      LaterTrans(st, Allocated(st), Exec(r, st));
    case Region(body, rest) =>
      var o := Pushed(st);
      var b := Exec(body, o);
      ExecLater(body, o);
      LaterTrans(st, o, b);
      LaterStep(b);
      StepsKeepOk(b);
      LaterTrans(st, b, Popped(b));
      ExecLater(rest, Popped(b));
      LaterTrans(st, Popped(b), Exec(r, st));
  }

  lemma {:induction false} Still(st: State)
    ensures Later(st, st)
  {
  }

  /** Once a region could not be opened, leaving it closes another one. */
  lemma {:induction false} Depth(r: Run, st: State)
    requires |st.levels| <= MAX_DEPTH
    ensures
      var n := |Exec(r, st).levels|;
      n <= |st.levels| && (|st.levels| > 0 && |st.levels| + Nest(r) > MAX_DEPTH ==> n < |st.levels|)
    decreases r
  {
    hide Elems;
    match r
    case Done =>
    case Alloc(rest) => Depth(rest, Allocated(st));
    case Region(body, rest) =>
      Depth(body, Pushed(st));
      Depth(rest, Popped(Exec(body, Pushed(st))));
  }

  /** What the innermost open region holds outlives a run inside it exactly when the run nests no deeper
      than there are levels left. */
  lemma {:induction false} SurvivesExact(r: Run, st: State)
    requires Ok(st) && Top(st) != []
    ensures Elems(Top(st)) <= Exec(r, st).live <==> |st.levels| + Nest(r) <= MAX_DEPTH
  {
    var n, s := |st.levels|, Exec(r, st);
    if n + Nest(r) <= MAX_DEPTH {
      Balanced(r, st);
    } else {
      Depth(r, st);
      ExecLater(r, st);
      var p := Top(st)[0];
      assert p in st.levels[n - 1] && p in Elems(Top(st));
    }
  }

  // ----- the stack as it runs -----

  datatype List = Nil | Node(ptr: Ptr, next: List)

  function Ptrs(l: List): seq<Ptr> {
    match l
    case Nil => []
    case Node(p, rest) => [p] + Ptrs(rest)
  }

  class RegionStack {
    const heads: array<List>
    var depth: nat
    /** The heap behind `malloc` and `free`. */
    var live: set<Ptr>
    var next: Ptr

    ghost predicate Shape()
      reads this
    {
      heads.Length == MAX_DEPTH && depth <= MAX_DEPTH
    }

    ghost function View(): State
      requires Shape()
      reads this, heads
    {
      State(seq(depth, i requires 0 <= i < depth && Shape() reads this, heads => Ptrs(heads[i])), live, next)
    }

    ghost predicate Valid()
      reads this, heads
    {
      Shape() && Ok(View())
    }

    constructor ()
      ensures Valid() && View() == State([], {}, 0)
    {
      heads := new List[MAX_DEPTH](_ => Nil);
      depth, live, next := 0, {}, 0;
    }

    method Malloc() returns (p: Ptr)
      requires Valid()
      modifies `live, `next
      ensures p == old(next) && next == p + 1 && live == old(live) + {p}
    {
      p := next;
      live, next := live + {p}, p + 1;
    }

    /** Only live memory is freed. */
    method Free(p: Ptr)
      requires p in live
      modifies `live
      ensures live == old(live) - {p}
    {
      live := live - {p};
    }

    method Push()
      requires Valid()
      modifies this, heads
      ensures Valid() && View() == Pushed(old(View()))
    {
      StepsKeepOk(View());
      if depth < MAX_DEPTH {
        heads[depth] := Nil;
        depth := depth + 1;
      }
      assert View() == Pushed(old(View()));
    }

    method Alloc() returns (p: Ptr)
      requires Valid()
      modifies this, heads
      ensures Valid() && p == old(next) && View() == Allocated(old(View()))
    {
      StepsKeepOk(View());
      p := Malloc();
      if depth > 0 { heads[depth - 1] := Node(p, heads[depth - 1]); }
      assert View() == Allocated(old(View()));
    }

    method Pop()
      requires Valid()
      modifies this
      ensures Valid() && View() == Popped(old(View()))
    {
      hide Apart;
      StepsKeepOk(View());
      if depth == 0 { return; }
      ghost var top := Top(View());
      depth := depth - 1;
      var n := heads[depth];
      while n != Nil
        invariant depth == old(depth) - 1 && next == old(next)
        invariant NoTwice(Ptrs(n)) && Elems(Ptrs(n)) <= live
        invariant Elems(Ptrs(n)) <= Elems(top) && live == old(live) - (Elems(top) - Elems(Ptrs(n)))
        decreases n
      {
        assert Ptrs(n) == [n.ptr] + Ptrs(n.next);
        Split(n.ptr, Ptrs(n.next));
        Free(n.ptr);
        n := n.next;
      }
      assert View() == Popped(old(View()));
    }
  }

  lemma {:induction false} Split(p: Ptr, ps: seq<Ptr>)
    requires NoTwice([p] + ps)
    ensures Elems([p] + ps) == {p} + Elems(ps) && p !in Elems(ps) && NoTwice(ps)
  {
    forall i | 0 <= i < |ps|
      ensures ps[i] != p
    {
      assert ([p] + ps)[0] == p && ([p] + ps)[i + 1] == ps[i];
    }
    forall i, j | 0 <= i < j < |ps|
      ensures ps[i] != ps[j]
    {
      assert ([p] + ps)[i + 1] == ps[i] && ([p] + ps)[j + 1] == ps[j];
    }
  }
}
