/**
 Worst-case stack use over a call graph (rt-thread/tools/WCS.py): calls are resolved by name, then a
 depth-first search with memory computes one figure per function.
 */
module StackAnalysis {
  import opened Basics

  /** A function is known by its name, and by its translation unit when it is local to one. */
  datatype Key = Global(name: string) | Local(name: string, unit: string)

  /** What the compiler says of a function: `calls` is a set, here in the order it happens to be visited. */
  datatype Fn = Fn(unit: string, calls: seq<string>, ptrCall: bool, local: nat)

  type Graph = map<Key, Fn>

  datatype Stack = Unbounded | Bytes(n: nat)

  // ------------------------------------------------------------------ resolving calls

  /** Global functions first, then those local to the caller's translation unit. */
  function FindFxn(g: Graph, unit: string, name: string): Option<Key> {
    if Global(name) in g then Some(Global(name))
    else if Local(name, unit) in g then Some(Local(name, unit))
    else None
  }

  function Found(g: Graph, unit: string, calls: seq<string>): seq<Key> {
    if calls == [] then []
    else
      (match FindFxn(g, unit, calls[0]) case Some(k) => [k] case None => []) + Found(g, unit, calls[1..])
  }

  function Missing(g: Graph, unit: string, calls: seq<string>): set<string> {
    if calls == [] then {}
    else
      (if FindFxn(g, unit, calls[0]) == None then {calls[0]} else {}) + Missing(g, unit, calls[1..])
  }

  function Callees(g: Graph, f: Key): seq<Key>
    requires f in g
  {
    Found(g, g[f].unit, g[f].calls)
  }

  function Unresolved(g: Graph, f: Key): set<string>
    requires f in g
  {
    Missing(g, g[f].unit, g[f].calls)
  }

  lemma FoundNext(g: Graph, unit: string, calls: seq<string>, i: nat)
    requires i < |calls|
    ensures Found(g, unit, calls[i..])
         == (match FindFxn(g, unit, calls[i]) case Some(k) => [k] case None => []) + Found(g, unit, calls[i + 1..])
    ensures Missing(g, unit, calls[i..])
         == (if FindFxn(g, unit, calls[i]) == None then {calls[i]} else {}) + Missing(g, unit, calls[i + 1..])
  {
    assert calls[i..][1..] == calls[i + 1..];
  }

  lemma NoneLeft(g: Graph, unit: string, calls: seq<string>)
    ensures Found(g, unit, calls[|calls|..]) == [] && Missing(g, unit, calls[|calls|..]) == {}
  {
  }

  lemma Regroup<T>(a: seq<T>, b: seq<T>, c: seq<T>)
    ensures a + b + c == a + (b + c)
  {
  }

  /** A function is a callee when some call names it and nothing global shadows it. */
  lemma {:induction false} FoundIs(g: Graph, unit: string, calls: seq<string>, k: Key)
    ensures k in Found(g, unit, calls)
       <==> k in g && k.name in calls && (k.Global? || (k.unit == unit && Global(k.name) !in g))
  {
    if calls != [] {
      FoundIs(g, unit, calls[1..], k);
      assert k.name in calls <==> k.name == calls[0] || k.name in calls[1..];
    }
  }

  lemma {:induction false} MissingIs(g: Graph, unit: string, calls: seq<string>, name: string)
    ensures name in Missing(g, unit, calls)
       <==> name in calls && Global(name) !in g && Local(name, unit) !in g
  {
    if calls != [] {
      MissingIs(g, unit, calls[1..], name);
      assert name in calls <==> name == calls[0] || name in calls[1..];
    }
  }

  lemma CalleeKnown(g: Graph, f: Key, c: Key)
    requires f in g && c in Callees(g, f)
    ensures c in g
  {
    FoundIs(g, g[f].unit, g[f].calls, c);
  }

  // ------------------------------------------------------------------ call paths

  /** Each function on the path calls the next. */
  ghost predicate Path(g: Graph, p: seq<Key>) {
    && p != [] && p[0] in g
    && (|p| > 1 ==> p[1] in Callees(g, p[0]) && Path(g, p[1..]))
  }

  ghost predicate From(g: Graph, f: Key, p: seq<Key>) {
    Path(g, p) && p[0] == f
  }

  ghost function Last(p: seq<Key>): Key
    requires p != []
  {
    p[|p| - 1]
  }

  lemma {:induction false} LastKnown(g: Graph, p: seq<Key>)
    requires Path(g, p)
    ensures Last(p) in g
  {
    if |p| > 1 {
      LastKnown(g, p[1..]);
    }
  }

  /** The path ends in a function that calls through a pointer, or in one it has met before. */
  ghost predicate Bad(g: Graph, p: seq<Key>)
    requires Path(g, p)
  {
    LastKnown(g, p);
    g[Last(p)].ptrCall || Last(p) in p[..|p| - 1]
  }

  ghost function Cost(g: Graph, p: seq<Key>): nat
    requires Path(g, p)
  {
    g[p[0]].local + if |p| > 1 then Cost(g, p[1..]) else 0
  }

  /**
   What the analysis should say of `f`: unbounded when some call path reaches a pointer call or
   goes round a cycle, and otherwise the greatest sum of local stacks over all call paths.
   */
  ghost predicate Right(g: Graph, f: Key, w: Stack) {
    match w
    case Unbounded => exists p :: From(g, f, p) && Bad(g, p)
    case Bytes(n) =>
      && (forall p :: From(g, f, p) ==> !Bad(g, p) && Cost(g, p) <= n)
      && (exists p :: From(g, f, p) && Cost(g, p) == n)
  }

  /** The figure depends on the graph alone, so on no order of visiting. */
  lemma RightUnique(g: Graph, f: Key, a: Stack, b: Stack)
    requires Right(g, f, a) && Right(g, f, b)
    ensures a == b
  {
    if a.Bytes? && b.Bytes? {
      var p :| From(g, f, p) && Cost(g, p) == a.n;
      var q :| From(g, f, q) && Cost(g, q) == b.n;
      assert Cost(g, p) <= b.n && Cost(g, q) <= a.n;
    }
  }

  /** Some call that `f` makes, at any depth, names a function nobody knows. */
  ghost predicate Names(g: Graph, f: Key, u: string) {
    exists p :: From(g, f, p) && NamesAt(g, p, u)
  }

  ghost predicate NamesAt(g: Graph, p: seq<Key>, u: string)
    requires Path(g, p)
  {
    LastKnown(g, p);
    u in Unresolved(g, Last(p))
  }

  // ------------------------------------------------------------------ lengthening paths

  lemma Prepend(g: Graph, f: Key, c: Key, p: seq<Key>)
    requires f in g && c in Callees(g, f) && From(g, c, p)
    ensures From(g, f, [f] + p) && Cost(g, [f] + p) == g[f].local + Cost(g, p) && Last([f] + p) == Last(p)
    ensures Bad(g, p) ==> Bad(g, [f] + p)
    ensures forall u :: NamesAt(g, p, u) ==> NamesAt(g, [f] + p, u)
  {
    hide Callees;
    assert ([f] + p)[1..] == p;
    assert forall k :: k in p[..|p| - 1] ==> k in ([f] + p)[..|p|] by {
      assert ([f] + p)[..|p|] == [f] + p[..|p| - 1];
    }
  }

  lemma {:induction false} Append(g: Graph, p: seq<Key>, c: Key)
    requires Path(g, p)
    requires Last(p) in g && c in Callees(g, Last(p))
    ensures Path(g, p + [c])
  {
    hide Callees;
    if |p| == 1 {
      CalleeKnown(g, p[0], c);
      assert (p + [c])[1..] == [c];
    } else {
      Append(g, p[1..], c);
      assert (p + [c])[1..] == p[1..] + [c];
    }
  }

  lemma {:induction false} Suffix(g: Graph, p: seq<Key>, i: nat)
    requires Path(g, p) && i < |p|
    ensures Path(g, p[i..])
  {
    hide Callees;
    if i > 0 {
      Suffix(g, p[1..], i - 1);
      assert p[1..][i - 1..] == p[i..];
    } else {
      assert p[0..] == p;
    }
  }

  lemma Alone(g: Graph, f: Key)
    requires f in g
    ensures From(g, f, [f]) && Cost(g, [f]) == g[f].local && Last([f]) == f
    ensures Bad(g, [f]) <==> g[f].ptrCall
    ensures forall u :: NamesAt(g, [f], u) <==> u in Unresolved(g, f)
  {
    hide Callees, Unresolved;
  }

  // ------------------------------------------------------------------ one figure from those of the callees

  lemma RightPointer(g: Graph, f: Key)
    requires f in g && g[f].ptrCall
    ensures Right(g, f, Unbounded)
  {
    hide Path, Bad, Cost;
    Alone(g, f);
  }

  lemma RightCallee(g: Graph, f: Key, c: Key)
    requires f in g && c in Callees(g, f) && Right(g, c, Unbounded)
    ensures Right(g, f, Unbounded)
  {
    hide Path, Bad, Cost, Callees;
    var p :| From(g, c, p) && Bad(g, p);
    Prepend(g, f, c, p);
  }

  /** A function met again among the callers still being computed. */
  lemma RightCycle(g: Graph, f: Key, parents: seq<Key>)
    requires f in parents && Path(g, parents + [f])
    ensures Right(g, f, Unbounded)
  {
    hide Path, Callees;
    var i :| 0 <= i < |parents| && parents[i] == f;
    var p := parents[i..] + [f];
    Suffix(g, parents + [f], i);
    assert (parents + [f])[i..] == p;
    assert p[..|p| - 1][0] == f;
    assert From(g, f, p) && Bad(g, p);
  }

  /** A path that comes back to the caller goes on to the callee it began with. */
  lemma Around(g: Graph, f: Key, c: Key, q: seq<Key>)
    requires f in g && c in Callees(g, f) && From(g, c, q) && Last(q) == f
    ensures exists r :: From(g, c, r) && Bad(g, r)
  {
    hide Callees;
    Append(g, q, c);
    assert (q + [c])[..|q|][0] == c;
    assert From(g, c, q + [c]) && Bad(g, q + [c]);
  }

  /** No path from a function is bad when none from its callees is: a path back to it would go round from the callee. */
  lemma NotBad(g: Graph, f: Key, p: seq<Key>)
    requires From(g, f, p) && !g[f].ptrCall
    requires forall c, q :: c in Callees(g, f) && From(g, c, q) ==> !Bad(g, q)
    ensures !Bad(g, p)
  {
    hide Callees;
    if |p| > 1 {
      var q, c := p[1..], p[1];
      assert From(g, c, q) && !Bad(g, q);
      assert Last(q) == Last(p);
      if Last(p) in p[..|p| - 1] {
        assert p[..|p| - 1] == [f] + q[..|q| - 1];
        Around(g, f, c, q);
      }
    }
  }

  lemma RightBytes(g: Graph, f: Key, wcs: map<Key, Stack>, top: nat)
    requires f in g && !g[f].ptrCall
    requires forall c :: c in Callees(g, f) ==> c in wcs && wcs[c].Bytes? && wcs[c].n <= top && Right(g, c, wcs[c])
    requires top == 0 || exists c :: c in Callees(g, f) && wcs[c] == Bytes(top)
    ensures Right(g, f, Bytes(top + g[f].local))
  {
    hide Callees, Bad;
    Alone(g, f);
    forall p | From(g, f, p)
      ensures !Bad(g, p) && Cost(g, p) <= top + g[f].local
    {
      NotBad(g, f, p);
      if |p| > 1 {
        assert From(g, p[1], p[1..]);
      }
    }
    if top == 0 {
      assert From(g, f, [f]) && Cost(g, [f]) == g[f].local;
    } else {
      var c :| c in Callees(g, f) && wcs[c] == Bytes(top);
      var p :| From(g, c, p) && Cost(g, p) == top;
      Prepend(g, f, c, p);
      assert From(g, f, [f] + p) && Cost(g, [f] + p) == top + g[f].local;
    }
  }

  lemma NamesCallee(g: Graph, f: Key, c: Key, u: string)
    requires f in g && c in Callees(g, f) && Names(g, c, u)
    ensures Names(g, f, u)
  {
    hide Callees, Path, NamesAt;
    var p :| From(g, c, p) && NamesAt(g, p, u);
    Prepend(g, f, c, p);
    assert From(g, f, [f] + p) && NamesAt(g, [f] + p, u);
  }

  lemma NamesSplit(g: Graph, f: Key, u: string)
    requires f in g && Names(g, f, u)
    ensures u in Unresolved(g, f) || exists c :: c in Callees(g, f) && Names(g, c, u)
  {
    hide Callees, Unresolved;
    var p :| From(g, f, p) && NamesAt(g, p, u);
    if |p| > 1 {
      assert From(g, p[1], p[1..]) && Last(p[1..]) == Last(p);
      assert NamesAt(g, p[1..], u);
      assert Names(g, p[1], u);
    }
  }

  lemma NamesOwn(g: Graph, f: Key, u: string)
    requires f in g && u in Unresolved(g, f)
    ensures Names(g, f, u)
  {
    hide Unresolved;
    Alone(g, f);
    assert From(g, f, [f]) && NamesAt(g, [f], u);
  }

  // ------------------------------------------------------------------ the search

  ghost predicate Distinct(s: seq<Key>) {
    forall i, j :: 0 <= i < j < |s| ==> s[i] != s[j]
  }

  lemma {:induction false} DistinctFits(s: seq<Key>, keys: set<Key>)
    requires Distinct(s) && forall k :: k in s ==> k in keys
    ensures |s| <= |keys|
  {
    if s != [] {
      var rest := s[..|s| - 1];
      var last := s[|s| - 1];
      assert forall k :: k in rest ==> k in s;
      assert last in s;
      DistinctFits(rest, keys - {last});
    }
  }

  /** The callers still being computed: a path without repetition that ends in a caller of `f`. */
  ghost predicate Waiting(g: Graph, parents: seq<Key>, f: Key) {
    Distinct(parents) && (forall k :: k in parents ==> k in g) && Path(g, parents + [f])
  }

  lemma Deeper(g: Graph, parents: seq<Key>, f: Key, c: Key)
    requires Waiting(g, parents, f) && f in g && f !in parents && c in Callees(g, f)
    ensures Waiting(g, parents + [f], c)
    ensures |parents| < |g|
  {
    hide Callees, Path;
    Append(g, parents + [f], c);
    DistinctFits(parents + [f], g.Keys);
  }

  /** All figures known so far are right; unresolved names are real, and complete where the figure is a number. */
  ghost predicate Sound(g: Graph, wcs: map<Key, Stack>, names: map<Key, set<string>>) {
    && names.Keys == g.Keys
    && (forall f :: f in wcs ==> f in g && Right(g, f, wcs[f]))
    && (forall f, u :: f in g && u in names[f] ==> Names(g, f, u))
    && (forall f, u :: f in g && u in Unresolved(g, f) ==> u in names[f])
    && (forall f, u :: f in wcs && wcs[f].Bytes? && Names(g, f, u) ==> u in names[f])
  }

  /** Figures once known stay, and names are only added. */
  ghost predicate Grown(wcs: map<Key, Stack>, names: map<Key, set<string>>, wcs': map<Key, Stack>,
      names': map<Key, set<string>>) {
    && names.Keys == names'.Keys
    && (forall f :: f in wcs ==> f in wcs' && wcs'[f] == wcs[f])
    && (forall f, u :: f in names && u in names[f] ==> u in names'[f])
  }

  lemma GrownTwice(w0: map<Key, Stack>, n0: map<Key, set<string>>, w1: map<Key, Stack>, n1: map<Key, set<string>>,
                   w2: map<Key, Stack>, n2: map<Key, set<string>>)
    requires Grown(w0, n0, w1, n1) && Grown(w1, n1, w2, n2)
    ensures Grown(w0, n0, w2, n2)
  {
  }

  /** Writing a right figure. */
  lemma Settled(g: Graph, wcs: map<Key, Stack>, names: map<Key, set<string>>, f: Key, w: Stack)
    requires Sound(g, wcs, names) && f in g && Right(g, f, w)
    requires w.Bytes? ==> forall u :: Names(g, f, u) ==> u in names[f]
    ensures Sound(g, wcs[f := w], names) && Grown(wcs, names, wcs[f := w], names)
  {
    hide Right, Names, Unresolved;
    if f in wcs {
      RightUnique(g, f, wcs[f], w);
    }
  }

  /** Adding the names of a callee. */
  lemma NamesAdded(g: Graph, wcs: map<Key, Stack>, names: map<Key, set<string>>, f: Key, c: Key)
    requires Sound(g, wcs, names) && f in g && c in g && c in Callees(g, f)
    ensures Sound(g, wcs, names[f := names[f] + names[c]]) && Grown(wcs, names, wcs, names[f := names[f] + names[c]])
  {
    hide Right, Names, Unresolved, Callees;
    forall u | u in names[c]
      ensures Names(g, f, u)
    {
      NamesCallee(g, f, c, u);
    }
  }

  /** The callees looked at so far: all bounded, their names taken over, and the greatest figure among them. */
  ghost predicate Taken(g: Graph, callees: seq<Key>, i: nat, wcs: map<Key, Stack>, names: map<Key, set<string>>,
                        f: Key, top: nat)
    requires i <= |callees|
  {
    && f in names
    && (forall j :: 0 <= j < i ==> callees[j] in wcs && wcs[callees[j]].Bytes? && wcs[callees[j]].n <= top)
    && (forall j, u :: 0 <= j < i && Names(g, callees[j], u) ==> u in names[f])
    && (top == 0 || exists j :: 0 <= j < i && wcs[callees[j]] == Bytes(top))
  }

  lemma TakenGrown(g: Graph, callees: seq<Key>, i: nat, w0: map<Key, Stack>, n0: map<Key, set<string>>,
                   w1: map<Key, Stack>, n1: map<Key, set<string>>, f: Key, top: nat)
    requires i <= |callees| && Taken(g, callees, i, w0, n0, f, top) && Grown(w0, n0, w1, n1)
    ensures Taken(g, callees, i, w1, n1, f, top)
  {
    hide Names;
  }

  lemma TakenNext(g: Graph, callees: seq<Key>, i: nat, wcs: map<Key, Stack>, names: map<Key, set<string>>, f: Key,
      top: nat)
    requires i < |callees| && Taken(g, callees, i, wcs, names, f, top) && Sound(g, wcs, names)
    requires callees[i] in wcs && wcs[callees[i]].Bytes?
    ensures var c := callees[i];
            c in names
            && Taken(g, callees, i + 1, wcs, names[f := names[f] + names[c]], f,
                     if wcs[c].n > top then wcs[c].n else top)
  {
    hide Names, Right, Unresolved;
  }

  /** When every callee is bounded the figure is the greatest of theirs and the local stack, and all names are in. */
  lemma TakenAll(g: Graph, f: Key, wcs: map<Key, Stack>, names: map<Key, set<string>>, top: nat)
    requires f in g && !g[f].ptrCall && Sound(g, wcs, names)
    requires Taken(g, Callees(g, f), |Callees(g, f)|, wcs, names, f, top)
    ensures Right(g, f, Bytes(top + g[f].local)) && f in names
    ensures forall u :: Names(g, f, u) ==> u in names[f]
  {
    hide Names, Right, Unresolved, Callees;
    RightBytes(g, f, wcs, top);
    forall u | Names(g, f, u)
      ensures u in names[f]
    {
      NamesSplit(g, f, u);
    }
  }

  lemma TakenNone(g: Graph, callees: seq<Key>, wcs: map<Key, Stack>, names: map<Key, set<string>>, f: Key)
    requires f in g && Sound(g, wcs, names)
    ensures Taken(g, callees, 0, wcs, names, f, 0)
  {
    hide Names, Right, Unresolved;
  }

  lemma GrownNot(wcs: map<Key, Stack>, names: map<Key, set<string>>)
    ensures Grown(wcs, names, wcs, names)
  {
  }

  lemma Kept(w0: map<Key, Stack>, n0: map<Key, set<string>>, w1: map<Key, Stack>, n1: map<Key, set<string>>)
    requires Grown(w0, n0, w1, n1)
    ensures forall f :: f in w0 ==> f in w1
  {
  }

  lemma Met(g: Graph, f: Key, parents: seq<Key>)
    requires f in parents && Waiting(g, parents, f)
    ensures Right(g, f, Unbounded)
  {
    hide Right, Path;
    RightCycle(g, f, parents);
  }

  lemma FigureIs(g: Graph, wcs: map<Key, Stack>, names: map<Key, set<string>>, f: Key)
    requires f in wcs && Sound(g, wcs, names)
    ensures Right(g, f, wcs[f])
  {
    hide Right, Names, Unresolved;
  }

  lemma First(g: Graph, f: Key)
    requires f in g
    ensures Waiting(g, [], f)
  {
    assert [] + [f] == [f];
  }

  /** Functions that call nothing, as those entered by hand do. */
  ghost predicate Leaves(g: Graph, manual: set<Key>) {
    forall f :: f in manual ==> f in g && g[f].calls == [] && !g[f].ptrCall
  }

  lemma LeafRight(g: Graph, f: Key)
    requires f in g && g[f].calls == [] && !g[f].ptrCall
    ensures Right(g, f, Bytes(g[f].local)) && forall u :: !Names(g, f, u)
  {
    RightBytes(g, f, map[], 0);
    forall u
      ensures !Names(g, f, u)
    {
      if Names(g, f, u) {
        NamesSplit(g, f, u);
      }
    }
  }

  /** Before the search only the entries made by hand have a figure, and it is right. */
  lemma Begun(g: Graph, manual: set<Key>, wcs: map<Key, Stack>, names: map<Key, set<string>>)
    requires names.Keys == g.Keys && forall f :: f in g ==> names[f] == Unresolved(g, f)
    requires Leaves(g, manual) && wcs == map f | f in manual :: Bytes(g[f].local)
    ensures Sound(g, wcs, names)
  {
    hide Right, Names, Unresolved;
    forall f | f in wcs
      ensures Right(g, f, wcs[f]) && forall u :: !Names(g, f, u)
    {
      LeafRight(g, f);
    }
    forall f, u | f in g && u in names[f]
      ensures Names(g, f, u)
    {
      NamesOwn(g, f, u);
    }
  }

  class Analyzer {
    const fns: Graph
    const manual: set<Key>
    var rCalls: map<Key, seq<Key>>
    var names: map<Key, set<string>>
    var wcs: map<Key, Stack>
    var parents: seq<Key>

    /** Manual entries come with their figure, which is their local stack; they call nothing. */
    constructor (fns: Graph, manual: set<Key>)
      requires Leaves(fns, manual)
      ensures this.fns == fns && this.manual == manual && Ready()
    {
      this.fns, this.manual := fns, manual;
      rCalls, names, parents := map[], map[], [];
      wcs := map f | f in manual :: Bytes(fns[f].local);
    }

    /** Nothing computed yet. */
    ghost predicate Ready()
      reads this
    {
      Leaves(fns, manual) && parents == [] && wcs == map f | f in manual :: Bytes(fns[f].local)
    }

    ghost predicate Resolved()
      reads this
    {
      && rCalls.Keys == fns.Keys
      && (forall f :: f in fns ==> rCalls[f] == Callees(fns, f))
    }

    /** One function: known callees in the order of its calls, and the names nobody knows. */
    method ResolveCalls(f: Key)
      requires f in fns
      modifies `rCalls, `names
      ensures rCalls == old(rCalls)[f := Callees(fns, f)] && names == old(names)[f := Unresolved(fns, f)]
    {
      var known, missing := Split(fns[f].unit, fns[f].calls);
      rCalls := rCalls[f := known];
      names := names[f := missing];
    }

    method Split(unit: string, calls: seq<string>) returns (known: seq<Key>, missing: set<string>)
      ensures known == Found(fns, unit, calls) && missing == Missing(fns, unit, calls)
    {
      hide FindFxn, Found, Missing;
      known, missing := [], {};
      assert calls[0..] == calls;
      for i := 0 to |calls|
        invariant Found(fns, unit, calls) == known + Found(fns, unit, calls[i..])
        invariant Missing(fns, unit, calls) == missing + Missing(fns, unit, calls[i..])
      {
        FoundNext(fns, unit, calls, i);
        match FindFxn(fns, unit, calls[i])
        case Some(k) =>
          Regroup(known, [k], Found(fns, unit, calls[i + 1..]));
          known := known + [k];
        case None =>
          missing := missing + {calls[i]};
      }
      NoneLeft(fns, unit, calls);
    }

    method ResolveAllCalls()
      modifies `rCalls, `names
      ensures Resolved()
      ensures names.Keys == fns.Keys && forall f :: f in fns ==> names[f] == Unresolved(fns, f)
    {
      rCalls, names := map[], map[];
      var todo := fns.Keys;
      while todo != {}
        invariant todo <= fns.Keys && rCalls.Keys == names.Keys == fns.Keys - todo
        invariant forall f :: f in fns.Keys - todo ==> rCalls[f] == Callees(fns, f) && names[f] == Unresolved(fns, f)
        decreases todo
      {
        var f :| f in todo;
        ResolveCalls(f);
        todo := todo - {f};
      }
    }

    /** The figure of `f`, unless it is known already; `parents` are the functions whose computation waits for this
        one. */
    method CalcWcs(f: Key)
      requires f in fns && Resolved() && Sound(fns, wcs, names) && Waiting(fns, parents, f)
      modifies `wcs, `names, `parents
      ensures Sound(fns, wcs, names) && Grown(old(wcs), old(names), wcs, names) && parents == old(parents)
      ensures f in wcs
      decreases |fns| - |parents|
    {
      hide Sound, Grown, Waiting, Right, Callees, Taken, Unresolved;
      GrownNot(wcs, names);
      if f in wcs {
        return;
      }
      if fns[f].ptrCall {
        RightPointer(fns, f);
        Set(f, Unbounded);
        return;
      }
      if f in parents {
        Met(fns, f, parents);
        Set(f, Unbounded);
        return;
      }
      var top: nat, callees := 0, rCalls[f];
      TakenNone(fns, callees, wcs, names, f);
      for i := 0 to |callees|
        invariant parents == old(parents) && Sound(fns, wcs, names) && Grown(old(wcs), old(names), wcs, names)
        invariant Taken(fns, callees, i, wcs, names, f, top)
      {
        var c := callees[i];
        ghost var w0, n0 := wcs, names;
        CalleeKnown(fns, f, c);
        Deeper(fns, parents, f, c);
        parents := parents + [f];
        CalcWcs(c);
        parents := parents[..|parents| - 1];
        GrownTwice(old(wcs), old(names), w0, n0, wcs, names);
        TakenGrown(fns, callees, i, w0, n0, wcs, names, f, top);
        if wcs[c] == Unbounded {
          FigureIs(fns, wcs, names, c);
          RightCallee(fns, f, c);
          w0, n0 := wcs, names;
          Set(f, Unbounded);
          GrownTwice(old(wcs), old(names), w0, n0, wcs, names);
          return;
        }
        TakenNext(fns, callees, i, wcs, names, f, top);
        if wcs[c].n > top {
          top := wcs[c].n;
        }
        w0, n0 := wcs, names;
        Propagate(f, c);
        GrownTwice(old(wcs), old(names), w0, n0, wcs, names);
      }
      TakenAll(fns, f, wcs, names, top);
      ghost var w0, n0 := wcs, names;
      Set(f, Bytes(top + fns[f].local));
      GrownTwice(old(wcs), old(names), w0, n0, wcs, names);
    }

    method Set(f: Key, w: Stack)
      requires Sound(fns, wcs, names) && f in fns && Right(fns, f, w)
      requires w.Bytes? ==> f in names && forall u :: Names(fns, f, u) ==> u in names[f]
      modifies `wcs
      ensures wcs == old(wcs)[f := w] && Sound(fns, wcs, names) && Grown(old(wcs), names, wcs, names)
    {
      hide Sound, Grown, Right, Names;
      Settled(fns, wcs, names, f, w);
      wcs := wcs[f := w];
    }

    method Propagate(f: Key, c: Key)
      requires Sound(fns, wcs, names) && f in fns && c in fns && c in Callees(fns, f)
      modifies `names
      ensures names == old(names)[f := old(names)[f] + old(names)[c]]
      ensures Sound(fns, wcs, names) && Grown(wcs, old(names), wcs, names)
    {
      NamesAdded(fns, wcs, names, f, c);
      names := names[f := names[f] + names[c]];
    }

    /** Every function gets its right figure, and those with a number their complete set of unresolved names. */
    method CalcAllWcs()
      requires Resolved() && Sound(fns, wcs, names) && parents == []
      modifies `wcs, `names, `parents
      ensures wcs.Keys == fns.Keys && forall f :: f in fns ==> Right(fns, f, wcs[f])
      ensures names.Keys == fns.Keys
      ensures forall f, u :: f in fns && u in names[f] ==> Names(fns, f, u)
      ensures forall f, u :: f in fns && wcs[f].Bytes? && Names(fns, f, u) ==> u in names[f]
    {
      hide Grown, Right, Callees, Unresolved, Names, Waiting;
      var todo := fns.Keys;
      while todo != {}
        invariant todo <= fns.Keys && Sound(fns, wcs, names) && parents == []
        invariant forall f :: f in fns.Keys - todo ==> f in wcs
        decreases todo
      {
        var f :| f in todo;
        First(fns, f);
        ghost var w0, n0 := wcs, names;
        CalcWcs(f);
        Kept(w0, n0, wcs, names);
        todo := todo - {f};
      }
    }

    /** The whole analysis. */
    method Analyze()
      requires Ready()
      modifies this
      ensures wcs.Keys == fns.Keys == names.Keys && forall f :: f in fns ==> Right(fns, f, wcs[f])
      ensures forall f, u :: f in fns && wcs[f].Bytes? ==> (u in names[f] <==> Names(fns, f, u))
    {
      ResolveAllCalls();
      Begun(fns, manual, wcs, names);
      CalcAllWcs();
    }
  }
}
