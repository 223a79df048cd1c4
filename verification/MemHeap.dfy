/**
 The memory heap of rt-thread/src/memheap.c: a pool of blocks with a header each, on two rings. All
 blocks and the used tail are on one, in order of address; the free ones and a header are on the other.
 Blocks and what allocation, release and shrinking do to a row of them are those of SmallMem.
 */
module MemHeap {
  import opened Basics
  import opened SmallMem

  // ------------------------------------------------------------------ rings

  datatype Link = Link(next: int, prev: int)

  /** The free list header lies outside the pool. */
  const HEAD: int := -1

  function After(s: seq<int>, i: nat): int
    requires i < |s|
  {
    if i + 1 < |s| then s[i + 1] else s[0]
  }

  function Before(s: seq<int>, i: nat): int
    requires i < |s|
  {
    if i > 0 then s[i - 1] else s[|s| - 1]
  }

  predicate OnRing(l: map<int, Link>, s: seq<int>, i: nat)
    requires i < |s|
  {
    s[i] in l && l[s[i]] == Link(After(s, i), Before(s, i))
  }

  ghost predicate Distinct(s: seq<int>) {
    forall i, j :: 0 <= i < j < |s| ==> s[i] != s[j]
  }

  /** The links go round the sequence both ways. */
  ghost predicate Ring(l: map<int, Link>, s: seq<int>) {
    s != [] && Distinct(s) && forall i :: 0 <= i < |s| ==> OnRing(l, s, i)
  }

  function InsertAfter(l: map<int, Link>, a: int, x: int): map<int, Link>
    requires a in l && l[a].next in l && x != a && x != l[a].next
  {
    var n := l[a].next;
    var first := l[x := Link(n, a)];
    var second := first[n := first[n].(prev := x)];
    second[a := second[a].(next := x)]
  }

  function Remove(l: map<int, Link>, x: int): map<int, Link>
    requires x in l && l[x].next in l && l[x].prev in l && l[x].next != x && l[x].prev != x
  {
    var n, p := l[x].next, l[x].prev;
    var first := l[n := l[n].(prev := p)];
    var second := first[p := first[p].(next := n)];
    second - {x}
  }

  function Inserted(s: seq<int>, i: nat, x: int): seq<int>
    requires i < |s|
  {
    s[..i + 1] + [x] + s[i + 1..]
  }

  function Removed(s: seq<int>, i: nat): seq<int>
    requires i < |s|
  {
    s[..i] + s[i + 1..]
  }

  lemma InsertedAt(s: seq<int>, i: nat, x: int)
    requires i < |s|
    ensures var t := Inserted(s, i, x);
            && |t| == |s| + 1 && t[i + 1] == x
            && (forall j :: 0 <= j <= i ==> t[j] == s[j]) && (forall j :: i + 1 < j < |t| ==> t[j] == s[j - 1])
  {
  }

  lemma RemovedAt(s: seq<int>, i: nat)
    requires i < |s|
    ensures var t := Removed(s, i);
            && |t| == |s| - 1
            && (forall j :: 0 <= j < i ==> t[j] == s[j]) && (forall j :: i <= j < |t| ==> t[j] == s[j + 1])
  {
  }

  lemma RingInsert(l: map<int, Link>, s: seq<int>, i: nat, x: int)
    requires Ring(l, s) && i < |s| && x !in s
    ensures OnRing(l, s, i) && After(s, i) in l && Ring(InsertAfter(l, s[i], x), Inserted(s, i, x))
  {
    assert OnRing(l, s, i);
    assert OnRing(l, s, if i + 1 < |s| then i + 1 else 0);
    var t, m := Inserted(s, i, x), InsertAfter(l, s[i], x);
    InsertedAt(s, i, x);
    hide Inserted;
    assert Distinct(t) by {
      assert forall j :: 0 <= j < |s| ==> s[j] != x;
    }
    forall j | 0 <= j < |t|
      ensures OnRing(m, t, j)
    {
      if j <= i {
        assert OnRing(l, s, j);
      } else if j > i + 1 {
        assert OnRing(l, s, j - 1);
      }
    }
  }

  lemma RingRemove(l: map<int, Link>, s: seq<int>, i: nat)
    requires Ring(l, s) && 0 < i < |s|
    ensures OnRing(l, s, i) && After(s, i) in l && Before(s, i) in l && After(s, i) != s[i] && Before(s, i) != s[i]
    ensures Ring(Remove(l, s[i]), Removed(s, i))
  {
    assert OnRing(l, s, i) && OnRing(l, s, i - 1);
    assert OnRing(l, s, if i + 1 < |s| then i + 1 else 0);
    var t, m := Removed(s, i), Remove(l, s[i]);
    RemovedAt(s, i);
    hide Removed;
    assert Distinct(t);
    forall j | 0 <= j < |t|
      ensures OnRing(m, t, j)
    {
      if j < i {
        assert OnRing(l, s, j);
      } else {
        assert OnRing(l, s, j + 1);
      }
    }
  }

  // ------------------------------------------------------------------ blocks and their addresses

  function Starts(h: seq<Block>): (s: seq<int>)
    ensures |s| == |h| && forall i :: 0 <= i < |h| ==> s[i] == h[i].start
  {
    seq(|h|, i requires 0 <= i < |h| => h[i].start)
  }

  /** The addresses of the free blocks. */
  function FreeSet(h: seq<Block>): set<int> {
    if h == [] then {} else (if h[0].used then {} else {h[0].start}) + FreeSet(h[1..])
  }

  /** The payload bytes of the free blocks. */
  function Spare(h: seq<Block>, header: nat): int {
    if h == [] then 0 else (if h[0].used then 0 else h[0].size - header) + Spare(h[1..], header)
  }

  function Members(s: seq<int>): set<int> {
    set p | p in s
  }

  lemma {:induction false} FreeJoin(a: seq<Block>, b: seq<Block>)
    ensures FreeSet(a + b) == FreeSet(a) + FreeSet(b)
  {
    if a == [] {
      assert a + b == b;
    } else {
      FreeJoin(a[1..], b);
      assert (a + b)[1..] == a[1..] + b;
    }
  }

  lemma {:induction false} SpareJoin(a: seq<Block>, b: seq<Block>, header: nat)
    ensures Spare(a + b, header) == Spare(a, header) + Spare(b, header)
  {
    if a == [] {
      assert a + b == b;
    } else {
      SpareJoin(a[1..], b, header);
      assert (a + b)[1..] == a[1..] + b;
    }
  }

  lemma {:induction false} FreeIs(h: seq<Block>, p: int)
    ensures p in FreeSet(h) <==> exists i :: 0 <= i < |h| && !h[i].used && h[i].start == p
  {
    if h != [] {
      var rest := h[1..];
      FreeIs(rest, p);
      if p in FreeSet(rest) {
        var i :| 0 <= i < |rest| && !rest[i].used && rest[i].start == p;
        assert h[i + 1] == rest[i];
      }
      if i :| 0 < i < |h| && !h[i].used && h[i].start == p {
        assert rest[i - 1] == h[i];
      }
    }
  }

  lemma {:induction false} SpareAtLeast(h: seq<Block>, header: nat, k: nat)
    requires k < |h| && !h[k].used && forall i :: 0 <= i < |h| ==> h[i].size >= header
    ensures h[k].size - header <= Spare(h, header)
  {
    SpareNat(h[1..], header);
    if k > 0 {
      SpareAtLeast(h[1..], header, k - 1);
    }
  }

  lemma {:induction false} SpareNat(h: seq<Block>, header: nat)
    requires forall i :: 0 <= i < |h| ==> h[i].size >= header
    ensures Spare(h, header) >= 0
  {
    if h != [] {
      SpareNat(h[1..], header);
    }
  }

  lemma SpareSplice(h: seq<Block>, header: nat, k: nat, n: nat, mid: seq<Block>)
    requires k + n <= |h|
    ensures Spare(Splice(h, k, n, mid), header) == Spare(h, header) - Spare(h[k..k + n], header) + Spare(mid, header)
  {
    hide Spare;
    var a, x, b := h[..k], h[k..k + n], h[k + n..];
    assert h == a + x + b;
    SpareJoin(a + x, b, header);
    SpareJoin(a, x, header);
    SpareJoin(a + mid, b, header);
    SpareJoin(a, mid, header);
  }

  lemma FreeSplice(h: seq<Block>, to: nat, header: nat, k: nat, n: nat, mid: seq<Block>)
    requires header > 0 && Run(h, 0, to, header) && k + n <= |h|
    ensures FreeSet(Splice(h, k, n, mid)) == FreeSet(h) - FreeSet(h[k..k + n]) + FreeSet(mid)
  {
    hide FreeSet, Run;
    var a, x, b := h[..k], h[k..k + n], h[k + n..];
    assert h == a + x + b;
    FreeJoin(a + x, b);
    FreeJoin(a, x);
    FreeJoin(a + mid, b);
    FreeJoin(a, mid);
    forall p | p in FreeSet(x)
      ensures p !in FreeSet(a) && p !in FreeSet(b)
    {
      FreeApart(h, to, header, k, n, p);
    }
  }

  lemma FreeApart(h: seq<Block>, to: nat, header: nat, k: nat, n: nat, p: int)
    requires header > 0 && Run(h, 0, to, header) && k + n <= |h| && p in FreeSet(h[k..k + n])
    ensures p !in FreeSet(h[..k]) && p !in FreeSet(h[k + n..])
  {
    RunSplit(h, 0, to, header, k);
    RunSplit(h, 0, to, header, k + n);
    var from, mid := StartAt(h, k, to), StartAt(h, k + n, to);
    RunSplit(h[..k + n], 0, mid, header, k);
    assert h[..k + n][k..] == h[k..k + n] && StartAt(h[..k + n], k, mid) == from;
    hide Run, FreeSet, StartAt;
    FreeWithin(h[..k], 0, from, header, p);
    FreeWithin(h[k..k + n], from, mid, header, p);
    FreeWithin(h[k + n..], mid, to, header, p);
  }

  lemma {:induction false} FreeWithin(h: seq<Block>, from: nat, to: nat, header: nat, p: int)
    requires header > 0 && Run(h, from, to, header)
    ensures from <= to && (p in FreeSet(h) ==> from <= p < to)
  {
    if h != [] {
      FreeWithin(h[1..], from + h[0].size, to, header, p);
    }
  }

  // ------------------------------------------------------------------ the two rings and the blocks

  ghost predicate Marked(used: map<int, bool>, h: seq<Block>, tail: int) {
    && tail in used && used[tail]
    && forall i :: 0 <= i < |h| ==> h[i].start in used && used[h[i].start] == h[i].used
  }

  /** The ring of all blocks goes through them in order of address, and then through the tail. */
  ghost predicate Addressed(c: Config, h: seq<Block>, tail: nat, used: map<int, bool>, ring: map<int, Link>)
    requires Good(c)
  {
    Row(c, h, tail) && Ring(ring, Starts(h) + [tail]) && Marked(used, h, tail)
  }

  ghost predicate Freed(free: map<int, Link>, order: seq<int>) {
    Ring(free, [HEAD] + order)
  }

  /** What the header of block `k` says. */
  lemma HeaderSays(c: Config, h: seq<Block>, tail: nat, used: map<int, bool>, ring: map<int, Link>, k: nat)
    requires Good(c) && Addressed(c, h, tail, used, ring) && k < |h|
    ensures var p, next, prev := h[k].start, StartAt(h, k + 1, tail), if k > 0 then h[k - 1].start else tail;
            && p in ring && ring[p] == Link(next, prev) && next in ring && prev in ring
            && p in used && used[p] == h[k].used
            && next in used && used[next] == (if k + 1 < |h| then h[k + 1].used else true)
            && prev in used && used[prev] == (if k > 0 then h[k - 1].used else true)
            && next == p + h[k].size && p + c.header <= next <= tail
    ensures c.header > 0
  {
    var s := Starts(h) + [tail];
    assert OnRing(ring, s, k);
    assert OnRing(ring, s, k + 1);
    assert OnRing(ring, s, if k > 0 then k - 1 else |h|);
    RunOrdered(h, 0, tail, c.header);
  }

  /** Any free block has an index. */
  lemma FreeIndex(h: seq<Block>, p: int) returns (k: nat)
    requires p in FreeSet(h)
    ensures k < |h| && !h[k].used && h[k].start == p
  {
    FreeIs(h, p);
    k :| 0 <= k < |h| && !h[k].used && h[k].start == p;
  }

  // ------------------------------------------------------------------ one block cut, one taken over, one marked

  function CutRow(c: Config, h: seq<Block>, k: nat, size: nat): seq<Block>
    requires k < |h| && h[k].size >= c.header + size
  {
    Splice(h, k, 1, CutAs(c, h[k], size))
  }

  /** Block `k` takes over the one behind it. */
  function Absorbed(h: seq<Block>, k: nat): seq<Block>
    requires k + 1 < |h|
  {
    Splice(h, k, 2, [Block(h[k].start, h[k].size + h[k + 1].size, h[k].used)])
  }

  function MarkedAs(h: seq<Block>, k: nat, mark: bool): seq<Block>
    requires k < |h|
  {
    Splice(h, k, 1, [h[k].(used := mark)])
  }

  lemma CutStarts(c: Config, h: seq<Block>, tail: int, k: nat, size: nat)
    requires k < |h| && h[k].size >= c.header + size
    ensures Starts(CutRow(c, h, k, size)) + [tail] == Inserted(Starts(h) + [tail], k, h[k].start + c.header + size)
  {
    SpliceAt(h, k, 1, CutAs(c, h[k], size));
    hide Splice;
    InsertedAt(Starts(h) + [tail], k, h[k].start + c.header + size);
  }

  lemma AbsorbedStarts(h: seq<Block>, tail: int, k: nat)
    requires k + 1 < |h|
    ensures Starts(Absorbed(h, k)) + [tail] == Removed(Starts(h) + [tail], k + 1)
  {
    SpliceAt(h, k, 2, [Block(h[k].start, h[k].size + h[k + 1].size, h[k].used)]);
    hide Splice;
    RemovedAt(Starts(h) + [tail], k + 1);
  }

  lemma CutFree(c: Config, h: seq<Block>, tail: nat, k: nat, size: nat)
    requires c.header > 0 && Run(h, 0, tail, c.header) && k < |h| && h[k].size >= c.header + size
    ensures var p2, g := h[k].start + c.header + size, CutRow(c, h, k, size);
            && FreeSet(g) == FreeSet(h) + {p2}
            && Spare(g, c.header) == Spare(h, c.header) +
               if h[k].used then h[k].size - size - 2 * c.header else 0 - c.header
  {
    var mid := CutAs(c, h[k], size);
    FreeSplice(h, tail, c.header, k, 1, mid);
    SpareSplice(h, c.header, k, 1, mid);
    hide Splice, Run, FreeSet, Spare;
    assert h[k..k + 1] == [h[k]];
    One(h[k], c.header);
    assert mid == [mid[0]] + [mid[1]];
    One(mid[0], c.header);
    One(mid[1], c.header);
    FreeJoin([mid[0]], [mid[1]]);
    SpareJoin([mid[0]], [mid[1]], c.header);
    if !h[k].used {
      FreeIs(h, h[k].start);
    }
  }

  lemma One(b: Block, header: nat)
    ensures FreeSet([b]) == if b.used then {} else {b.start}
    ensures Spare([b], header) == if b.used then 0 else b.size - header
  {
    assert [b][1..] == [];
  }

  lemma AbsorbedFree(c: Config, h: seq<Block>, tail: nat, k: nat)
    requires c.header > 0 && Run(h, 0, tail, c.header) && k + 1 < |h| && !h[k + 1].used
    ensures FreeSet(Absorbed(h, k)) == FreeSet(h) - {h[k + 1].start}
  {
    hide Run, FreeSet, Spare, Splice;
    var b := Block(h[k].start, h[k].size + h[k + 1].size, h[k].used);
    FreeSplice(h, tail, c.header, k, 2, [b]);
    assert h[k..k + 2] == [h[k]] + [h[k + 1]];
    One(h[k], c.header);
    One(h[k + 1], c.header);
    FreeJoin([h[k]], [h[k + 1]]);
    One(b, c.header);
    StartFree(h, tail, c.header, k);
    StartsDiffer(h, tail, c.header, k);
  }

  lemma StartsDiffer(h: seq<Block>, tail: nat, header: nat, k: nat)
    requires header > 0 && Run(h, 0, tail, header) && k + 1 < |h|
    ensures h[k].start != h[k + 1].start
  {
    RunOrdered(h, 0, tail, header);
  }

  lemma AbsorbedSpare(h: seq<Block>, header: nat, k: nat)
    requires k + 1 < |h| && !h[k + 1].used
    ensures Spare(Absorbed(h, k), header) == Spare(h, header) + if h[k].used then header - h[k + 1].size else header
  {
    hide FreeSet, Spare, Splice;
    var b := Block(h[k].start, h[k].size + h[k + 1].size, h[k].used);
    SpareSplice(h, header, k, 2, [b]);
    assert h[k..k + 2] == [h[k]] + [h[k + 1]];
    One(h[k], header);
    One(h[k + 1], header);
    SpareJoin([h[k]], [h[k + 1]], header);
    One(b, header);
  }

  lemma MarkedFree(c: Config, h: seq<Block>, tail: nat, k: nat, mark: bool)
    requires c.header > 0 && Run(h, 0, tail, c.header) && k < |h|
    ensures var g, p := MarkedAs(h, k, mark), h[k].start;
            && FreeSet(g) == (if mark then FreeSet(h) - {p} else FreeSet(h) + {p})
            && Spare(g, c.header) == Spare(h, c.header) + (if h[k].used then 0 else c.header - h[k].size)
                                     + if mark then 0 else h[k].size - c.header
  {
    FreeSplice(h, tail, c.header, k, 1, [h[k].(used := mark)]);
    SpareSplice(h, c.header, k, 1, [h[k].(used := mark)]);
    assert h[k..k + 1] == [h[k]];
    One(h[k], c.header);
    One(h[k].(used := mark), c.header);
    StartFree(h, tail, c.header, k);
  }

  /** The start of a block is free just when the block is. */
  lemma StartFree(h: seq<Block>, tail: nat, header: nat, k: nat)
    requires header > 0 && Run(h, 0, tail, header) && k < |h|
    ensures h[k].start in FreeSet(h) <==> !h[k].used
  {
    RunOrdered(h, 0, tail, header);
    FreeIs(h, h[k].start);
  }

  /** No block starts inside another. */
  lemma InsideFresh(h: seq<Block>, tail: nat, header: nat, k: nat, p: int)
    requires header > 0 && Run(h, 0, tail, header) && k < |h| && h[k].start < p < h[k].start + h[k].size
    ensures p !in FreeSet(h) && p !in Starts(h) + [tail]
    ensures forall i :: 0 <= i < |h| ==> h[i].start != p
  {
    RunOrdered(h, 0, tail, header);
    FreeIs(h, p);
  }

  lemma AbsorbedRow(c: Config, h: seq<Block>, to: nat, k: nat)
    requires Good(c) && Row(c, h, to) && k + 1 < |h|
    ensures Row(c, Absorbed(h, k), to)
  {
    var b := Block(h[k].start, h[k].size + h[k + 1].size, h[k].used);
    hide Row, Multiples, Splice;
    BlockBounds(c, h, to, k);
    BlockBounds(c, h, to, k + 1);
    MultipleSum(h[k].size, h[k + 1].size, c.align);
    WholeMultiples(b, b.used, c.align);
    assert b.(used := b.used) == b;
    hide IsMultiple;
    SpliceRow(c, h, to, k, 2, [b]);
  }

  lemma CutAddressed(c: Config, h: seq<Block>, tail: nat, used: map<int, bool>, ring: map<int, Link>, k: nat, size: nat)
    requires Good(c) && Addressed(c, h, tail, used, ring) && k < |h|
    requires h[k].size >= c.header + size + c.header && IsMultiple(size, c.align)
    ensures var p, p2 := h[k].start, h[k].start + c.header + size;
            && p in ring && ring[p].next in ring && p2 != p && p2 != ring[p].next && p2 !in FreeSet(h)
            && Addressed(c, CutRow(c, h, k, size), tail, used[p2 := false], InsertAfter(ring, p, p2))
  {
    hide Row, Splice, Marked, CutRow, Run, Inserted, FreeSet, Ring, IsMultiple, CutAs;
    var p, p2, s := h[k].start, h[k].start + c.header + size, Starts(h) + [tail];
    HeaderSays(c, h, tail, used, ring, k);
    RowRuns(c, h, tail);
    InsideFresh(h, tail, c.header, k, p2);
    SplitRow(c, h, tail, k, size);
    CutRowIs(c, h, k, size);
    CutStarts(c, h, tail, k, size);
    CutMarked(c, h, tail, used, k, size);
    assert s[k] == p;
    RingInsert(ring, s, k, p2);
  }

  lemma ShapeRuns(c: Config, h: seq<Block>, tail: nat, used: map<int, bool>, ring: map<int, Link>)
    requires Good(c) && Addressed(c, h, tail, used, ring)
    ensures c.header > 0 && Run(h, 0, tail, c.header) && Row(c, h, tail)
  {
  }

  lemma RowRuns(c: Config, h: seq<Block>, tail: nat)
    requires Good(c) && Row(c, h, tail)
    ensures Run(h, 0, tail, c.header)
  {
  }

  /** Blocks start one behind the other, all before the tail. */
  lemma StartsRise(c: Config, h: seq<Block>, tail: nat)
    requires Good(c) && Row(c, h, tail) && c.header > 0
    ensures forall i, j :: 0 <= i < j < |h| ==> h[i].start < h[j].start
    ensures forall i :: 0 <= i < |h| ==> h[i].start < tail
  {
    RunOrdered(h, 0, tail, c.header);
  }

  lemma CutRowIs(c: Config, h: seq<Block>, k: nat, size: nat)
    requires k < |h| && h[k].size >= c.header + size
    ensures CutRow(c, h, k, size) == Splice(h, k, 1, CutAs(c, h[k], size))
  {
  }

  lemma CutMarked(c: Config, h: seq<Block>, tail: nat, used: map<int, bool>, k: nat, size: nat)
    requires Marked(used, h, tail) && k < |h| && h[k].size >= c.header + size
    requires var p2 := h[k].start + c.header + size; p2 != tail && forall i :: 0 <= i < |h| ==> h[i].start != p2
    ensures Marked(used[h[k].start + c.header + size := false], CutRow(c, h, k, size), tail)
  {
    SpliceAt(h, k, 1, CutAs(c, h[k], size));
    hide Splice;
  }

  lemma AbsorbedAddressed(c: Config, h: seq<Block>, tail: nat, used: map<int, bool>, ring: map<int, Link>, k: nat)
    requires Good(c) && Addressed(c, h, tail, used, ring) && k + 1 < |h|
    ensures var q := h[k + 1].start;
            && q in ring && ring[q].next in ring && ring[q].prev in ring && ring[q].next != q && ring[q].prev != q
            && ring[q].prev == h[k].start
            && Addressed(c, Absorbed(h, k), tail, used - {q}, Remove(ring, q))
  {
    var s := Starts(h) + [tail];
    HeaderSays(c, h, tail, used, ring, k + 1);
    AbsorbedRow(c, h, tail, k);
    AbsorbedStarts(h, tail, k);
    AbsorbedMarked(c, h, tail, used, k);
    hide Row, Splice, Marked, Absorbed, Removed;
    RingRemove(ring, s, k + 1);
  }

  lemma AbsorbedMarked(c: Config, h: seq<Block>, tail: nat, used: map<int, bool>, k: nat)
    requires Good(c) && Row(c, h, tail) && Marked(used, h, tail) && k + 1 < |h|
    ensures Marked(used - {h[k + 1].start}, Absorbed(h, k), tail)
  {
    hide Row, Absorbed;
    StartsRise(c, h, tail);
    AbsorbedAt(h, k);
    var g := Absorbed(h, k);
    forall i | 0 <= i < |g|
      ensures g[i].start in used - {h[k + 1].start} && used[g[i].start] == g[i].used
    {
      assert g[i].start == h[if i <= k then i else i + 1].start;
    }
  }

  lemma AbsorbedAt(h: seq<Block>, k: nat)
    requires k + 1 < |h|
    ensures var g := Absorbed(h, k);
            && |g| == |h| - 1 && g[k] == Block(h[k].start, h[k].size + h[k + 1].size, h[k].used)
            && (forall i :: 0 <= i < k ==> g[i] == h[i]) && (forall i :: k < i < |g| ==> g[i] == h[i + 1])
  {
  }

  lemma MarkedAddressed(c: Config, h: seq<Block>, tail: nat, used: map<int, bool>, ring: map<int, Link>, k: nat,
      mark: bool)
    requires Good(c) && Addressed(c, h, tail, used, ring) && k < |h|
    ensures Addressed(c, MarkedAs(h, k, mark), tail, used[h[k].start := mark], ring)
  {
    hide Row, Ring, MarkedAs;
    MarkRow(c, h, tail, k, mark);
    MarkedIs(h, k, mark);
    FlippedAt(h, k, mark);
    StartsRise(c, h, tail);
    hide Splice;
    assert Starts(MarkedAs(h, k, mark)) == Starts(h);
  }

  lemma MarkedIs(h: seq<Block>, k: nat, mark: bool)
    requires k < |h|
    ensures MarkedAs(h, k, mark) == Splice(h, k, 1, [h[k].(used := mark)])
  {
  }

  lemma OrderRemoved(order: seq<int>, i: nat)
    requires i < |order| && Distinct([HEAD] + order)
    ensures Removed([HEAD] + order, i + 1) == [HEAD] + Removed(order, i)
    ensures Members(Removed(order, i)) == Members(order) - {order[i]}
  {
    RemovedAt(order, i);
    RemovedAt([HEAD] + order, i + 1);
    hide Removed;
    var t := Removed(order, i);
    forall j, k | 0 <= j < k < |order|
      ensures order[j] != order[k]
    {
      assert ([HEAD] + order)[j + 1] == order[j] && ([HEAD] + order)[k + 1] == order[k];
    }
    forall p | p in order && p != order[i]
      ensures p in t
    {
      var j :| 0 <= j < |order| && order[j] == p;
      assert p == t[if j < i then j else j - 1];
    }
  }

  lemma OrderPushed(order: seq<int>, p: int)
    ensures Inserted([HEAD] + order, 0, p) == [HEAD] + ([p] + order)
    ensures Members([p] + order) == Members(order) + {p}
  {
    InsertedAt([HEAD] + order, 0, p);
    hide Inserted;
  }

  // ------------------------------------------------------------------ the heap

  class Pool {
    const c: Config
    const poolSize: nat
    var used: map<int, bool>
    var ring: map<int, Link>
    var free: map<int, Link>
    var bytes: seq<Byte>
    var available: int
    var max: int
    ghost var blocks: seq<Block>
    ghost var order: seq<int>

    /** The header at the end of the pool that is always used. */
    function Tail(): int {
      poolSize - c.header
    }

    ghost predicate Sized()
      reads this
    {
      Good(c) && c.minSize > 0 && IsMultiple(poolSize, c.align) && 2 * c.header <= poolSize &&
          poolSize + Mini(c) <= c.word && |bytes| == poolSize
    }

    ghost predicate Shaped()
      reads this
    {
      Sized() && Addressed(c, blocks, Tail(), used, ring) && Freed(free, order)
    }

    /** Both rings are right, the second holds just the free blocks, none of them neighbours, and the counts agree. */
    ghost predicate Valid()
      reads this
    {
      && Shaped() && Separated(blocks) && Members(order) == FreeSet(blocks)
      && available == Spare(blocks, c.header) && max >= poolSize - available
    }

    /** `rt_memheap_init`. */
    constructor (config: Config, size: nat, memory: seq<Byte>)
      requires |memory| == size
      requires Good(config) && config.minSize > 0 && IsMultiple(size, config.align)
      requires 2 * config.header <= size && size + Mini(config) <= config.word
      ensures Valid() && c == config && poolSize == size
      ensures blocks == [Block(0, size - config.header, false)] && available == size - 2 * config.header &&
          max == 2 * config.header
    {
      c := config;
      poolSize := size;
      bytes := memory;
      available := size - 2 * config.header;
      max := size - (size - 2 * config.header);
      var tail := size - config.header;
      ring := map[0 := Link(tail, tail), tail := Link(0, 0)];
      used := map[0 := false, tail := true];
      free := map[HEAD := Link(0, 0), 0 := Link(HEAD, HEAD)];
      blocks := [Block(0, size - config.header, false)];
      order := [0];
      new;
      PoolRow(c, size);
    }

    /** Writes to the header of block `i` at `p`, or of the tail; what this does to the bytes below it is left open. */
    method Touch(p: int, ghost i: nat)
      requires Shaped() && i <= |blocks| && p == StartAt(blocks, i, Tail())
      modifies `bytes
      ensures Shaped() && HeadersOnly(c, blocks, Tail(), old(bytes), bytes)
    {
      StartFits(c, blocks, Tail(), i) by { ShapeRuns(c, blocks, Tail(), used, ring); }
      hide Addressed, Freed, StartAt;
      assert |seq(c.header, j => 0 as Byte)| == c.header;
      var image: seq<Byte> :| |image| == c.header;
      ghost var before := bytes;
      bytes := bytes[..p] + image + bytes[p + c.header..];
      OneHeader(c, blocks, Tail(), i, before, bytes);
    }

    /** Writes to the header of a free block; that of the free list lies outside the pool. */
    method TouchFree(p: int)
      requires Shaped() && (p == HEAD || p in FreeSet(blocks))
      modifies `bytes
      ensures Shaped() && HeadersOnly(c, blocks, Tail(), old(bytes), bytes)
    {
      hide Addressed, Freed, FreeSet;
      HeadersNone(c, blocks, Tail(), bytes);
      if p != HEAD {
        ghost var i := FreeIndex(blocks, p);
        Touch(p, i);
      }
    }

    /** Writes to the headers of a free block and another one. */
    method TouchTwo(p: int, q: int)
      requires Shaped() && (p == HEAD || p in FreeSet(blocks)) && (q == HEAD || q in FreeSet(blocks))
      modifies `bytes
      ensures Shaped() && HeadersOnly(c, blocks, Tail(), old(bytes), bytes)
    {
      hide Addressed, Freed, FreeSet, HeadersOnly;
      TouchFree(p);
      ghost var image := bytes;
      TouchFree(q);
      HeadersTwice(c, blocks, Tail(), old(bytes), image, bytes);
    }

    /** Writes to the headers of blocks `k` and `k + 2` at `p` and `q`, and perhaps of the one between. */
    method TouchAround(p: int, q: int, between: int, ghost k: nat)
      requires Shaped() && k + 2 <= |blocks| && p == StartAt(blocks, k, Tail()) && q == StartAt(blocks, k + 2, Tail())
      requires between == StartAt(blocks, k + 1, Tail())
      modifies `bytes
      ensures Shaped() && HeadersOnly(c, blocks, Tail(), old(bytes), bytes)
    {
      hide Addressed, Freed, HeadersOnly, StartAt;
      Touch(p, k);
      ghost var image := bytes;
      Touch(q, k + 2);
      HeadersTwice(c, blocks, Tail(), old(bytes), image, bytes);
      image := bytes;
      Touch(between, k + 1);
      HeadersTwice(c, blocks, Tail(), old(bytes), image, bytes);
    }

    /** Builds a free block at `p2` inside block `k` at `p`, and puts it behind that one. */
    method Cut(p: int, p2: int, ghost k: nat, ghost size: nat)
      requires Shaped() && k < |blocks| && p == blocks[k].start && p2 == p + c.header + size
      requires blocks[k].size >= c.header + size + c.header && IsMultiple(size, c.align)
      modifies `used, `ring, `blocks, `bytes
      ensures Shaped() && blocks == CutRow(c, old(blocks), k, size)
      ensures HeadersOnly(c, blocks, Tail(), old(bytes), bytes)
      ensures p2 !in old(FreeSet(blocks)) && p2 != HEAD && p2 != p
      ensures FreeSet(blocks) == old(FreeSet(blocks)) + {p2}
      ensures Spare(blocks, c.header) == old(Spare(blocks, c.header))
              + if old(blocks)[k].used then old(blocks)[k].size - size - 2 * c.header else 0 - c.header
    {
      hide Addressed, Freed, CutRow, FreeSet, IsMultiple, Spare, HeadersOnly, StartAt;
      ghost var h := blocks;
      ShapeRuns(c, blocks, Tail(), used, ring);
      HeaderSays(c, blocks, Tail(), used, ring, k);
      CutPlaces(c, blocks, Tail(), k, size);
      CutFree(c, blocks, Tail(), k, size);
      CutAddressed(c, blocks, Tail(), used, ring, k, size);
      var next := ring[p].next;
      used := used[p2 := false];
      ring := ring[p2 := Link(next, p)];
      ring := ring[next := ring[next].(prev := p2)];
      ring := ring[p := ring[p].(next := p2)];
      blocks := CutRow(c, h, k, size);
      TouchAround(p, next, p2, k);
    }

    /** Takes the header of block `k + 1`, at `q`, off the ring: block `k` takes its place over. */
    method Absorb(q: int, ghost k: nat)
      requires Shaped() && k + 1 < |blocks| && q == blocks[k + 1].start
      modifies `used, `ring, `blocks, `bytes
      ensures Shaped() && blocks == Absorbed(old(blocks), k)
      ensures HeadersOnly(c, old(blocks), Tail(), old(bytes), bytes)
      ensures !old(blocks)[k + 1].used ==>
        && FreeSet(blocks) == old(FreeSet(blocks)) - {q}
        && Spare(blocks, c.header) == old(Spare(blocks, c.header))
           + if old(blocks)[k].used then c.header - old(blocks)[k + 1].size else c.header
    {
      hide Addressed, Freed, Absorbed, FreeSet, Spare;
      ShapeRuns(c, blocks, Tail(), used, ring);
      if !blocks[k + 1].used {
        AbsorbedFree(c, blocks, Tail(), k);
        AbsorbedSpare(blocks, c.header, k);
      }
      AbsorbedAddressed(c, blocks, Tail(), used, ring, k);
      HeaderSays(c, blocks, Tail(), used, ring, k + 1);
      var next, prev := ring[q].next, ring[q].prev;
      TouchAround(prev, next, q, k);
      ring := ring[next := ring[next].(prev := prev)];
      ring := ring[prev := ring[prev].(next := next)];
      ring := ring - {q};
      used := used - {q};
      blocks := Absorbed(blocks, k);
    }

    method Mark(p: int, mark: bool, ghost k: nat)
      requires Shaped() && k < |blocks| && p == blocks[k].start
      modifies `used, `blocks, `bytes
      ensures Shaped() && blocks == MarkedAs(old(blocks), k, mark)
      ensures HeadersOnly(c, old(blocks), Tail(), old(bytes), bytes)
      ensures FreeSet(blocks) == if mark then old(FreeSet(blocks)) - {p} else old(FreeSet(blocks)) + {p}
      ensures old(blocks)[k].used != mark ==>
        Spare(blocks, c.header) == old(Spare(blocks, c.header))
                                   + if mark then c.header - old(blocks)[k].size else old(blocks)[k].size - c.header
    {
      hide Addressed, Freed, MarkedAs, FreeSet, Spare;
      ShapeRuns(c, blocks, Tail(), used, ring);
      MarkedFree(c, blocks, Tail(), k, mark);
      MarkedAddressed(c, blocks, Tail(), used, ring, k, mark);
      Touch(p, k);
      used := used[p := mark];
      blocks := MarkedAs(blocks, k, mark);
    }

    /** Takes a block off the free list. */
    method Unlink(p: int, ghost i: nat)
      requires Shaped() && i < |order| && p == order[i] && Members(order) - {p} <= FreeSet(blocks)
      modifies `free, `order, `bytes
      ensures HeadersOnly(c, blocks, Tail(), old(bytes), bytes)
      ensures Shaped() && order == Removed(old(order), i) && Members(order) == old(Members(order)) - {p}
    {
      hide Addressed, Removed, FreeSet, HeadersOnly;
      RingRemove(free, [HEAD] + order, i + 1);
      OrderRemoved(order, i);
      FreeAround(free, order, i);
      hide Ring;
      assert ([HEAD] + order)[i + 1] == p;
      var next, prev := free[p].next, free[p].prev;
      TouchTwo(next, prev);
      free := free[next := free[next].(prev := prev)];
      free := free[prev := free[prev].(next := next)];
      free := free - {p};
      order := Removed(order, i);
    }

    /** Puts a block at the front of the free list. */
    method Push(p: int)
      requires Shaped() && p !in Members(order) && p != HEAD && Members(order) + {p} <= FreeSet(blocks)
      modifies `free, `order, `bytes
      ensures HeadersOnly(c, blocks, Tail(), old(bytes), bytes)
      ensures Shaped() && order == [p] + old(order) && Members(order) == old(Members(order)) + {p}
    {
      hide Addressed, Inserted, FreeSet, HeadersOnly;
      assert ([HEAD] + order)[0] == HEAD;
      FreeNext(free, order, 0);
      RingInsert(free, [HEAD] + order, 0, p);
      OrderPushed(order, p);
      hide Ring;
      var next := free[HEAD].next;
      TouchTwo(p, next);
      free := free[p := Link(next, HEAD)];
      free := free[next := free[next].(prev := p)];
      free := free[HEAD := free[HEAD].(next := p)];
      order := [p] + order;
    }

    /** The search of `rt_memheap_alloc`: along the free list to the first block with room. */
    method Find(s: nat) returns (found: bool, p: int, ghost i: nat, ghost k: nat)
      requires Valid() && s > 0
      ensures found ==> i < |order| && k < |blocks| && p == order[i] == blocks[k].start && Fits(c, blocks[k], s)
      ensures found ==> forall j :: 0 <= j < i ==> !RoomAt(c, blocks, order[j], s)
      ensures !found ==> forall j :: 0 <= j < |blocks| ==> !Fits(c, blocks[j], s)
    {
      hide Addressed, Freed, FreeSet, Spare, RoomAt, Separated;
      var size := 0;
      FreeNext(free, order, 0);
      p, i, k := free[HEAD].next, 0, 0;
      while p != HEAD && size < s
        invariant i <= |order| && p == OrderAt(order, i)
        invariant size >= s ==> i < |order| && k < |blocks| && p == blocks[k].start && Fits(c, blocks[k], s)
        invariant forall j :: 0 <= j < i ==> !RoomAt(c, blocks, order[j], s)
        decreases |order| - i, s - size
      {
        FreeOne(order, i);
        k := FreeIndex(blocks, p);
        HeaderSays(c, blocks, Tail(), used, ring, k);
        size := ring[p].next - p - c.header;
        if size < s {
          NoRoom(c, blocks, Tail(), k, s) by { ShapeRuns(c, blocks, Tail(), used, ring); }
          FreeNext(free, order, i + 1);
          p := free[p].next;
          i := i + 1;
        }
      }
      found := size >= s;
      if !found {
        NoneFree(c, blocks, order, i, s, free);
      }
    }

    /** `rt_memheap_alloc`. */
    method Alloc(request: nat) returns (r: int, ghost i: nat, ghost k: nat)
      requires Valid() && request < c.word
      modifies this
      ensures Valid()
      ensures var s := Round(c, request);
              && (r == 0 <==> s >= old(available) || forall j :: 0 <= j < |old(blocks)| ==> !Fits(c, old(blocks)[j], s))
              && (r == 0 ==> blocks == old(blocks) && order == old(order) && max == old(max))
              && (r != 0 ==> i < |old(order)| && k < |old(blocks)| && Fits(c, old(blocks)[k], s)
                             && old(order)[i] == old(blocks)[k].start && r == old(blocks)[k].start + c.header
                             && (forall j :: 0 <= j < i ==> !RoomAt(c, old(blocks), old(order)[j], s))
                             && blocks == Taken(c, old(blocks), k, s)
                             && order == TakenOrder(c, old(blocks), old(order), i, k, s)
                             && max == Most(old(max), poolSize - available))
      // the block fits, without room for another one in it; what is cut off it is first on the free list
      ensures r != 0 ==>
        && k < |blocks| && blocks[k].start == old(blocks)[k].start && blocks[k].used
        && Round(c, request) <= blocks[k].size - c.header < Round(c, request) + c.header + Mini(c)
        && order == (if blocks[k].size < old(blocks)[k].size then [blocks[k].start + blocks[k].size] else [])
                    + old(order)[..i] + old(order)[i + 1..]
      ensures r == 0 ==> bytes == old(bytes)
      ensures r != 0 ==> forall j :: 0 <= j < |blocks| ==> SamePayload(c, blocks[j], old(bytes), bytes)
    {
      hide Addressed, Freed, FreeSet, Spare, RoomAt, Separated, Taken, TakenOrder, Align, Fits, IsMultiple, SamePayload;
      RoundCovers(c, request);
      RoundPositive(c, request);
      var s := Align(c, request);
      if s < Mini(c) {
        s := Mini(c);
      }
      r, i, k := 0, 0, 0;
      if s < available {
        var found, p;
        found, p, i, k := Find(s);
        if found {
          TakenSize(c, blocks, k, s);
          TakenFirst(c, blocks, order, i, k, s);
          Take(p, s, i, k);
          r := p + c.header;
        }
      }
    }

    /** What `rt_memheap_alloc` does with the block it has found. */
    method Take(p: int, s: nat, ghost i: nat, ghost k: nat)
      requires Valid() && i < |order| && k < |blocks| && p == order[i] == blocks[k].start && Fits(c, blocks[k], s)
      requires IsMultiple(s, c.align)
      modifies this
      ensures Valid()
      ensures blocks == Taken(c, old(blocks), k, s) && order == TakenOrder(c, old(blocks), old(order), i, k, s)
      ensures max == Most(old(max), poolSize - available)
      ensures forall j :: 0 <= j < |blocks| ==> SamePayload(c, blocks[j], old(bytes), bytes)
    {
      hide Addressed, Freed, FreeSet, Spare, Separated, Taken, Align, IsMultiple, CutRow, MarkedAs, CutIfRoom, Removed;
      hide HeadersOnly, SamePayload;
      ghost var h := blocks;
      TakenSeparated(c, h, k, s);
      HeaderSays(c, h, Tail(), used, ring, k);
      TakenIs(c, h, k, s);
      var size := ring[p].next - p - c.header;
      if size >= s + c.header + Mini(c) {
        var p2 := p + s + c.header;
        Cut(p, p2, k, s);
        ghost var image := bytes;
        Unlink(p, i);
        HeadersTwice(c, blocks, Tail(), old(bytes), image, bytes);
        image := bytes;
        Push(p2);
        HeadersTwice(c, blocks, Tail(), old(bytes), image, bytes);
        available := available - s - c.header;
      } else {
        available := available - size;
        Unlink(p, i);
      }
      ghost var g, image := blocks, bytes;
      if poolSize - available > max {
        max := poolSize - available;
      }
      Mark(p, true, k);
      HeadersTwice(c, g, Tail(), old(bytes), image, bytes);
      MarkedHeaders(c, g, k, true, Tail(), old(bytes), bytes);
      PayloadsKept(c, blocks, Tail(), old(bytes), bytes) by { ShapeRuns(c, blocks, Tail(), used, ring); }
    }

    ghost predicate IsPayload(ptr: int, k: nat)
      reads `blocks
    {
      k < |blocks| && blocks[k].used && ptr == blocks[k].start + c.header
    }

    /** `rt_memheap_free` on null or on the payload of the used block `k`. */
    method Free(ptr: int, ghost k: nat)
      requires Valid() && (ptr != 0 ==> IsPayload(ptr, k))
      modifies this
      ensures Valid() && max == old(max)
      ensures ptr == 0 ==> blocks == old(blocks) && order == old(order) && bytes == old(bytes)
      ensures ptr != 0 ==> forall i :: 0 <= i < |old(blocks)| ==> SamePayload(c, old(blocks)[i], old(bytes), bytes)
      ensures ptr != 0 ==> blocks == Released(old(blocks), k) && order == ReleasedOrder(old(blocks), old(order), k)
    {
      hide Addressed, Freed, FreeSet, Spare, Separated, MarkedAs, Absorbed, Removed, Released, ReleasedOrder;
      hide WithoutRight, JoinedRight, HeadersOnly, SamePayload;
      if ptr == 0 {
        return;
      }
      ghost var h := blocks;
      ReleasedRow(c, h, Tail(), k) by { ShapeRuns(c, h, Tail(), used, ring); }
      FreedIs(h, k);
      FreedOrder(h, order, k);
      var p := ptr - c.header;
      Release(p, k);
      var at, insert;
      ghost var m, g, marked := 0, blocks, bytes;
      at, insert, m := MergeLeft(p, k);
      ghost var l, left := blocks, bytes;
      MergeRight(at, m);
      ghost var right := bytes;
      if insert {
        Push(at);
        JoinedHeaders(c, l, m, Tail(), right, bytes);
      } else {
        HeadersNone(c, l, Tail(), bytes);
      }
      HeadersTwice(c, l, Tail(), left, right, bytes);
      if !insert {
        AbsorbedHeaders(c, g, k - 1, Tail(), left, bytes);
      }
      HeadersTwice(c, g, Tail(), marked, left, bytes);
      MarkedHeaders(c, h, k, false, Tail(), marked, bytes);
      HeadersTwice(c, h, Tail(), old(bytes), marked, bytes);
      PayloadsKept(c, h, Tail(), old(bytes), bytes) by { ShapeRuns(c, h, Tail(), old(used), old(ring)); }
    }

    /** Marks the used block `k` at `p` as free and counts its payload. */
    method Release(p: int, ghost k: nat)
      requires Valid() && k < |blocks| && p == blocks[k].start && blocks[k].used
      modifies `used, `blocks, `bytes, `available
      ensures Shaped() && blocks == MarkedAs(old(blocks), k, false)
      ensures HeadersOnly(c, old(blocks), Tail(), old(bytes), bytes)
      ensures p !in Members(order) && p != HEAD && FreeSet(blocks) == Members(order) + {p}
      ensures available == Spare(blocks, c.header) && available >= old(available)
    {
      hide Addressed, Freed, FreeSet, Spare, MarkedAs;
      ShapeRuns(c, blocks, Tail(), used, ring);
      HeaderSays(c, blocks, Tail(), used, ring, k);
      StartFree(blocks, Tail(), c.header, k);
      Mark(p, false, k);
      available := available + (ring[p].next - p - c.header);
    }

    /** Joins the free block `k` at `p` with the one before it if that is free too; else it has yet to go on the free
        list. */
    method MergeLeft(p: int, ghost k: nat) returns (at: int, insert: bool, ghost m: nat)
      requires Shaped() && k < |blocks| && p == blocks[k].start && !blocks[k].used
      requires p !in Members(order) && FreeSet(blocks) == Members(order) + {p}
      modifies `used, `ring, `blocks, `bytes, `available
      ensures HeadersOnly(c, old(blocks), Tail(), old(bytes), bytes)
      ensures Shaped() && insert == !(k > 0 && !old(blocks)[k - 1].used) && m == if insert then k else k - 1
      ensures blocks == if insert then old(blocks) else Absorbed(old(blocks), k - 1)
      ensures m < |blocks| && at == blocks[m].start && !blocks[m].used && (insert ==> at == p)
      ensures FreeSet(blocks) == if insert then Members(order) + {at} else Members(order)
      ensures available - old(available) == Spare(blocks, c.header) - old(Spare(blocks, c.header))
      ensures available >= old(available)
    {
      hide Addressed, Freed, FreeSet, Spare, Absorbed, HeadersOnly;
      HeaderSays(c, blocks, Tail(), used, ring, k);
      HeadersNone(c, blocks, Tail(), bytes);
      at, insert, m := p, true, k;
      var prev := ring[p].prev;
      if !used[prev] {
        AbsorbedAt(blocks, k - 1);
        available := available + c.header;
        Absorb(p, k - 1);
        at, insert, m := prev, false, k - 1;
      }
    }

    /** Joins the free block `k` at `p` with the one behind it if that is free too. */
    method MergeRight(p: int, ghost k: nat)
      requires Shaped() && k < |blocks| && p == blocks[k].start && !blocks[k].used
      requires FreeSet(blocks) == Members(order) || FreeSet(blocks) == Members(order) + {p}
      modifies this
      ensures Shaped() && max == old(max)
      ensures blocks == JoinedRight(old(blocks), k) && order == WithoutRight(old(blocks), old(order), k)
      ensures HeadersOnly(c, old(blocks), Tail(), old(bytes), bytes)
      ensures old(FreeSet(blocks)) == old(Members(order)) ==> FreeSet(blocks) == Members(order)
      ensures old(FreeSet(blocks)) == old(Members(order)) + {p} ==> FreeSet(blocks) == Members(order) + {p}
      ensures p !in old(Members(order)) ==> p !in Members(order)
      ensures available - old(available) == Spare(blocks, c.header) - old(Spare(blocks, c.header))
      ensures available >= old(available)
    {
      hide Addressed, Freed, FreeSet, Spare, Absorbed, Removed, HeadersOnly;
      ghost var h := blocks;
      HeadersNone(c, h, Tail(), bytes);
      ShapeRuns(c, blocks, Tail(), used, ring);
      HeaderSays(c, blocks, Tail(), used, ring, k);
      var next := ring[p].next;
      if !used[next] {
        StartFree(blocks, Tail(), c.header, k + 1);
        ghost var i := IndexOf(order, next);
        available := available + c.header;
        Absorb(next, k);
        ghost var image := bytes;
        Unlink(next, i);
        AbsorbedHeaders(c, h, k, Tail(), image, bytes);
        HeadersTwice(c, h, Tail(), old(bytes), image, bytes);
      }
    }

    /** The branch of `rt_memheap_realloc` that grows block `k` at `p` into the free block behind it. */
    method Grow(p: int, n: nat, ghost k: nat)
      requires Valid() && k + 1 < |blocks| && p == blocks[k].start && blocks[k].used && !blocks[k + 1].used
      requires IsMultiple(n, c.align) && blocks[k].size - c.header <= n
      requires n + 2 * c.header < blocks[k].size + blocks[k + 1].size
      modifies this
      ensures Valid() && blocks == Grown(c, old(blocks), k, n) && max == Most(old(max), poolSize - available)
      ensures order == [p + c.header + n] + Without(old(order), old(blocks)[k + 1].start)
      ensures OthersKept(c, old(blocks), k, old(bytes), bytes)
      ensures Contents(bytes, p + c.header, old(bytes), p + c.header, old(blocks)[k].size - c.header)
    {
      hide Addressed, Freed, FreeSet, Spare, Separated, Absorbed, CutRow, Removed, IsMultiple, HeadersOnly, SamePayload,
          OthersKept, Contents, Grown;
      ghost var h := blocks;
      ShapeRuns(c, h, Tail(), used, ring);
      HeaderSays(c, h, Tail(), used, ring, k);
      StartFree(h, Tail(), c.header, k + 1);
      GrownIs(c, h, k, n);
      var next := ring[p].next;
      var before := next - p - c.header;
      available := available - (n - before);
      if poolSize - available > max {
        max := poolSize - available;
      }
      Annex(next, k);
      ghost var joined := bytes;
      CutOff(p, p + c.header + n, k, n);
      GrownPayloads(c, h, k, n, old(bytes), joined, bytes);
    }

    /** The free block `k + 1` at `next` leaves the free list and becomes part of block `k`. */
    method Annex(next: int, ghost k: nat)
      requires Shaped() && k + 1 < |blocks| && next == blocks[k + 1].start && blocks[k].used && !blocks[k + 1].used
      requires Members(order) == FreeSet(blocks)
      modifies `used, `ring, `free, `blocks, `order, `bytes
      ensures Shaped() && blocks == Absorbed(old(blocks), k) && order == Without(old(order), next)
      ensures Members(order) == FreeSet(blocks)
      ensures Spare(blocks, c.header) == old(Spare(blocks, c.header)) + c.header - old(blocks)[k + 1].size
      ensures forall i :: 0 <= i < |old(blocks)| ==> SamePayload(c, old(blocks)[i], old(bytes), bytes)
    {
      hide Addressed, Freed, FreeSet, Spare, Absorbed, Removed, HeadersOnly, SamePayload;
      ghost var h := blocks;
      ShapeRuns(c, h, Tail(), used, ring);
      StartFree(h, Tail(), c.header, k + 1);
      Unlink(next, IndexOf(order, next));
      ghost var image := bytes;
      Absorb(next, k);
      HeadersTwice(c, h, Tail(), old(bytes), image, bytes);
      PayloadsKept(c, h, Tail(), old(bytes), bytes);
    }

    /** The end of the used block `k` at `p` becomes a free block at `p2`. */
    method CutOff(p: int, p2: int, ghost k: nat, ghost n: nat)
      requires Shaped() && k < |blocks| && p == blocks[k].start && p2 == p + c.header + n && blocks[k].used
      requires blocks[k].size >= c.header + n + c.header && IsMultiple(n, c.align)
      requires Members(order) == FreeSet(blocks)
      modifies `used, `ring, `free, `blocks, `order, `bytes
      ensures Shaped() && blocks == CutRow(c, old(blocks), k, n) && order == [p2] + old(order)
      ensures Members(order) == FreeSet(blocks)
      ensures Spare(blocks, c.header) == old(Spare(blocks, c.header)) + old(blocks)[k].size - n - 2 * c.header
      ensures forall i :: 0 <= i < |blocks| ==> SamePayload(c, blocks[i], old(bytes), bytes)
    {
      hide Addressed, Freed, FreeSet, Spare, CutRow, IsMultiple, HeadersOnly, SamePayload;
      Cut(p, p2, k, n);
      ghost var image := bytes;
      Push(p2);
      HeadersTwice(c, blocks, Tail(), old(bytes), image, bytes);
      PayloadsKept(c, blocks, Tail(), old(bytes), bytes) by { ShapeRuns(c, blocks, Tail(), used, ring); }
    }

    /** The header at `p2` says free and is the first of the free list. */
    predicate FreeAt(p2: int)
      reads this
    {
      p2 in used && !used[p2] && HEAD in free && free[HEAD].next == p2
    }

    /** The same steps where there is no room: the header of the rest is built wherever the wrapped sum leads. */
    method Overrun(p: int, n: nat, ghost k: nat)
      requires Valid() && k + 1 < |blocks| && p == blocks[k].start && blocks[k].used && !blocks[k + 1].used
      modifies `used, `ring, `free, `available, `max
      ensures var p2 := (p + c.header + n) % c.word;
              used == old(used)[p2 := false] && p in ring && ring[p].next == p2 && FreeAt(p2)
      ensures available == (old(available) - n + old(blocks)[k].size - c.header) % c.word
      ensures var most := (poolSize - available) % c.word; max == if most > old(max) then most else old(max)
    {
      hide Addressed, Freed, FreeSet, Spare, Separated, Removed;
      ShapeRuns(c, blocks, Tail(), used, ring);
      HeaderSays(c, blocks, Tail(), used, ring, k);
      HeaderSays(c, blocks, Tail(), used, ring, k + 1);
      StartFree(blocks, Tail(), c.header, k + 1);
      var next := ring[p].next;
      FreeLinks(free, order, IndexOf(order, next));
      available := (available - (n - (next - p - c.header))) % c.word;
      if (poolSize - available) % c.word > max {
        max := (poolSize - available) % c.word;
      }
      var p2 := (p + c.header + n) % c.word;
      OverrunRing(p, next, p2);
      OverrunFree(next, p2);
    }

    method OverrunRing(p: int, next: int, p2: int)
      requires p in ring && ring[p].next == next && next in ring && ring[next].next in ring
      modifies `used, `ring
      ensures used == old(used)[p2 := false] && p in ring && ring[p].next == p2
      ensures old(ring[next].next) in ring && ring[old(ring[next].next)].prev == p2
      ensures p2 != p && p2 != old(ring[next].next) ==> p2 in ring && ring[p2] == Link(old(ring[next].next), p)
    {
      var behind := ring[next].next;
      ring := ring[behind := ring[behind].(prev := p)];
      ring := ring[p := ring[p].(next := behind)];
      used := used[p2 := false];
      ring := ring[p2 := Link(behind, p)];
      ring := ring[behind := ring[behind].(prev := p2)];
      ring := ring[p := ring[p].(next := p2)];
    }

    method OverrunFree(next: int, p2: int)
      requires HEAD in free && free[HEAD].next in free
      requires next in free && free[next].next in free && free[next].prev in free
      modifies `free
      ensures HEAD in free && free[HEAD].next == p2
    {
      var forth, back := free[next].next, free[next].prev;
      free := free[forth := free[forth].(prev := back)];
      free := free[back := free[back].(next := forth)];
      var first := free[HEAD].next;
      free := free[p2 := Link(first, HEAD)];
      free := free[first := free[first].(prev := p2)];
      free := free[HEAD := free[HEAD].(next := p2)];
    }

    /** The branch of `rt_memheap_realloc` that gives the end of block `k` at `p` back. */
    method Shrink(p: int, n: nat, ghost k: nat)
      requires Valid() && k < |blocks| && p == blocks[k].start && blocks[k].used
      requires IsMultiple(n, c.align) && n + 2 * c.header < blocks[k].size
      modifies this
      ensures Valid() && blocks == Shrunk(c, old(blocks), k, n) && max == old(max)
      ensures order == [p + c.header + n] + WithoutRight(old(blocks), old(order), k)
      ensures OthersKept(c, old(blocks), k, old(bytes), bytes)
      ensures Contents(bytes, p + c.header, old(bytes), p + c.header, n)
    {
      hide Addressed, Freed, FreeSet, Spare, Separated, Absorbed, CutRow, Removed, IsMultiple, Shrunk, WithoutRight,
          JoinedRight, HeadersOnly, SamePayload, OthersKept, Contents;
      ghost var h, p2 := blocks, p + c.header + n;
      ShrunkRow(c, h, Tail(), k, n) by { ShapeRuns(c, h, Tail(), used, ring); }
      ShrunkIs(c, h, order, k, n);
      Cut(p, p + c.header + n, k, n);
      ghost var f, cut := blocks, bytes;
      ShapeRuns(c, f, Tail(), used, ring);
      JoinNext(p + c.header + n, k + 1);
      ghost var joined := bytes;
      Push(p + c.header + n);
      JoinedHeaders(c, f, k + 1, Tail(), joined, bytes);
      HeadersTwice(c, f, Tail(), cut, joined, bytes);
      HeadersTwice(c, f, Tail(), old(bytes), cut, bytes);
      PayloadsKept(c, f, Tail(), old(bytes), bytes);
      UsedCut(c, h, k, n);
      CutPayloads(c, h, k, n, old(bytes), bytes);
      HeaderSays(c, blocks, Tail(), used, ring, k + 1);
      available := available + (ring[p + c.header + n].next - (p + c.header + n) - c.header);
    }

    /** The new free block `k` at `p`, not counted yet, takes the free block behind it over, if there is one. */
    method JoinNext(p: int, ghost k: nat)
      requires Shaped() && k < |blocks| && p == blocks[k].start && !blocks[k].used
      requires p !in Members(order) && FreeSet(blocks) == Members(order) + {p}
      requires available == Spare(blocks, c.header) - (blocks[k].size - c.header)
      modifies this
      ensures Shaped() && max == old(max)
      ensures blocks == JoinedRight(old(blocks), k) && order == WithoutRight(old(blocks), old(order), k)
      ensures HeadersOnly(c, old(blocks), Tail(), old(bytes), bytes)
      ensures p !in Members(order) && FreeSet(blocks) == Members(order) + {p}
      ensures k < |blocks| && p == blocks[k].start
      ensures available == Spare(blocks, c.header) - (blocks[k].size - c.header)
      ensures Spare(blocks, c.header) >= old(Spare(blocks, c.header))
    {
      hide Addressed, Freed, FreeSet, Spare, Absorbed, Removed, HeadersOnly;
      ghost var h := blocks;
      HeadersNone(c, h, Tail(), bytes);
      ShapeRuns(c, blocks, Tail(), used, ring);
      HeaderSays(c, blocks, Tail(), used, ring, k);
      var next := ring[p].next;
      if !used[next] {
        StartFree(blocks, Tail(), c.header, k + 1);
        HeaderSays(c, blocks, Tail(), used, ring, k + 1);
        AbsorbedAt(blocks, k);
        ghost var i := IndexOf(order, next);
        available := available - (ring[next].next - next - c.header);
        Absorb(next, k);
        ghost var image := bytes;
        Unlink(next, i);
        AbsorbedHeaders(c, h, k, Tail(), image, bytes);
        HeadersTwice(c, h, Tail(), old(bytes), image, bytes);
      }
    }

    /** `rt_memheap_realloc` on null or on the payload of the used block `k`. */
    method Realloc(ptr: int, newsize: nat, ghost k: nat) returns (r: int, ghost i: nat, ghost f: nat)
      requires Valid() && newsize < c.word && (ptr != 0 ==> IsPayload(ptr, k))
      modifies this
      ensures ptr == 0 || newsize == 0 ==> Valid()
      ensures newsize == 0 ==>
        && r == 0 && max == old(max) && blocks == (if ptr == 0 then old(blocks) else Released(old(blocks), k))
        && OthersKept(c, old(blocks), if ptr == 0 then |old(blocks)| else k, old(bytes), bytes)
      ensures newsize != 0 && ptr == 0 ==>
        && (r == 0 <==> Refused(c, old(blocks), old(available), Round(c, newsize)))
        && (r == 0 ==> blocks == old(blocks))
        && (r != 0 ==> f < |old(blocks)| && Fits(c, old(blocks)[f], Round(c, newsize))
                       && r == old(blocks)[f].start + c.header && blocks == Taken(c, old(blocks), f, Round(c, newsize)))
        && max == (if r == 0 then old(max) else AllocPeak(c, poolSize, old(blocks), f, Round(c, newsize), old(max)))
        && OthersKept(c, old(blocks), |old(blocks)|, old(bytes), bytes)
      ensures newsize != 0 && ptr != 0 ==>
        && k < |old(blocks)|
        && if Overruns(c, old(blocks), k, Round(c, newsize)) then
             r == ptr && FreeAt((ptr + Round(c, newsize)) % c.word)
           else
             && Valid() && ResizedTo(c, old(blocks), old(available), k, Round(c, newsize), blocks, r, f)
             && max == (if r == 0 || Round(c, newsize) + c.header <= old(blocks)[k].size then old(max)
                        else if GrowsBehind(c, old(blocks), k, Round(c, newsize)) then
                          Most(old(max), poolSize - available)
                        else AllocPeak(c, poolSize, old(blocks), f, Round(c, newsize), old(max)))
             && OthersKept(c, old(blocks), k, old(bytes), bytes)
             && (r != 0 ==>
                   Contents(bytes, r, old(bytes), ptr, Least(Round(c, newsize), old(blocks)[k].size - c.header)))
    {
      hide Addressed, Freed, FreeSet, Spare, Separated, Taken, Released, Align, Round, RoomAt, TakenOrder, ResizedTo,
          Fits, Overruns, SamePayload, Contents, OthersKept;
      r, i, f := 0, 0, 0;
      ghost var h := blocks;
      RowPayloads(c, h, Tail(), bytes) by { ShapeRuns(c, h, Tail(), used, ring); }
      if newsize == 0 {
        Free(ptr, k);
        if ptr != 0 { AllKept(c, h, k, old(bytes), bytes); }
        return;
      }
      var n := Align(c, newsize);
      if n < Mini(c) {
        n := Mini(c);
      }
      RoundIs(c, newsize);
      RoundTwice(c, newsize);
      if ptr == 0 {
        r, i, f := Alloc(n);
        TakenPayloads(c, h, if r == 0 then |h| else f, n, old(bytes), bytes);
        return;
      }
      r, i, f := Resize(ptr, n, k);
    }

    /** `rt_memheap_realloc` on a live payload for a rounded size. Where the growth test agrees although there is no
        room, the payload is returned as if it had grown, and a free block is built wherever the wrapped sum leads. */
    method Resize(ptr: int, n: nat, ghost k: nat) returns (r: int, ghost i: nat, ghost f: nat)
      requires Valid() && ptr != 0 && IsPayload(ptr, k) && n < c.word && n > 0
      requires Round(c, n) == n && IsMultiple(n, c.align)
      modifies this
      ensures k < |old(blocks)|
      ensures Overruns(c, old(blocks), k, n) ==> r == ptr && FreeAt((ptr + n) % c.word)
      ensures !Overruns(c, old(blocks), k, n) ==>
        && Valid() && ResizedTo(c, old(blocks), old(available), k, n, blocks, r, f)
        && max == (if r == 0 || n + c.header <= old(blocks)[k].size then old(max)
                   else if GrowsBehind(c, old(blocks), k, n) then Most(old(max), poolSize - available)
                   else AllocPeak(c, poolSize, old(blocks), f, n, old(max)))
        && (r != 0 ==> Contents(bytes, r, old(bytes), ptr, Least(n, old(blocks)[k].size - c.header)))
        && OthersKept(c, old(blocks), k, old(bytes), bytes)
    {
      hide Addressed, Freed, FreeSet, Spare, Separated, Taken, Released, Align, Round, RoomAt, TakenOrder, Shrunk,
          Grown, Fits;
      hide IsMultiple, Without, WithoutRight, ReleasedOrder, MovedRow, Refused, GrowsInPlace, Mini,
          Contents, OthersKept;
      RowPayloads(c, blocks, Tail(), bytes) by { ShapeRuns(c, blocks, Tail(), used, ring); }
      var p := ptr - c.header;
      r, i, f := ptr, 0, 0;
      HeaderSays(c, blocks, Tail(), used, ring, k);
      var before := ring[p].next - p - c.header;
      if n > before {
        var next := ring[p].next;
        if !used[next] {
          HeaderSays(c, blocks, Tail(), used, ring, k + 1);
          var size := ring[next].next - next - c.header;
          if GrowsInPlace(c, size, before, n) {
            if size + before > n {
              Grow(p, n, k);
            } else {
              Overrun(p, n, k);
            }
            return;
          }
        }
        r, i, f := Move(ptr, n, k);
        return;
      }
      if n + c.header + Mini(c) >= before {
        return;
      }
      Shrink(p, n, k);
    }

    /** The branch of `rt_memheap_realloc` that goes to another block. */
    method Move(ptr: int, n: nat, ghost k: nat) returns (r: int, ghost i: nat, ghost f: nat)
      requires Valid() && ptr != 0 && IsPayload(ptr, k) && n < c.word && Round(c, n) == n
      modifies this
      ensures Valid() && k < |old(blocks)|
      ensures r == 0 <==> Refused(c, old(blocks), old(available), n)
      ensures r == 0 ==> blocks == old(blocks) && bytes == old(bytes)
      ensures r != 0 ==> f < |old(blocks)| && Fits(c, old(blocks)[f], n) && r == old(blocks)[f].start + c.header
                         && blocks == MovedRow(c, old(blocks), f, n, k)
      ensures max == if r == 0 then old(max) else AllocPeak(c, poolSize, old(blocks), f, n, old(max))
      ensures r != 0 ==> Contents(bytes, r, old(bytes), ptr, Least(n, old(blocks)[k].size - c.header))
      ensures OthersKept(c, old(blocks), k, old(bytes), bytes)
    {
      hide Addressed, Freed, FreeSet, Spare, Separated, Taken, Released, Round, RoomAt, TakenOrder, Fits, MovedRow,
          ReleasedOrder, SamePayload, Contents, OthersKept;
      ghost var h, image := blocks, bytes;
      ShapeRuns(c, h, Tail(), used, ring);
      HeaderSays(c, h, Tail(), used, ring, k);
      var size := ring[ptr - c.header].next - (ptr - c.header) - c.header;
      r, i, f := Alloc(n);
      if r != 0 {
        ghost var o := TakenOne(c, h, f, n, k);
        ghost var middle := bytes;
        var m := if size < n then size else n;
        CopyAndFree(r, ptr, m, f, o);
        MovedPayloads(c, h, f, n, k, r, m, image, middle, bytes);
      } else {
        RowPayloads(c, h, Tail(), bytes);
      }
    }

    /** The end of `rt_memheap_realloc`: block `o` is copied to block `f` and released. */
    method CopyAndFree(r: int, ptr: int, m: nat, ghost f: nat, ghost o: nat)
      requires Valid() && ptr != 0 && IsPayload(ptr, o) && f < |blocks| && f != o
      requires r == blocks[f].start + c.header && c.header + m <= blocks[f].size && c.header + m <= blocks[o].size
      modifies this
      ensures Valid() && max == old(max) && blocks == Released(old(blocks), o)
      ensures Contents(bytes, r, old(bytes), ptr, m)
      ensures forall i :: 0 <= i < |old(blocks)| && i != f ==> SamePayload(c, old(blocks)[i], old(bytes), bytes)
    {
      hide Addressed, Freed, FreeSet, Spare, Separated, Released, ReleasedOrder, SamePayload, Contents;
      ghost var t, image := blocks, bytes;
      BlockEnd(c, blocks, Tail(), o) by { ShapeRuns(c, blocks, Tail(), used, ring); }
      Copy(r, ptr, m, f);
      ghost var copied := bytes;
      Free(ptr, o);
      PayloadsTwice(c, t, f, image, copied, bytes);
      MovedContents(c, t, f, m, image, ptr, copied, bytes);
    }

    /** `rt_memcpy` into the payload of block `f`. */
    method Copy(r: int, from: int, m: nat, ghost f: nat)
      requires Valid() && f < |blocks| && r == blocks[f].start + c.header
      requires r + m <= blocks[f].start + blocks[f].size && 0 <= from && from + m <= |bytes|
      modifies `bytes
      ensures Valid() && Contents(bytes, r, old(bytes), from, m)
      ensures forall i :: 0 <= i < |blocks| && i != f ==> SamePayload(c, blocks[i], old(bytes), bytes)
    {
      hide Addressed, Freed, FreeSet, Spare, Separated, SamePayload;
      ShapeRuns(c, blocks, Tail(), used, ring);
      BlockEnd(c, blocks, Tail(), f);
      ghost var before := bytes;
      bytes := bytes[..r] + bytes[from..from + m] + bytes[r + m..];
      CopyKeeps(c, blocks, Tail(), f, r, m, before, bytes);
    }
  }

  lemma StartFits(c: Config, h: seq<Block>, tail: nat, i: nat)
    requires Good(c) && Row(c, h, tail) && i <= |h|
    ensures StartAt(h, i, tail) <= tail
  {
    RunOrdered(h, 0, tail, c.header);
  }

  lemma OneHeader(c: Config, h: seq<Block>, to: nat, i: nat, before: seq<Byte>, after: seq<Byte>)
    requires i <= |h| && |before| == |after|
    requires forall j :: 0 <= j < |after| && !(StartAt(h, i, to) <= j < StartAt(h, i, to) + c.header) ==>
               after[j] == before[j]
    ensures HeadersOnly(c, h, to, before, after)
  {
    hide StartAt;
    forall j | 0 <= j < |after| && after[j] != before[j] ensures UnderHeader(c, h, to, j) {
    }
  }

  lemma CutPlaces(c: Config, h: seq<Block>, to: nat, k: nat, size: nat)
    requires k < |h| && h[k].size >= c.header + size
    ensures var g := CutRow(c, h, k, size);
            && |g| == |h| + 1 && StartAt(g, k, to) == h[k].start
            && StartAt(g, k + 1, to) == h[k].start + c.header + size
            && StartAt(g, k + 2, to) == StartAt(h, k + 1, to)
  {
    SplitPlaces(c, h, to, k, size);
  }

  lemma HeadersNone(c: Config, h: seq<Block>, to: nat, bytes: seq<Byte>)
    ensures HeadersOnly(c, h, to, bytes, bytes)
  {
  }

  /** The neighbours on the free list of a block are others on it, or its head. */
  lemma FreeAround(free: map<int, Link>, order: seq<int>, i: nat)
    requires Freed(free, order) && i < |order|
    ensures order[i] in free
    ensures var next, prev := free[order[i]].next, free[order[i]].prev;
            (next == HEAD || next in Members(order) - {order[i]})
            && (prev == HEAD || prev in Members(order) - {order[i]})
  {
    var s := [HEAD] + order;
    assert OnRing(free, s, i + 1);
    assert i + 2 < |s| ==> s[i + 2] == order[i + 1] && s[i + 2] != s[i + 1];
    assert i > 0 ==> s[i] == order[i - 1] && s[i] != s[i + 1];
  }

  /** What was written under the headers of a row with two blocks joined was written under headers before. */
  lemma AbsorbedHeaders(c: Config, h: seq<Block>, k: nat, to: nat, before: seq<Byte>, after: seq<Byte>)
    requires k + 1 < |h| && HeadersOnly(c, Absorbed(h, k), to, before, after)
    ensures HeadersOnly(c, h, to, before, after)
  {
    AbsorbedAt(h, k);
    var g := Absorbed(h, k);
    hide Absorbed;
    forall j | 0 <= j < |after| && after[j] != before[j] ensures UnderHeader(c, h, to, j) {
      assert UnderHeader(c, g, to, j);
      var i :| 0 <= i <= |g| && StartAt(g, i, to) <= j < StartAt(g, i, to) + c.header;
      var o := if i > k then i + 1 else i;
      assert StartAt(h, o, to) == StartAt(g, i, to);
    }
  }

  /** Marking moves no header. */
  lemma MarkedHeaders(c: Config, h: seq<Block>, k: nat, mark: bool, to: nat, before: seq<Byte>, after: seq<Byte>)
    requires k < |h|
    ensures HeadersOnly(c, MarkedAs(h, k, mark), to, before, after) <==> HeadersOnly(c, h, to, before, after)
  {
    var g := MarkedAs(h, k, mark);
    SpliceAt(h, k, 1, [h[k].(used := mark)]);
    hide MarkedAs;
    SameStarts(c, h, g, to, before, after);
    SameStarts(c, g, h, to, before, after);
  }

  lemma SameStarts(c: Config, h: seq<Block>, g: seq<Block>, to: nat, before: seq<Byte>, after: seq<Byte>)
    requires |h| == |g| && forall i :: 0 <= i < |h| ==> h[i].start == g[i].start
    ensures HeadersOnly(c, h, to, before, after) ==> HeadersOnly(c, g, to, before, after)
  {
    if HeadersOnly(c, h, to, before, after) {
      forall j | 0 <= j < |after| && after[j] != before[j] ensures UnderHeader(c, g, to, j) {
        assert UnderHeader(c, h, to, j);
        var i :| 0 <= i <= |h| && StartAt(h, i, to) <= j < StartAt(h, i, to) + c.header;
        assert StartAt(g, i, to) == StartAt(h, i, to);
      }
    }
  }

  lemma JoinedHeaders(c: Config, h: seq<Block>, k: nat, to: nat, before: seq<Byte>, after: seq<Byte>)
    requires k < |h| && HeadersOnly(c, JoinedRight(h, k), to, before, after)
    ensures HeadersOnly(c, h, to, before, after)
  {
    hide Absorbed, HeadersOnly;
    if k + 1 < |h| && !h[k + 1].used {
      AbsorbedHeaders(c, h, k, to, before, after);
    }
  }

  function Mini(c: Config): nat
    requires Good(c)
  {
    Align(c, c.minSize)
  }

  lemma PoolRow(c: Config, size: nat)
    requires Good(c) && IsMultiple(size, c.align) && 2 * c.header <= size
    ensures var h := [Block(0, size - c.header, false)];
            Row(c, h, size - c.header) && FreeSet(h) == {0} && Spare(h, c.header) == size - 2 * c.header
  {
    var h := [Block(0, size - c.header, false)];
    MultipleDifference(size, c.header, c.align);
    One(h[0], c.header);
    assert Run(h[1..], size - c.header, size - c.header, c.header);
    assert IsMultiple(0, c.align);
  }

  /** There is a free block at `p` with room for `size` bytes. */
  ghost predicate RoomAt(c: Config, h: seq<Block>, p: int, size: nat) {
    exists k :: 0 <= k < |h| && h[k].start == p && Fits(c, h[k], size)
  }

  function OrderAt(order: seq<int>, i: nat): int {
    if i < |order| then order[i] else HEAD
  }

  lemma FreeNext(free: map<int, Link>, order: seq<int>, i: nat)
    requires Freed(free, order) && i <= |order|
    ensures var p := if i == 0 then HEAD else order[i - 1]; p in free && free[p].next == OrderAt(order, i)
    ensures HEAD !in order
  {
    var s := [HEAD] + order;
    assert OnRing(free, s, i);
    assert forall j :: 0 <= j < |order| ==> order[j] == s[j + 1] && s[0] != s[j + 1];
  }

  /** The free blocks around one on the list, and the first one, have headers. */
  lemma FreeLinks(free: map<int, Link>, order: seq<int>, i: nat)
    requires Freed(free, order) && i < |order|
    ensures HEAD in free && free[HEAD].next in free
    ensures order[i] in free && free[order[i]].next in free && free[order[i]].prev in free
  {
    var s := [HEAD] + order;
    RingMember(free, s, 0);
    RingMember(free, s, i + 1);
    RingMember(free, s, i);
    RingMember(free, s, if i + 2 < |s| then i + 2 else 0);
  }

  lemma RingMember(l: map<int, Link>, s: seq<int>, i: nat)
    requires Ring(l, s) && i < |s|
    ensures s[i] in l && l[s[i]] == Link(After(s, i), Before(s, i)) && After(s, i) in l && Before(s, i) in l
  {
    assert OnRing(l, s, i);
    assert OnRing(l, s, if i + 1 < |s| then i + 1 else 0);
    assert OnRing(l, s, if i > 0 then i - 1 else |s| - 1);
  }

  lemma FreeOne(order: seq<int>, i: nat)
    requires i <= |order| && OrderAt(order, i) != HEAD
    ensures i < |order| && order[i] in Members(order)
  {
  }

  lemma NoRoom(c: Config, h: seq<Block>, tail: nat, k: nat, size: nat)
    requires c.header > 0 && Run(h, 0, tail, c.header) && k < |h| && !Fits(c, h[k], size)
    ensures !RoomAt(c, h, h[k].start, size)
  {
    RunOrdered(h, 0, tail, c.header);
  }

  lemma NoneFree(c: Config, h: seq<Block>, order: seq<int>, i: nat, size: nat, free: map<int, Link>)
    requires Members(order) == FreeSet(h) && i <= |order| && OrderAt(order, i) == HEAD && Freed(free, order)
    requires forall j :: 0 <= j < i ==> !RoomAt(c, h, order[j], size)
    ensures forall k :: 0 <= k < |h| ==> !Fits(c, h[k], size)
  {
    hide FreeSet, Fits;
    FreeNext(free, order, 0);
    forall k | 0 <= k < |h| && !h[k].used
      ensures !Fits(c, h[k], size)
    {
      FreeIs(h, h[k].start);
      assert h[k].start in Members(order);
    }
    forall k | 0 <= k < |h| && h[k].used
      ensures !Fits(c, h[k], size)
    {
      UsedFits(c, h[k], size);
    }
  }

  lemma UsedFits(c: Config, b: Block, size: nat)
    requires b.used
    ensures !Fits(c, b, size)
  {
  }

  lemma RoundPositive(c: Config, n: nat)
    requires Good(c) && c.minSize > 0 && n < c.word
    ensures Round(c, n) > 0 && IsMultiple(Round(c, n), c.align)
  {
    AlignIs(c, c.minSize);
    AlignIs(c, n);
  }

  /** Whether what is left of a block is worth keeping apart. */
  predicate Splits(c: Config, b: Block, size: nat)
    requires Good(c)
  {
    b.size - c.header >= size + c.header + Mini(c)
  }

  /** The free list after an allocation: the rest of a block that was cut comes first. */
  function TakenOrder(c: Config, h: seq<Block>, order: seq<int>, i: nat, k: nat, size: nat): seq<int>
    requires Good(c) && k < |h| && i < |order|
  {
    (if Splits(c, h[k], size) then [h[k].start + c.header + size] else []) + Removed(order, i)
  }

  lemma TakenFirst(c: Config, h: seq<Block>, order: seq<int>, i: nat, k: nat, size: nat)
    requires Good(c) && k < |h| && i < |order| && Fits(c, h[k], size)
    ensures var spare := h[k].size - c.header - size;
            TakenOrder(c, h, order, i, k, size) ==
            (if spare >= c.header + Mini(c) then [h[k].start + c.header + size] else []) + order[..i] + order[i + 1..]
  {
    hide Mini;
  }

  /** A block asked to be no larger stays as it is or is cut to size, and in neither case has room for another one
      behind what was asked for. */
  lemma ResizedSize(c: Config, h: seq<Block>, available: int, k: nat, n: nat, after: seq<Block>, r: int, f: nat)
    requires Good(c) && k < |h| && h[k].used && c.header + n <= h[k].size
    requires ResizedTo(c, h, available, k, n, after, r, f)
    ensures r == h[k].start + c.header && k < |after| && after[k].start == h[k].start && after[k].used
    ensures n <= after[k].size - c.header <= n + c.header + Mini(c)
    ensures after[k].size < h[k].size ==> after[k].size == c.header + n && h[k].size > c.header + n + c.header + Mini(c)
    ensures after[k].size == h[k].size ==> after == h
  {
    hide Mini;
    if n + c.header + Mini(c) < h[k].size - c.header {
      var g := Splice(h, k, 1, Cut(c, h[k], n));
      CutAt(c, h, k, n);
      assert g[k] == Block(h[k].start, c.header + n, true);
      hide Cut;
      PluggedBefore(g, k + 1);
    }
  }

  lemma PluggedBefore(g: seq<Block>, k: nat)
    requires 0 < k < |g| && g[k - 1].used
    ensures |Plugged(g, k)| >= k && Plugged(g, k)[k - 1] == g[k - 1]
  {
  }

  lemma TakenIs(c: Config, h: seq<Block>, k: nat, size: nat)
    requires Good(c) && k < |h| && Fits(c, h[k], size)
    ensures var g := if Splits(c, h[k], size) then CutRow(c, h, k, size) else h;
            && |g| > k && g[k].start == h[k].start && !g[k].used && MarkedAs(g, k, true) == Taken(c, h, k, size)
            && g[k].size == if Splits(c, h[k], size) then c.header + size else h[k].size
  {
    hide Taken;
    TakenMark(c, h, k, size, CutIfRoom(c, h, k, size));
  }

  function IndexOf(s: seq<int>, p: int): (i: nat)
    requires p in s
    ensures i < |s| && s[i] == p
  {
    if s[0] == p then 0 else 1 + IndexOf(s[1..], p)
  }

  function Without(s: seq<int>, p: int): seq<int> {
    if p in s then Removed(s, IndexOf(s, p)) else s
  }

  function WithoutRight(h: seq<Block>, order: seq<int>, k: nat): seq<int> {
    if k + 1 < |h| && !h[k + 1].used then Without(order, h[k + 1].start) else order
  }

  function JoinedRight(h: seq<Block>, k: nat): seq<Block> {
    if k + 1 < |h| && !h[k + 1].used then Absorbed(h, k) else h
  }

  /** A released block goes to the front of the free list, unless it joins the one before it. */
  function ReleasedOrder(h: seq<Block>, order: seq<int>, k: nat): seq<int>
    requires k < |h|
  {
    (if k > 0 && !h[k - 1].used then [] else [h[k].start]) + WithoutRight(h, order, k)
  }

  lemma FreedOrder(h: seq<Block>, order: seq<int>, k: nat)
    requires k < |h|
    ensures var g := MarkedAs(h, k, false);
            && |g| == |h|
            && if k > 0 && !h[k - 1].used then
                 WithoutRight(Absorbed(g, k - 1), order, k - 1) == ReleasedOrder(h, order, k)
               else
                 [h[k].start] + WithoutRight(g, order, k) == ReleasedOrder(h, order, k)
  {
    hide Without, MarkedAs, Absorbed;
    FreedIs(h, k);
    if k > 0 && !h[k - 1].used {
      assert [] + WithoutRight(h, order, k) == WithoutRight(h, order, k);
    }
  }

  /** Joining to the left first and then to the right comes to the same as the other way round. */
  lemma FreedIs(h: seq<Block>, k: nat)
    requires k < |h|
    ensures var g := MarkedAs(h, k, false);
            && |g| == |h| && g[k] == h[k].(used := false)
            && (k > 0 ==> g[k - 1] == h[k - 1]) && (k + 1 < |h| ==> g[k + 1] == h[k + 1])
            && if k > 0 && !h[k - 1].used then
                 var l := Absorbed(g, k - 1);
                 && |l| == |h| - 1 && l[k - 1].start == h[k - 1].start && !l[k - 1].used
                 && (k + 1 < |h| ==> l[k] == h[k + 1])
                 && JoinedRight(l, k - 1) == Released(h, k)
               else JoinedRight(g, k) == Released(h, k)
  {
    var g := MarkedAs(h, k, false);
    if k > 0 && !h[k - 1].used {
      var l := Absorbed(g, k - 1);
      AbsorbedAt(g, k - 1);
      if k + 1 < |h| && !h[k + 1].used {
        AbsorbedAt(l, k - 1);
        SpliceAt(g, k, 2, [Block(g[k].start, g[k].size + g[k + 1].size, false)]);
        var r := Merged(g, k);
        SpliceAt(r, k - 1, 2, [Block(r[k - 1].start, r[k - 1].size + r[k].size, false)]);
        assert Merged(r, k - 1) == Absorbed(l, k - 1);
      }
    }
  }

  /** When `rt_memheap_alloc` gives null: the size is all there is or more, or no block has room. */
  ghost predicate Refused(c: Config, h: seq<Block>, available: int, size: nat) {
    size >= available || forall j :: 0 <= j < |h| ==> !Fits(c, h[j], size)
  }

  /** A request for all the bytes available is refused even by a block that has room for it: one that is the only
      free one. */
  lemma FittingRefused(c: Config, h: seq<Block>, tail: nat, k: nat, size: nat)
    requires Good(c) && Row(c, h, tail) && k < |h| && Fits(c, h[k], size)
    ensures Refused(c, h, Spare(h, c.header), size)
       <==> h[k].size == c.header + size && Spare(h, c.header) == size
  {
    RunOrdered(h, 0, tail, c.header);
    SpareAtLeast(h, c.header, k);
  }

  /** A pool of 148 bytes, all of them free: its one block has room for 100 bytes, and they are refused. */
  lemma AllRefused()
    ensures var c, h := Small(), [Block(0, 124, false)];
            && Good(c) && Row(c, h, 124) && Spare(h, c.header) == 100 && Round(c, 100) == 100
            && Fits(c, h[0], 100) && Refused(c, h, Spare(h, c.header), 100)
  {
    hide *;
    var c, h := Small(), [Block(0, 124, false)];
    SmallGood();
    SmallRound(c, 100);
    SmallFree(c, h);
  }

  lemma SmallFree(c: Config, h: seq<Block>)
    requires c == Small() && Good(c) && h == [Block(0, 124, false)]
    ensures Row(c, h, 124) && Spare(h, c.header) == 100 && Fits(c, h[0], 100) && Refused(c, h, Spare(h, c.header), 100)
  {
    hide Good;
    assert h[1..] == [] && Run([], 124, 124, 24) && Spare([], 24) == 0;
  }

  /** A request taken from block `k` gets a block that holds it exactly if its rounding does not wrap. */
  lemma RequestCovered(c: Config, h: seq<Block>, poolSize: nat, k: nat, size: nat)
    requires Good(c) && 2 * c.header <= poolSize <= c.word && size < c.word && k < |h|
    requires Row(c, h, poolSize - c.header) && Fits(c, h[k], Round(c, size))
    ensures var t := Taken(c, h, k, Round(c, size));
            k < |t| && (t[k].size - c.header >= size <==> size + c.align <= c.word)
  {
    AllocCovers(c, h, poolSize - 2 * c.header, k, size);
  }

  /** A request for 0xFFFFFFFE bytes in a pool with 100 free ones is met with a block of 12. */
  lemma RequestShort()
    ensures var c, h := Small(), [Block(0, 124, false)];
            && Good(c) && Row(c, h, 124) && Fits(c, h[0], Round(c, 0xFFFF_FFFE))
            && !Refused(c, h, Spare(h, c.header), Round(c, 0xFFFF_FFFE))
            && |Taken(c, h, 0, Round(c, 0xFFFF_FFFE))| > 0
            && Taken(c, h, 0, Round(c, 0xFFFF_FFFE))[0] == Block(0, 24 + 12, true)
  {
    hide *;
    var c := Small();
    SmallGood();
    SmallWraps(c);
    SmallFields(c);
    OneRow(c, 124, false);
    LeastTaken(c, [Block(0, 124, false)]);
    NotRefused(c, [Block(0, 124, false)]);
  }

  lemma SmallWraps(c: Config)
    requires c == Small() && Good(c)
    ensures Align(c, c.minSize) == 12 && Round(c, 0xFFFF_FFFE) == 12
  {
    hide Align, Good;
    AlignIs(c, 0xFFFF_FFFE);
    AlignIs(c, 12);
  }

  lemma NotRefused(c: Config, h: seq<Block>)
    requires |h| == 1 && h[0].size == 124 && !h[0].used && c.header == 24
    ensures !Refused(c, h, Spare(h, c.header), 12)
  {
    assert Spare(h[1..], 24) == 0;
    assert Fits(c, h[0], 12);
  }

  /** A size kept in a signed integer of 32 bits. */
  function Signed(x: nat): int {
    var low := x % 0x1_0000_0000;
    if low < 0x8000_0000 then low else low - 0x1_0000_0000
  }

  /** What the test for growing in place adds up: the size of the next block has gone through a signed 32-bit
      integer. */
  function Seen(c: Config, next: nat, before: nat): nat
    requires Good(c)
  {
    (Signed(next) + before) % c.word
  }

  /** The test for growing in place, whose right side wraps around. */
  predicate GrowsInPlace(c: Config, next: nat, before: nat, n: nat)
    requires Good(c)
  {
    Seen(c, next, before) > (n + Mini(c)) % c.word
  }

  /** The size type has 32 bits or a multiple of that. */
  predicate Wide(c: Config) {
    c.word > 0 && c.word % 0x1_0000_0000 == 0
  }

  /** The test sees the true sum exactly if the size of the next block survives in 32 bits: always, if the size type
      has no more. */
  lemma SeenIs(c: Config, next: nat, before: nat)
    requires Good(c) && Wide(c) && next + before < c.word
    ensures Seen(c, next, before) == next + before <==> next < 0x8000_0000 || c.word - 0x8000_0000 <= next
    ensures c.word == 0x1_0000_0000 ==> Seen(c, next, before) == next + before
    ensures var s := Signed(next);
            Seen(c, next, before) == if s + before >= 0 then s + before else c.word + s + before
  {
    hide Good;
    var s := Signed(next);
    SignedIs(c, next);
    hide Signed;
    if s + before >= 0 {
      Remainder(s + before, c.word);
    } else {
      Remainder(c.word + s + before, c.word);
      Below(c.word, s + before);
    }
  }

  lemma SignedIs(c: Config, x: nat)
    requires Wide(c) && x < c.word
    ensures -0x8000_0000 <= Signed(x) <= x
    ensures Signed(x) == x <==> x < 0x8000_0000
    ensures Signed(x) == x - c.word <==> c.word - 0x8000_0000 <= x
  {
    var k := c.word / 0x1_0000_0000;
    assert c.word == 0x1_0000_0000 * k;
    var q := x / 0x1_0000_0000;
    assert x == 0x1_0000_0000 * q + x % 0x1_0000_0000;
  }

  lemma Below(m: nat, x: int)
    requires 0 <= m + x < m && x < 0
    ensures x % m == m + x
  {
    assert x == -1 * m + (m + x);
  }

  /** What the test sees and what there is lie on the same side of what is asked for; where the right side wraps, the
      test says no. */
  predicate Agrees(c: Config, next: nat, before: nat, n: nat)
    requires Good(c)
  {
    var seen, sum, need := Seen(c, next, before), next + before, n + Mini(c);
    if need < c.word then seen == sum || need < Least(seen, sum) || Most(seen, sum) <= need
    else seen <= need - c.word
  }

  /** In terms of the sizes. A right side that wraps must fail the test. If it does not wrap, the test is right for a
      next block of less than 2^31 bytes; one whose size is cut to a smaller number must have too little room or still
      seem to have enough, and one whose size makes the sum negative must have enough or seem to have too little. */
  lemma AgreesIs(c: Config, next: nat, before: nat, n: nat)
    requires Good(c) && Wide(c) && n < c.word && next + before < c.word && Mini(c) <= c.word
    ensures var need, cut := n + Mini(c), Signed(next) + before;
            Agrees(c, next, before, n) <==>
            if need >= c.word then !GrowsInPlace(c, next, before, n)
            else next < 0x8000_0000 || c.word - 0x8000_0000 <= next
                 || if cut >= 0 then next + before <= need || need < cut
                    else need < next + before || c.word + cut <= need
  {
    hide Mini, Good, Seen, Signed;
    SeenIs(c, next, before);
    SignedIs(c, next);
    AskedIs(c, n);
    SeenMore(c, next, before);
  }

  /** A sum that wraps below zero comes out larger than the true one. */
  lemma SeenMore(c: Config, next: nat, before: nat)
    requires Wide(c) && next + before < c.word
    ensures next <= c.word + Signed(next)
  {
    var k := c.word / 0x1_0000_0000;
    assert c.word == 0x1_0000_0000 * k;
    var q := next / 0x1_0000_0000;
    assert next == 0x1_0000_0000 * q + next % 0x1_0000_0000;
    assert q < k;
  }

  /** The test is right exactly if neither the 32 bits nor the wrap lead it astray. */
  lemma GrowthExact(c: Config, next: nat, before: nat, n: nat)
    requires Good(c) && n < c.word && next + before < c.word && Mini(c) <= c.word
    ensures (GrowsInPlace(c, next, before, n) <==> next + before > n + Mini(c)) <==> Agrees(c, next, before, n)
  {
    hide Mini, Seen;
    AskedIs(c, n);
  }

  /** A free block follows, and the test for growing into it agrees. */
  predicate GrowsBehind(c: Config, h: seq<Block>, k: nat, n: nat)
    requires Good(c) && k < |h|
  {
    && k + 1 < |h| && !h[k + 1].used && h[k].size >= c.header && h[k + 1].size >= c.header
    && GrowsInPlace(c, h[k + 1].size - c.header, h[k].size - c.header, n)
  }

  /** The test agrees, and there is no room for the bytes asked for. */
  predicate Overruns(c: Config, h: seq<Block>, k: nat, n: nat)
    requires Good(c) && k < |h|
  {
    GrowsBehind(c, h, k, n) && n > h[k].size - c.header && h[k].size + h[k + 1].size <= n + 2 * c.header
  }

  /** In a heap, a block grows in place just where there is room for the bytes and a least block behind them exactly if
      the test is not led astray. */
  lemma RoomExact(c: Config, h: seq<Block>, tail: nat, k: nat, n: nat)
    requires Good(c) && Row(c, h, tail) && tail + c.header + Mini(c) <= c.word && n < c.word && k < |h|
    ensures forall i :: 0 <= i < |h| ==> h[i].size >= c.header
    ensures (GrowsBehind(c, h, k, n) <==> RoomBehind(c, h, k, n)) <==>
            k + 1 == |h| || h[k + 1].used || Agrees(c, h[k + 1].size - c.header, h[k].size - c.header, n)
  {
    hide Mini, Good, GrowsInPlace, Agrees;
    Beside(c, h, tail, k);
    hide Row;
    if k + 1 < |h| {
      GrowthExact(c, h[k + 1].size - c.header, h[k].size - c.header, n);
    }
  }

  lemma Beside(c: Config, h: seq<Block>, tail: nat, k: nat)
    requires Good(c) && Row(c, h, tail) && k < |h|
    ensures c.header > 0 && forall i :: 0 <= i < |h| ==> h[i].size >= c.header
    ensures k + 1 < |h| ==> h[k].size + h[k + 1].size <= tail
  {
    RunOrdered(h, 0, tail, c.header);
  }

  /** The test agrees although there is no room in two ways. The sizes asked for wrap, and what it sees is more than
      what is left of them; or they do not, and the next size has become so negative in 32 bits that the sum wraps. */
  lemma OverrunExact(c: Config, h: seq<Block>, tail: nat, k: nat, n: nat)
    requires Good(c) && Wide(c) && Row(c, h, tail) && tail + c.header + Mini(c) <= c.word && n < c.word
    requires k + 1 < |h| && !h[k + 1].used && h[k].size - c.header < n
    ensures h[k].size >= c.header && h[k + 1].size >= c.header
    ensures var next, before := h[k + 1].size - c.header, h[k].size - c.header;
            Overruns(c, h, k, n) <==>
            if n + Mini(c) >= c.word then Seen(c, next, before) > n + Mini(c) - c.word
            else next + before <= n && Signed(next) + before < 0 && c.word + Signed(next) + before > n + Mini(c)
  {
    hide Row, Mini, Good, Seen, Signed;
    Beside(c, h, tail, k);
    var next, before := h[k + 1].size - c.header, h[k].size - c.header;
    SeenIs(c, next, before);
    SignedIs(c, next);
    AskedIs(c, n);
  }

  lemma AskedIs(c: Config, n: nat)
    requires Good(c) && n < c.word && Mini(c) <= c.word
    ensures (n + Mini(c)) % c.word == if n + Mini(c) < c.word then n + Mini(c) else n + Mini(c) - c.word
  {
    hide Good, Mini;
    if n + Mini(c) < c.word {
      Remainder(n + Mini(c), c.word);
    } else {
      Remainder(n + Mini(c) - c.word, c.word);
    }
  }

  /** A heap on a machine of 32 bits. */
  function Small(): Config { Config(4, 24, 12, 0x1_0000_0000) }

  lemma SmallGood()
    ensures Good(Small())
  {
  }

  lemma SmallRound(c: Config, n: nat)
    requires c == Small() && Good(c) && n % 4 == 0 && 12 <= n <= 0xFFFF_FFFC
    ensures Mini(c) == 12 && Round(c, n) == n
  {
    hide Align, Good;
    AlignIs(c, n);
    AlignIs(c, 12);
  }

  /** A pool of 200 bytes with a used block of 40 bytes and the other 88 free. Asked to grow the block to
      0xFFFFFFFC bytes, the test compares 128 with 8 and agrees, and the header of the rest would be
      built four bytes before the payload, inside the block's own header. */
  lemma GrowsWithoutRoom()
    ensures var c, h, n := Small(), [Block(0, 64, true), Block(64, 112, false)], 0xFFFF_FFFC;
            && Good(c) && Row(c, h, 176) && Separated(h) && 176 + c.header + Mini(c) <= c.word && Round(c, n) == n
            && Overruns(c, h, 0, n) && h[0].size + h[1].size < n
            && (h[0].start + c.header + n) % 0x1_0000_0000 == 20 < c.header
  {
    hide *;
    var c, h, n := Small(), [Block(0, 64, true), Block(64, 112, false)], 0xFFFF_FFFC;
    SmallGood();
    SmallRound(c, n);
    SmallFields(c);
    TwoRow(c, h[0], h[1]);
    Astray(c, h, n, 8);
    Wraps(20);
  }

  lemma SmallFields(c: Config)
    requires c == Small()
    ensures c.align == 4 && c.header == 24 && c.word == 0x1_0000_0000
  {
  }

  lemma Astray(c: Config, h: seq<Block>, n: nat, rest: nat)
    requires Good(c) && c.word == 0x1_0000_0000 && n + Mini(c) == c.word + rest && rest < 128
    requires |h| == 2 && !h[1].used && c.header <= 100 && h[0].size == c.header + 40 && h[1].size == c.header + 88
    requires n > 0x1000_0000
    ensures Overruns(c, h, 0, n)
  {
    hide Good, Mini;
    Remainder(rest, c.word);
    assert Seen(c, 88, 40) == 128;
  }

  lemma Wraps(n: nat)
    requires n < 100
    ensures (n + 0x1_0000_0000) % 0x1_0000_0000 == n
  {
  }

  lemma TwoRow(c: Config, a: Block, b: Block)
    requires Good(c) && a.start == 0 && a.used && a.size >= c.header && b.start == a.size && b.size >= c.header
    requires c.align > 0 && a.size % c.align == 0 && b.size % c.align == 0
    ensures Row(c, [a, b], a.size + b.size) && Separated([a, b])
  {
    hide Good;
    var h, end := [a, b], a.size + b.size;
    assert h[1..] == [b] && [b][1..] == [];
    assert Run([], end, end, c.header);
    assert Run([b], a.size, end, c.header);
    assert IsMultiple(0, c.align);
  }

  /** A heap on a machine of 64 bits. */
  function Large(): Config { Config(8, 48, 12, 0x1_0000_0000_0000_0000) }

  lemma LargeGood()
    ensures Good(Large())
  {
  }

  /** On 64 bits, a used block of 40 bytes with 2^31 free bytes behind it. Asked to grow it to 2^33 bytes, the test
      sees -2^31 + 40, which wraps to almost all there is, and agrees. */
  lemma GrowsIntoNothing()
    ensures var c, h, n := Large(), [Block(0, 88, true), Block(88, 0x8000_0030, false)], 0x2_0000_0000;
            && Good(c) && Row(c, h, 0x8000_0088) && Separated(h) && 0x8000_0088 + c.header + Mini(c) <= c.word
            && Round(c, n) == n && Overruns(c, h, 0, n)
  {
    hide *;
    var c, h, n := Large(), [Block(0, 88, true), Block(88, 0x8000_0030, false)], 0x2_0000_0000;
    LargeGood();
    LargeRound(c, n);
    LargeFields(c);
    TwoRow(c, h[0], h[1]);
    LargeSeen(c);
    AstrayToo(c, h, n);
  }

  lemma LargeRound(c: Config, n: nat)
    requires c == Large() && Good(c) && n % 8 == 0 && 16 <= n <= 0xF_0000_0000
    ensures Mini(c) == 16 && Round(c, n) == n
  {
    hide Align, Good;
    AlignIs(c, n);
    AlignIs(c, 12);
  }

  lemma LargeFields(c: Config)
    requires c == Large()
    ensures c.align == 8 && c.header == 48 && c.word == 0x1_0000_0000_0000_0000
  {
  }

  lemma LargeSeen(c: Config)
    requires c == Large() && Good(c)
    ensures Seen(c, 0x8000_0000, 40) == 0x1_0000_0000_0000_0000 - 0x8000_0000 + 40
    ensures Seen(c, 0x1_0000_0068, 40) == 144
  {
    hide Good;
  }

  lemma AstrayToo(c: Config, h: seq<Block>, n: nat)
    requires Good(c) && c.header == 48 && c.word == 0x1_0000_0000_0000_0000 && Mini(c) == 16 && n == 0x2_0000_0000
    requires |h| == 2 && !h[1].used && h[0].size == 88 && h[1].size == 0x8000_0030
    requires Seen(c, 0x8000_0000, 40) == 0x1_0000_0000_0000_0000 - 0x8000_0000 + 40
    ensures Overruns(c, h, 0, n)
  {
    hide Good, Mini, Seen;
    Remainder(n + Mini(c), c.word);
  }

  /** With 2^32 + 104 free bytes behind it, the same block is not let grow to 1000 bytes: the test sees 104 of them. */
  lemma RoomOverlooked()
    ensures var c, h, n := Large(), [Block(0, 88, true), Block(88, 0x1_0000_0098, false)], 1000;
            && Good(c) && Row(c, h, 0x1_0000_00F0) && Separated(h) && 0x1_0000_00F0 + c.header + Mini(c) <= c.word
            && Round(c, n) == n && RoomBehind(c, h, 0, n) && !GrowsBehind(c, h, 0, n)
  {
    hide *;
    var c, h, n := Large(), [Block(0, 88, true), Block(88, 0x1_0000_0098, false)], 1000;
    LargeGood();
    LargeRound(c, n);
    LargeFields(c);
    TwoRow(c, h[0], h[1]);
    LargeSeen(c);
    Overlooked(c, h, n);
  }

  lemma Overlooked(c: Config, h: seq<Block>, n: nat)
    requires Good(c) && c.header == 48 && c.word == 0x1_0000_0000_0000_0000 && Mini(c) == 16 && n == 1000
    requires |h| == 2 && !h[1].used && h[0].size == 88 && h[1].size == 0x1_0000_0098
    requires Seen(c, 0x1_0000_0068, 40) == 144
    ensures RoomBehind(c, h, 0, n) && !GrowsBehind(c, h, 0, n)
  {
    hide Good, Mini, Seen;
    Remainder(n + Mini(c), c.word);
  }

  /** Block `k` grown to `n` bytes of payload at the expense of the free block behind it. */
  function Grown(c: Config, h: seq<Block>, k: nat, n: nat): seq<Block>
    requires k + 1 < |h| && c.header + n <= h[k].size + h[k + 1].size
  {
    Splice(h, k, 2, [Block(h[k].start, c.header + n, true),
                     Block(h[k].start + c.header + n, h[k].size + h[k + 1].size - c.header - n, false)])
  }

  /** The bytes of the other blocks, and those the block had before it grew, are kept if header writes spare the
      payloads of the row before and then of the row afterwards. */
  lemma GrownPayloads(c: Config, h: seq<Block>, k: nat, n: nat, a: seq<Byte>, b: seq<Byte>, d: seq<Byte>)
    requires k + 1 < |h| && h[k].used && !h[k + 1].used
    requires c.header <= h[k].size <= c.header + n <= h[k].size + h[k + 1].size
    requires forall i :: 0 <= i < |h| ==> SamePayload(c, h[i], a, b)
    requires var g := Grown(c, h, k, n); forall i :: 0 <= i < |g| ==> SamePayload(c, g[i], b, d)
    ensures OthersKept(c, h, k, a, d)
    ensures Contents(d, h[k].start + c.header, a, h[k].start + c.header, h[k].size - c.header)
  {
    var two := [Block(h[k].start, c.header + n, true),
                Block(h[k].start + c.header + n, h[k].size + h[k + 1].size - c.header - n, false)];
    SpliceAt(h, k, 2, two);
    var g := Grown(c, h, k, n);
    hide Splice, Grown;
    forall i | 0 <= i < |h| && h[i].used && i != k ensures SamePayload(c, h[i], a, d) {
      assert g[i] == h[i] && SamePayload(c, g[i], b, d);
    }
    assert SamePayload(c, h[k], a, b) && SamePayload(c, g[k], b, d);
    var r, m := h[k].start + c.header, h[k].size - c.header;
    assert d[r..r + m] == a[r..r + m];
  }

  lemma GrownIs(c: Config, h: seq<Block>, k: nat, n: nat)
    requires Separated(h) && k + 1 < |h| && h[k].used && !h[k + 1].used && c.header + n <= h[k].size + h[k + 1].size
    ensures var g := Absorbed(h, k);
            && |g| > k && g[k] == Block(h[k].start, h[k].size + h[k + 1].size, true)
            && CutRow(c, g, k, n) == Grown(c, h, k, n)
    ensures Separated(Grown(c, h, k, n))
  {
    AbsorbedAt(h, k);
    var g := Absorbed(h, k);
    assert k + 2 < |h| ==> h[k + 2 - 1].used || h[k + 2].used;
    CutAsIs(c, g[k], n);
    SpliceAt(g, k, 1, CutAs(c, g[k], n));
    var two := [Block(h[k].start, c.header + n, true),
                Block(h[k].start + c.header + n, h[k].size + h[k + 1].size - c.header - n, false)];
    SpliceAt(h, k, 2, two);
    assert CutRow(c, g, k, n) == Grown(c, h, k, n);
    hide Splice, CutAs, CutRow, Absorbed;
    var t := Grown(c, h, k, n);
    forall i | 0 < i < |t|
      ensures t[i - 1].used || t[i].used
    {
      assert h[i - 1].used || h[i].used;
    }
  }

  lemma UsedCut(c: Config, h: seq<Block>, k: nat, n: nat)
    requires k < |h| && h[k].used && h[k].size >= c.header + n
    ensures CutRow(c, h, k, n) == Splice(h, k, 1, Cut(c, h[k], n))
  {
    CutAsIs(c, h[k], n);
    assert CutAs(c, h[k], n) == Cut(c, h[k], n);
  }

  lemma ShrunkIs(c: Config, h: seq<Block>, order: seq<int>, k: nat, n: nat)
    requires k < |h| && h[k].used && h[k].size >= c.header + n
    ensures var g := CutRow(c, h, k, n);
            && |g| == |h| + 1 && g[k] == Block(h[k].start, c.header + n, true)
            && g[k + 1] == Block(h[k].start + c.header + n, h[k].size - c.header - n, false)
            && JoinedRight(g, k + 1) == Shrunk(c, h, k, n)
            && WithoutRight(g, order, k + 1) == WithoutRight(h, order, k)
  {
    CutAsIs(c, h[k], n);
    CutAt(c, h, k, n);
    var g := CutRow(c, h, k, n);
    assert CutAs(c, h[k], n) == Cut(c, h[k], n);
    hide Splice, CutAs, CutRow, Cut;
    assert g == Splice(h, k, 1, Cut(c, h[k], n)) by { CutRowIs(c, h, k, n); }
    JoinedIs(g, k + 1);
  }

  /** Behind a used block, `plug_holes` only joins to the right. */
  lemma JoinedIs(g: seq<Block>, k: nat)
    requires 0 < k < |g| && g[k - 1].used && !g[k].used
    ensures JoinedRight(g, k) == Plugged(g, k)
  {
    if k + 1 < |g| && !g[k + 1].used {
      MergedAt(g, k);
      AbsorbedAt(g, k);
    }
  }

  lemma RoundIs(c: Config, n: nat)
    requires Good(c) && c.minSize > 0 && n < c.word
    ensures Round(c, n) == if Align(c, n) < Mini(c) then Mini(c) else Align(c, n)
    ensures Round(c, n) > 0 && IsMultiple(Round(c, n), c.align)
  {
    RoundPositive(c, n);
  }

  lemma AlignBelow(c: Config, n: nat)
    requires Good(c)
    ensures Align(c, n) < c.word
  {
    AlignDown((n + c.align - 1) % c.word, c.align);
  }

  /** Rounding twice is rounding once. */
  lemma RoundTwice(c: Config, n: nat)
    requires Good(c) && c.minSize > 0 && n < c.word
    ensures Round(c, n) < c.word && Round(c, Round(c, n)) == Round(c, n)
  {
    var m := Round(c, n);
    AlignIs(c, n);
    AlignIs(c, c.minSize);
    AlignBelow(c, n);
    AlignBelow(c, c.minSize);
    MultipleBelow(m, c.word, c.align);
    AlignIs(c, m);
    if m < Align(c, m) {
      MultipleBelow(m, Align(c, m), c.align);
    }
  }

  /** A free block follows, and with it block `k` would have room for `n` bytes and a least block. */
  predicate RoomBehind(c: Config, h: seq<Block>, k: nat, n: nat)
    requires Good(c) && k < |h|
    ensures RoomBehind(c, h, k, n) ==> k + 1 < |h| && c.header + n <= h[k].size + h[k + 1].size
  {
    k + 1 < |h| && !h[k + 1].used && h[k].size + h[k + 1].size - 2 * c.header > n + Mini(c)
  }

  /** What reallocation of the used block `k` to a rounded size comes to. */
  ghost predicate ResizedTo(c: Config, h: seq<Block>, available: int, k: nat, n: nat, after: seq<Block>, r: int, f: nat)
    requires Good(c) && k < |h|
  {
    var ptr, before := h[k].start + c.header, h[k].size - c.header;
    if n > before then
      if GrowsBehind(c, h, k, n) then
        r == ptr && c.header + n <= h[k].size + h[k + 1].size && after == Grown(c, h, k, n)
      else
        && (r == 0 <==> Refused(c, h, available, n))
        && (r == 0 ==> after == h)
        && (r != 0 ==>
              && f < |h| && Fits(c, h[f], n) && h[k].used
              && r == h[f].start + c.header && after == MovedRow(c, h, f, n, k))
    else
      r == ptr && after == if n + c.header + Mini(c) >= before then h else Shrunk(c, h, k, n)
  }

  /** The most bytes ever used once block `f` has been taken. */
  function AllocPeak(c: Config, poolSize: nat, h: seq<Block>, f: nat, n: nat, max: int): int
    requires Good(c) && f < |h| && Fits(c, h[f], n)
  {
    Most(max, poolSize - Spare(Taken(c, h, f, n), c.header))
  }
}
