/**
 The small-memory heap (rt-thread/src/mem.c): blocks with a header each, threaded through one region
 by offsets, first-fit search from the lowest free block, splitting, and joining of free neighbours.
 */
module SmallMem {
  import opened Basics

  // ------------------------------------------------------------------ sizes

  /** RT_ALIGN_SIZE, SIZEOF_STRUCT_MEM, MIN_SIZE, and the number of values of `rt_size_t`. */
  datatype Config = Config(align: nat, header: nat, minSize: nat, word: nat)

  predicate Good(c: Config) {
    && c.align > 0 && c.header > 0 && c.header % c.align == 0 && c.word % c.align == 0
    && c.minSize + c.align <= c.word
  }

  /** `RT_ALIGN`, whose addition wraps around. */
  function Align(c: Config, n: nat): nat
    requires Good(c)
  {
    var s := (n + c.align - 1) % c.word;
    s - s % c.align
  }

  /** The payload a request is rounded to. */
  function Round(c: Config, n: nat): nat
    requires Good(c)
  {
    if Align(c, n) < Align(c, c.minSize) then Align(c, c.minSize) else Align(c, n)
  }

  lemma MultipleBelow(x: nat, m: nat, d: nat)
    requires d > 0 && x % d == 0 && m % d == 0 && x < m
    ensures x + d <= m
  {
    assert x == d * (x / d) && m == d * (m / d);
    if x / d >= m / d {
      Scaled(d, m / d, x / d);
    } else {
      Scaled(d, x / d + 1, m / d);
      assert d * (x / d + 1) == d * (x / d) + d;
    }
  }

  lemma Scaled(d: nat, a: nat, b: nat)
    requires a <= b
    ensures d * a <= d * b
  {
    assert d * b == d * a + d * (b - a);
  }

  lemma MultipleSum(x: nat, y: nat, d: nat)
    requires d > 0 && x % d == 0 && y % d == 0
    ensures (x + y) % d == 0
  {
    assert x == d * (x / d) && y == d * (y / d);
    assert x + y == d * (x / d + y / d);
    MultipleOf(x + y, d, x / d + y / d);
  }

  lemma MultipleOf(x: nat, d: nat, q: nat)
    requires d > 0 && x == d * q
    ensures x % d == 0
  {
    var k := x / d;
    assert x == d * k + x % d;
    if q < k {
      Scaled(d, q + 1, k);
    } else if k < q {
      Scaled(d, k + 1, q);
    }
  }

  lemma AlignDown(s: nat, d: nat)
    requires d > 0
    ensures (s - s % d) % d == 0 && s - d < s - s % d <= s
  {
    assert s - s % d == d * (s / d);
    MultipleOf(s - s % d, d, s / d);
  }

  /** Rounding goes up to a multiple of the alignment, unless the addition wraps: then it gives zero. */
  lemma AlignIs(c: Config, n: nat)
    requires Good(c) && n < c.word
    ensures c.align > 0 && Align(c, n) % c.align == 0
    ensures n + c.align <= c.word ==> n <= Align(c, n) < n + c.align
    ensures n + c.align > c.word ==> Align(c, n) == 0
  {
    assert 0 < c.align <= c.word;
    var s := n + c.align - 1;
    var t := s % c.word;
    assert Align(c, n) == t - t % c.align;
    hide Good, Align;
    AlignDown(t, c.align);
    if s < c.word {
      Remainder(s, c.word);
    } else {
      Remainder(s - c.word, c.word);
      Remainder(t, c.align);
    }
  }

  lemma Remainder(x: nat, m: nat)
    requires x < m
    ensures x % m == x && (x + m) % m == x
  {
  }

  lemma AlignMultiple(c: Config, n: nat)
    requires Good(c) && n < c.word
    ensures c.align > 0 && IsMultiple(Align(c, n), c.align)
  {
    AlignIs(c, n);
  }

  /** A request is rounded to at least its own size exactly if the addition does not wrap. */
  lemma RoundCovers(c: Config, n: nat)
    requires Good(c) && n < c.word
    ensures Round(c, n) % c.align == 0 && Round(c, n) >= c.minSize
    ensures Round(c, n) >= n <==> n + c.align <= c.word
    ensures Round(c, n) < c.minSize + c.align || (Round(c, n) < n + c.align && n + c.align <= c.word)
  {
    AlignIs(c, n);
    AlignIs(c, c.minSize);
    if n + c.align > c.word && Align(c, c.minSize) >= n {
      assert Align(c, c.minSize) < c.word by { AlignDown(c.minSize + c.align - 1, c.align); }
      MultipleBelow(Align(c, c.minSize), c.word, c.align);
      assert false;
    }
  }

  // ------------------------------------------------------------------ the heap as a row of blocks

  /** A block with its header: `size` counts both. */
  datatype Block = Block(start: nat, size: nat, used: bool)

  /** The blocks lie end to end from `from` to `to`, each with room for its header. */
  predicate Run(h: seq<Block>, from: nat, to: nat, header: nat) {
    if h == [] then from == to
    else h[0].start == from && h[0].size >= header && Run(h[1..], from + h[0].size, to, header)
  }

  function StartAt(h: seq<Block>, k: nat, to: nat): nat {
    if k < |h| then h[k].start else to
  }

  lemma {:induction false} RunJoin(a: seq<Block>, b: seq<Block>, from: nat, mid: nat, to: nat, header: nat)
    requires Run(a, from, mid, header) && Run(b, mid, to, header)
    ensures Run(a + b, from, to, header)
  {
    if a == [] {
      assert a + b == b;
    } else {
      RunJoin(a[1..], b, from + a[0].size, mid, to, header);
      assert (a + b)[1..] == a[1..] + b;
    }
  }

  lemma {:induction false} RunSplit(h: seq<Block>, from: nat, to: nat, header: nat, k: nat)
    requires Run(h, from, to, header) && k <= |h|
    ensures Run(h[..k], from, StartAt(h, k, to), header) && Run(h[k..], StartAt(h, k, to), to, header)
  {
    if k == 0 {
      assert h[0..] == h;
    } else {
      RunSplit(h[1..], from + h[0].size, to, header, k - 1);
      assert h[..k][1..] == h[1..][..k - 1] && h[k..] == h[1..][k - 1..];
    }
  }

  lemma {:induction false} RunOrdered(h: seq<Block>, from: nat, to: nat, header: nat)
    requires Run(h, from, to, header)
    ensures from <= to
    ensures forall i :: 0 <= i < |h| ==> from <= h[i].start && h[i].size >= header
    ensures forall i :: 0 <= i < |h| ==> h[i].start + h[i].size == StartAt(h, i + 1, to)
    ensures forall i, j :: 0 <= i < j < |h| ==> h[i].start + h[i].size <= h[j].start
    ensures forall i :: 0 <= i < |h| ==> h[i].start + h[i].size <= to
  {
    if h != [] {
      var rest := h[1..];
      RunOrdered(rest, from + h[0].size, to, header);
      forall i | 0 <= i < |h| ensures h[i].start + h[i].size == StartAt(h, i + 1, to) {
        if i > 0 { assert h[i] == rest[i - 1] && StartAt(h, i + 1, to) == StartAt(rest, i, to); }
      }
      assert forall i :: 0 < i < |h| ==> h[i] == rest[i - 1];
    }
  }

  /** `n` blocks from index `k` on are replaced. */
  function Splice(h: seq<Block>, k: nat, n: nat, mid: seq<Block>): seq<Block>
    requires k + n <= |h|
  {
    h[..k] + mid + h[k + n..]
  }

  /** Replacing blocks by others that cover the same bytes keeps the row. */
  lemma SpliceRun(h: seq<Block>, to: nat, header: nat, k: nat, n: nat, mid: seq<Block>)
    requires Run(h, 0, to, header) && k + n <= |h|
    requires Run(mid, StartAt(h, k, to), StartAt(h, k + n, to), header)
    ensures Run(Splice(h, k, n, mid), 0, to, header)
  {
    RunSplit(h, 0, to, header, k);
    RunSplit(h, 0, to, header, k + n);
    RunJoin(h[..k], mid, 0, StartAt(h, k, to), StartAt(h, k + n, to), header);
    RunJoin(h[..k] + mid, h[k + n..], 0, StartAt(h, k + n, to), to, header);
  }

  function UsedBytes(h: seq<Block>): nat {
    if h == [] then 0 else (if h[0].used then h[0].size else 0) + UsedBytes(h[1..])
  }

  lemma {:induction false} UsedJoin(a: seq<Block>, b: seq<Block>)
    ensures UsedBytes(a + b) == UsedBytes(a) + UsedBytes(b)
  {
    if a == [] {
      assert a + b == b;
    } else {
      UsedJoin(a[1..], b);
      assert (a + b)[1..] == a[1..] + b;
    }
  }

  lemma UsedSplice(h: seq<Block>, k: nat, n: nat, mid: seq<Block>)
    requires k + n <= |h|
    ensures UsedBytes(Splice(h, k, n, mid)) + UsedBytes(h[k..k + n]) == UsedBytes(h) + UsedBytes(mid)
  {
    UsedJoin(h[..k] + mid, h[k + n..]);
    UsedJoin(h[..k], mid);
    assert h == (h[..k] + h[k..k + n]) + h[k + n..];
    UsedJoin(h[..k] + h[k..k + n], h[k + n..]);
    UsedJoin(h[..k], h[k..k + n]);
  }

  /** No two free blocks are neighbours. */
  ghost predicate Separated(h: seq<Block>) {
    forall i :: 0 < i < |h| ==> h[i - 1].used || h[i].used
  }

  predicate IsMultiple(x: nat, d: nat)
    requires d > 0
  {
    x % d == 0
  }

  ghost predicate Multiples(h: seq<Block>, d: nat)
    requires d > 0
  {
    forall i :: 0 <= i < |h| ==> IsMultiple(h[i].start, d) && IsMultiple(h[i].size, d)
  }

  // ------------------------------------------------------------------ what the operations do to the row

  predicate Fits(c: Config, b: Block, size: nat) {
    !b.used && b.size >= c.header + size
  }

  /** The lowest free block with room for `size` bytes of payload, or the number of blocks. */
  function FirstFit(c: Config, h: seq<Block>, size: nat, from: nat): (k: nat)
    requires from <= |h|
    ensures from <= k <= |h|
    ensures k < |h| ==> Fits(c, h[k], size)
    ensures forall i :: from <= i < k ==> !Fits(c, h[i], size)
    decreases |h| - from
  {
    if from == |h| || Fits(c, h[from], size) then from else FirstFit(c, h, size, from + 1)
  }

  /** The start of the lowest free block, or the end of the heap. */
  function LowestFree(h: seq<Block>, to: nat): nat {
    if h == [] then to else if !h[0].used then h[0].start else LowestFree(h[1..], to)
  }

  /** A block of `size` payload bytes, and a free block for the rest. */
  function Cut(c: Config, b: Block, size: nat): seq<Block>
    requires b.size >= c.header + size
  {
    [Block(b.start, c.header + size, true), Block(b.start + c.header + size, b.size - c.header - size, false)]
  }

  /** Allocation from block `k`: cut it if a header and a least payload fit behind, else take it whole. */
  function Taken(c: Config, h: seq<Block>, k: nat, size: nat): seq<Block>
    requires Good(c) && k < |h| && Fits(c, h[k], size)
  {
    if h[k].size - c.header >= size + c.header + Align(c, c.minSize) then Splice(h, k, 1, Cut(c, h[k], size))
    else Splice(h, k, 1, [h[k].(used := true)])
  }

  /** Block `k` and the one behind it become one free block. */
  function Merged(h: seq<Block>, k: nat): seq<Block>
    requires k + 1 < |h|
  {
    Splice(h, k, 2, [Block(h[k].start, h[k].size + h[k + 1].size, false)])
  }

  /** `plug_holes` around the free block `k`. */
  function MergedBehind(h: seq<Block>, k: nat): seq<Block> {
    if k + 1 < |h| && !h[k + 1].used then Merged(h, k) else h
  }

  function Plugged(h: seq<Block>, k: nat): seq<Block>
    requires k < |h|
  {
    var g := MergedBehind(h, k);
    if k > 0 && !g[k - 1].used then Merged(g, k - 1) else g
  }

  function Released(h: seq<Block>, k: nat): seq<Block>
    requires k < |h|
  {
    Plugged(Splice(h, k, 1, [h[k].(used := false)]), k)
  }

  /** Shrinking the used block `k` in place to `size` payload bytes. */
  function Shrunk(c: Config, h: seq<Block>, k: nat, size: nat): seq<Block>
    requires k < |h| && h[k].size >= c.header + size
  {
    Plugged(Splice(h, k, 1, Cut(c, h[k], size)), k + 1)
  }

  ghost predicate Row(c: Config, h: seq<Block>, to: nat)
    requires Good(c)
  {
    h != [] && Run(h, 0, to, c.header) && Multiples(h, c.align)
  }

  lemma SpliceMultiples(h: seq<Block>, k: nat, n: nat, mid: seq<Block>, d: nat)
    requires d > 0 && k + n <= |h| && Multiples(h, d) && Multiples(mid, d)
    ensures Multiples(Splice(h, k, n, mid), d)
  {
    var s := Splice(h, k, n, mid);
    forall i | 0 <= i < |s| ensures IsMultiple(s[i].start, d) && IsMultiple(s[i].size, d) {
      if i < k {
        assert s[i] == h[i];
      } else if i < k + |mid| {
        assert s[i] == mid[i - k];
      } else {
        assert s[i] == h[i - |mid| + n];
      }
    }
  }

  lemma SpliceRow(c: Config, h: seq<Block>, to: nat, k: nat, n: nat, mid: seq<Block>)
    requires Good(c) && Row(c, h, to) && k + n <= |h| && mid != [] && Multiples(mid, c.align)
    requires Run(mid, StartAt(h, k, to), StartAt(h, k + n, to), c.header)
    ensures Row(c, Splice(h, k, n, mid), to)
  {
    hide Run, Multiples, StartAt;
    SpliceRun(h, to, c.header, k, n, mid);
    SpliceMultiples(h, k, n, mid, c.align);
  }

  lemma BlockBounds(c: Config, h: seq<Block>, to: nat, k: nat)
    requires Good(c) && Row(c, h, to) && k < |h|
    ensures h[k].start == StartAt(h, k, to) && h[k].start + h[k].size == StartAt(h, k + 1, to)
    ensures h[k].size >= c.header && IsMultiple(h[k].start, c.align) && IsMultiple(h[k].size, c.align)
  {
    RunOrdered(h, 0, to, c.header);
  }

  lemma BlockEnd(c: Config, h: seq<Block>, to: nat, k: nat)
    requires Good(c) && Row(c, h, to) && k < |h|
    ensures h[k].start + h[k].size <= to
  {
    RunOrdered(h, 0, to, c.header);
  }

  lemma SpliceAt(h: seq<Block>, k: nat, n: nat, mid: seq<Block>)
    requires k + n <= |h|
    ensures |Splice(h, k, n, mid)| == |h| - n + |mid|
    ensures forall i :: 0 <= i < |h| - n + |mid| ==>
      Splice(h, k, n, mid)[i] == if i < k then h[i] else if i < k + |mid| then mid[i - k] else h[i - |mid| + n]
  {
  }

  lemma TakenRow(c: Config, h: seq<Block>, to: nat, k: nat, size: nat)
    requires Good(c) && Row(c, h, to) && k < |h| && Fits(c, h[k], size) && IsMultiple(size, c.align)
    ensures Row(c, Taken(c, h, k, size), to)
  {
    hide Row, StartAt, Align, Splice, Multiples, IsMultiple;
    var b := h[k];
    BlockBounds(c, h, to, k);
    if b.size - c.header >= size + c.header + Align(c, c.minSize) {
      CutRun(c, b, size);
      CutMultiples(c, b, size);
      hide Run;
      SpliceRow(c, h, to, k, 1, Cut(c, b, size));
    } else {
      WholeMultiples(b, true, c.align);
      SpliceRow(c, h, to, k, 1, [b.(used := true)]);
    }
  }

  lemma WholeMultiples(b: Block, used: bool, d: nat)
    requires d > 0 && IsMultiple(b.start, d) && IsMultiple(b.size, d)
    ensures Multiples([b.(used := used)], d)
  {
  }

  lemma CutUsed(c: Config, h: seq<Block>, k: nat, size: nat)
    requires k < |h| && h[k].size >= c.header + size
    ensures UsedBytes(Splice(h, k, 1, Cut(c, h[k], size))) + (if h[k].used then h[k].size else 0)
         == UsedBytes(h) + c.header + size
  {
    hide UsedBytes, Splice;
    var cut := Cut(c, h[k], size);
    assert h[k..k + 1] == [h[k]];
    UsedSplice(h, k, 1, cut);
    UsedOne(h[k]);
    UsedOne(cut[0]);
    UsedOne(cut[1]);
    UsedJoin([cut[0]], [cut[1]]);
    assert cut == [cut[0]] + [cut[1]];
  }

  lemma UsedOne(b: Block)
    ensures UsedBytes([b]) == if b.used then b.size else 0
  {
    assert UsedBytes([b][1..]) == 0;
  }

  lemma FlipUsed(h: seq<Block>, k: nat, used: bool)
    requires k < |h|
    ensures UsedBytes(Splice(h, k, 1, [h[k].(used := used)])) + (if h[k].used then h[k].size else 0)
         == UsedBytes(h) + (if used then h[k].size else 0)
  {
    assert h[k..k + 1] == [h[k]];
    UsedSplice(h, k, 1, [h[k].(used := used)]);
  }

  lemma TakenUsed(c: Config, h: seq<Block>, k: nat, size: nat)
    requires Good(c) && k < |h| && Fits(c, h[k], size)
    ensures var t := Taken(c, h, k, size);
            |t| > k && t[k].used && UsedBytes(t) == UsedBytes(h) + t[k].size
  {
    hide Align, UsedBytes;
    CutUsed(c, h, k, size);
    FlipUsed(h, k, true);
  }

  lemma TakenSeparated(c: Config, h: seq<Block>, k: nat, size: nat)
    requires Good(c) && Separated(h) && k < |h| && Fits(c, h[k], size)
    ensures Separated(Taken(c, h, k, size))
  {
    hide Align;
    var t := Taken(c, h, k, size);
    if h[k].size - c.header >= size + c.header + Align(c, c.minSize) {
      var cut := Cut(c, h[k], size);
      assert t == h[..k] + cut + h[k + 1..];
      assert t[k] == cut[0] && t[k + 1] == cut[1];
      forall i | 0 < i < |t| ensures t[i - 1].used || t[i].used {
        if i < k {
          assert h[i - 1].used || h[i].used;
        } else if i > k + 1 {
          assert t[i] == h[i - 1] && (h[i - 1 - 1].used || h[i - 1].used);
        }
      }
    } else {
      forall i | 0 < i < |t| ensures t[i - 1].used || t[i].used {
        assert h[i - 1].used || h[i].used;
      }
    }
  }

  lemma CutRun(c: Config, b: Block, size: nat)
    requires b.size >= c.header + size + c.header
    ensures Run(Cut(c, b, size), b.start, b.start + b.size, c.header)
  {
    var cut := Cut(c, b, size);
    assert Run(cut[1..][1..], b.start + b.size, b.start + b.size, c.header);
    assert Run(cut[1..], cut[1].start, b.start + b.size, c.header);
  }

  lemma CutMultiples(c: Config, b: Block, size: nat)
    requires Good(c) && b.size >= c.header + size
    requires IsMultiple(b.start, c.align) && IsMultiple(b.size, c.align) && IsMultiple(size, c.align)
    ensures Multiples(Cut(c, b, size), c.align)
  {
    MultipleSum(c.header, size, c.align);
    MultipleSum(b.start, c.header + size, c.align);
    MultipleDifference(b.size, c.header + size, c.align);
  }

  lemma MultipleDifference(x: nat, y: nat, d: nat)
    requires d > 0 && x % d == 0 && y % d == 0 && y <= x
    ensures (x - y) % d == 0
  {
    assert x == d * (x / d) && y == d * (y / d);
    if x / d < y / d {
      Scaled(d, x / d + 1, y / d);
    }
    assert x - y == d * (x / d - y / d);
    MultipleOf(x - y, d, x / d - y / d);
  }

  lemma MergedRow(c: Config, h: seq<Block>, to: nat, k: nat)
    requires Good(c) && Row(c, h, to) && k + 1 < |h|
    ensures Row(c, Merged(h, k), to)
  {
    var mid := [Block(h[k].start, h[k].size + h[k + 1].size, false)];
    hide Row, Multiples, Splice;
    BlockBounds(c, h, to, k);
    BlockBounds(c, h, to, k + 1);
    MultipleSum(h[k].size, h[k + 1].size, c.align);
    assert Multiples(mid, c.align) by {
      WholeMultiples(mid[0], false, c.align);
      assert mid == [mid[0].(used := false)];
    }
    hide IsMultiple;
    SpliceRow(c, h, to, k, 2, mid);
  }

  lemma MergedUsed(h: seq<Block>, k: nat)
    requires k + 1 < |h| && !h[k].used && !h[k + 1].used
    ensures UsedBytes(Merged(h, k)) == UsedBytes(h)
  {
    UsedSplice(h, k, 2, [Block(h[k].start, h[k].size + h[k + 1].size, false)]);
    assert h[k..k + 2] == [h[k], h[k + 1]];
    assert UsedBytes([h[k], h[k + 1]][1..]) == 0;
  }

  /** No two free blocks are neighbours, except perhaps block `k` and those beside it. */
  ghost predicate SeparatedBut(h: seq<Block>, k: nat) {
    forall i :: 0 < i < |h| && i != k && i != k + 1 ==> h[i - 1].used || h[i].used
  }

  lemma PluggedSeparated(h: seq<Block>, k: nat)
    requires k < |h| && !h[k].used && SeparatedBut(h, k)
    ensures Separated(Plugged(h, k))
  {
    var g := MergedBehind(h, k);
    BehindSeparated(h, k);
    if k > 0 && !g[k - 1].used {
      SpliceAt(g, k - 1, 2, [Block(g[k - 1].start, g[k - 1].size + g[k].size, false)]);
      hide Splice;
      var p := Merged(g, k - 1);
      forall i | 0 < i < |p| ensures p[i - 1].used || p[i].used {
        if i >= k { assert g[i + 1 - 1].used || g[i + 1].used; } else { assert g[i - 1].used || g[i].used; }
      }
    }
  }

  lemma BehindSeparated(h: seq<Block>, k: nat)
    requires k < |h| && !h[k].used && SeparatedBut(h, k)
    ensures var g := MergedBehind(h, k);
            |g| > k && !g[k].used && forall i :: 0 < i < |g| && i != k ==> g[i - 1].used || g[i].used
  {
    var g := MergedBehind(h, k);
    if k + 1 < |h| && !h[k + 1].used {
      SpliceAt(h, k, 2, [Block(h[k].start, h[k].size + h[k + 1].size, false)]);
      hide Splice;
      forall i | 0 < i < |g| && i != k ensures g[i - 1].used || g[i].used {
        if i > k { assert h[i + 1 - 1].used || h[i + 1].used; } else { assert h[i - 1].used || h[i].used; }
      }
    }
  }

  /** `plug_holes` keeps the row and changes no used block. */
  lemma PluggedRow(c: Config, h: seq<Block>, to: nat, k: nat)
    requires Good(c) && Row(c, h, to) && k < |h| && !h[k].used
    ensures var p := Plugged(h, k); Row(c, p, to) && UsedBytes(p) == UsedBytes(h)
  {
    hide Row, UsedBytes;
    var g := MergedBehind(h, k);
    if k + 1 < |h| && !h[k + 1].used {
      MergedRow(c, h, to, k);
      MergedUsed(h, k);
    }
    if k > 0 && !g[k - 1].used {
      MergedRow(c, g, to, k - 1);
      MergedUsed(g, k - 1);
    }
  }

  lemma ReleasedRow(c: Config, h: seq<Block>, to: nat, k: nat)
    requires Good(c) && Row(c, h, to) && Separated(h) && k < |h| && h[k].used
    ensures var r := Released(h, k);
            Row(c, r, to) && Separated(r) && UsedBytes(r) + h[k].size == UsedBytes(h)
  {
    var b := h[k];
    var freed := Splice(h, k, 1, [b.(used := false)]);
    assert freed[k] == b.(used := false) && SeparatedBut(freed, k);
    hide Row, UsedBytes, Multiples, IsMultiple, Splice, SeparatedBut, Separated;
    BlockBounds(c, h, to, k);
    WholeMultiples(b, false, c.align);
    SpliceRow(c, h, to, k, 1, [b.(used := false)]);
    FlipUsed(h, k, false);
    PluggedRow(c, freed, to, k);
    PluggedSeparated(freed, k);
  }

  lemma ShrunkRow(c: Config, h: seq<Block>, to: nat, k: nat, size: nat)
    requires Good(c) && Row(c, h, to) && Separated(h) && k < |h| && h[k].used
    requires h[k].size >= c.header + size + c.header && IsMultiple(size, c.align)
    ensures var r := Shrunk(c, h, k, size);
            Row(c, r, to) && Separated(r) && UsedBytes(r) + h[k].size == UsedBytes(h) + c.header + size
  {
    hide Row, UsedBytes, Multiples, IsMultiple, Splice, SeparatedBut, Separated;
    var b := h[k];
    var cut := Splice(h, k, 1, Cut(c, b, size));
    CutSeparated(c, h, k, size);
    BlockBounds(c, h, to, k);
    CutRun(c, b, size);
    CutMultiples(c, b, size);
    SpliceRow(c, h, to, k, 1, Cut(c, b, size));
    CutUsed(c, h, k, size);
    PluggedRow(c, cut, to, k + 1);
    PluggedSeparated(cut, k + 1);
  }

  lemma CutSeparated(c: Config, h: seq<Block>, k: nat, size: nat)
    requires Separated(h) && k < |h| && h[k].used && h[k].size >= c.header + size
    ensures var cut := Splice(h, k, 1, Cut(c, h[k], size));
            |cut| > k + 1 && !cut[k + 1].used && SeparatedBut(cut, k + 1)
  {
    SpliceAt(h, k, 1, Cut(c, h[k], size));
    hide Splice;
    var cut := Splice(h, k, 1, Cut(c, h[k], size));
    forall i | 0 < i < |cut| && i != k + 1 && i != k + 2 ensures cut[i - 1].used || cut[i].used {
      if i > k { assert h[i - 1 - 1].used || h[i - 1].used; } else { assert h[i - 1].used || h[i].used; }
    }
  }

  // ------------------------------------------------------------------ the row in memory

  /** A header: the used mark, and the offsets of the blocks behind and before. */
  datatype Item = Item(used: bool, next: nat, prev: nat)

  function PrevOf(h: seq<Block>, k: nat, first: nat): nat
    requires k <= |h|
  {
    if k == 0 then first else h[k - 1].start
  }

  /** The headers of a stretch of blocks are right; `first` is the back link of the first one. */
  ghost predicate Linked(items: map<nat, Item>, h: seq<Block>, first: nat) {
    forall i :: 0 <= i < |h| ==> h[i].start in items && LinkedAt(items[h[i].start], h, i, first)
  }

  predicate LinkedAt(item: Item, h: seq<Block>, i: nat, first: nat)
    requires i < |h|
  {
    item.used == h[i].used && item.next == h[i].start + h[i].size && item.prev == PrevOf(h, i, first)
  }

  /** The headers say what the row is; the stub at the end is marked used and its back link is anything. */
  ghost predicate Threaded(items: map<nat, Item>, h: seq<Block>, to: nat) {
    to in items && items[to].used && Linked(items, h, 0)
  }

  /** The index of the lowest free block, or the number of blocks. */
  function FirstFree(h: seq<Block>, from: nat): (k: nat)
    requires from <= |h|
    ensures from <= k <= |h|
    ensures k < |h| ==> !h[k].used
    ensures forall i :: from <= i < k ==> h[i].used
    decreases |h| - from
  {
    if from == |h| || !h[from].used then from else FirstFree(h, from + 1)
  }

  lemma LinkedJoin(items: map<nat, Item>, a: seq<Block>, b: seq<Block>, first: nat)
    requires Linked(items, a, first) && Linked(items, b, PrevOf(a, |a|, first))
    ensures Linked(items, a + b, first)
  {
    var s := a + b;
    forall i | 0 <= i < |s| ensures s[i].start in items && LinkedAt(items[s[i].start], s, i, first) {
      if i < |a| {
        assert s[i] == a[i] && PrevOf(s, i, first) == PrevOf(a, i, first);
      } else {
        assert s[i] == b[i - |a|] && PrevOf(s, i, first) == PrevOf(b, i - |a|, PrevOf(a, |a|, first));
      }
    }
  }

  lemma PrefixLinked(items: map<nat, Item>, h: seq<Block>, k: nat, after: map<nat, Item>)
    requires Linked(items, h, 0) && k <= |h|
    requires forall i :: 0 <= i < k ==> h[i].start in after && after[h[i].start] == items[h[i].start]
    ensures Linked(after, h[..k], 0)
  {
    var a := h[..k];
    forall i | 0 <= i < |a| ensures a[i].start in after && LinkedAt(after[a[i].start], a, i, 0) {
      assert a[i] == h[i] && LinkedAt(items[h[i].start], h, i, 0);
    }
  }

  lemma SuffixLinked(items: map<nat, Item>, h: seq<Block>, m: nat, after: map<nat, Item>, last: nat)
    requires Linked(items, h, 0) && m <= |h|
    requires m < |h| ==> h[m].start in after && after[h[m].start] == items[h[m].start].(prev := last)
    requires forall i :: m < i < |h| ==> h[i].start in after && after[h[i].start] == items[h[i].start]
    ensures Linked(after, h[m..], last)
  {
    var b := h[m..];
    forall i | 0 <= i < |b| ensures b[i].start in after && LinkedAt(after[b[i].start], b, i, last) {
      assert b[i] == h[m + i] && LinkedAt(items[h[m + i].start], h, m + i, 0);
    }
  }

  lemma OneLinked(items: map<nat, Item>, x: Block, first: nat)
    requires x.start in items && items[x.start] == Item(x.used, x.start + x.size, first)
    ensures Linked(items, [x], first)
  {
  }

  /** A row stays threaded if the parts before, in and behind the place of a splice are. */
  lemma SpliceThreaded(h: seq<Block>, to: nat, k: nat, n: nat, mid: seq<Block>, after: map<nat, Item>)
    requires k + n <= |h| && mid != [] && to in after && after[to].used
    requires Linked(after, h[..k], 0) && Linked(after, mid, PrevOf(h, k, 0))
    requires Linked(after, h[k + n..], mid[|mid| - 1].start)
    ensures Threaded(after, Splice(h, k, n, mid), to)
  {
    hide Linked;
    var a, b := h[..k], h[k + n..];
    assert PrevOf(a, |a|, 0) == PrevOf(h, k, 0);
    assert PrevOf(a + mid, |a + mid|, 0) == mid[|mid| - 1].start;
    LinkedJoin(after, a, mid, 0);
    LinkedJoin(after, a + mid, b, 0);
  }

  /** Memory changed at most under the headers of a row. */
  ghost predicate HeadersOnly(c: Config, h: seq<Block>, to: nat, before: seq<Byte>, after: seq<Byte>) {
    && |before| == |after|
    && forall j :: 0 <= j < |after| && after[j] != before[j] ==> UnderHeader(c, h, to, j)
  }

  ghost predicate UnderHeader(c: Config, h: seq<Block>, to: nat, j: nat) {
    exists i :: 0 <= i <= |h| && StartAt(h, i, to) <= j < StartAt(h, i, to) + c.header
  }

  /** The payload of a block is the same in both memories. */
  ghost predicate SamePayload(c: Config, b: Block, before: seq<Byte>, after: seq<Byte>) {
    && b.start + b.size <= |before| && |before| == |after|
    && forall j :: b.start + c.header <= j < b.start + b.size ==> after[j] == before[j]
  }

  /** Memory changed at most under headers at these places. */
  ghost predicate Touched(c: Config, places: set<nat>, before: seq<Byte>, after: seq<Byte>) {
    && |before| == |after|
    && forall j :: 0 <= j < |after| && after[j] != before[j] ==> exists p :: p in places && p <= j < p + c.header
  }

  lemma TouchedTwice(c: Config, a: set<nat>, b: set<nat>, before: seq<Byte>, between: seq<Byte>, after: seq<Byte>)
    requires Touched(c, a, before, between) && Touched(c, b, between, after)
    ensures Touched(c, a + b, before, after)
  {
    forall j | 0 <= j < |after| && after[j] != before[j] ensures exists p :: p in a + b && p <= j < p + c.header {
      if between[j] != before[j] {
        var p :| p in a && p <= j < p + c.header;
        assert p in a + b;
      } else {
        var p :| p in b && p <= j < p + c.header;
        assert p in a + b;
      }
    }
  }

  lemma TouchedMore(c: Config, a: set<nat>, b: set<nat>, before: seq<Byte>, after: seq<Byte>)
    requires Touched(c, a, before, after) && a <= b
    ensures Touched(c, b, before, after)
  {
  }

  /** Bytes that changed at most under three headers of the row. */
  lemma TouchedHeaders(c: Config, h: seq<Block>, to: nat, before: seq<Byte>, after: seq<Byte>, k: nat, places: set<nat>)
    requires k + 2 <= |h| && Touched(c, places, before, after)
    requires places <= {StartAt(h, k, to), StartAt(h, k + 1, to), StartAt(h, k + 2, to)}
    ensures HeadersOnly(c, h, to, before, after)
  {
    hide StartAt;
    forall j | 0 <= j < |after| && after[j] != before[j] ensures UnderHeader(c, h, to, j) {
      var p :| p in places && p <= j < p + c.header;
      assert exists i :: 0 <= i <= |h| && StartAt(h, i, to) == p;
    }
  }

  /** Where the headers written by a cut lie in the row after it. */
  lemma SplitPlaces(c: Config, h: seq<Block>, to: nat, k: nat, size: nat)
    requires k < |h| && h[k].size >= c.header + size
    ensures var g := Splice(h, k, 1, CutAs(c, h[k], size));
            && |g| == |h| + 1 && StartAt(g, k, to) == h[k].start
            && StartAt(g, k + 1, to) == h[k].start + c.header + size
            && StartAt(g, k + 2, to) == StartAt(h, k + 1, to)
  {
  }

  lemma PayloadsKept(c: Config, h: seq<Block>, to: nat, before: seq<Byte>, after: seq<Byte>)
    requires Good(c) && Row(c, h, to) && HeadersOnly(c, h, to, before, after) && to <= |before|
    ensures forall i :: 0 <= i < |h| ==> SamePayload(c, h[i], before, after)
  {
    RunOrdered(h, 0, to, c.header);
    hide Row, Run;
    forall i | 0 <= i < |h| ensures SamePayload(c, h[i], before, after) {
      forall j | h[i].start + c.header <= j < h[i].start + h[i].size ensures after[j] == before[j] {
        forall m | 0 <= m <= |h| ensures !(StartAt(h, m, to) <= j < StartAt(h, m, to) + c.header) {
        }
        assert !UnderHeader(c, h, to, j);
      }
    }
  }

  // ------------------------------------------------------------------ the heap

  class Heap {
    const c: Config
    /** `mem_size_aligned`: the heap without two headers. */
    const memSize: nat
    var items: map<nat, Item>
    var bytes: seq<Byte>
    var lfree: nat
    var used: nat
    var max: nat
    ghost var blocks: seq<Block>

    function End(): nat {
      memSize + c.header
    }

    ghost predicate Valid()
      reads this
    {
      && Sized()
      && Row(c, blocks, End()) && Separated(blocks) && Threaded(items, blocks, End())
      && LowestIs(lfree)
      && used == UsedBytes(blocks) && used <= max
    }

    ghost predicate Sized()
      reads this
    {
      && Good(c) && memSize % c.align == 0 && memSize + 2 * c.header <= c.word
      && |bytes| == End() + c.header
    }

    /** `rt_smem_init` once the addresses are aligned. */
    constructor (config: Config, size: nat, memory: seq<Byte>)
      requires Good(config) && size % config.align == 0 && size + 2 * config.header <= config.word
      requires |memory| == size + 2 * config.header
      ensures Valid() && c == config && memSize == size
      ensures blocks == [Block(0, size + config.header, false)] && used == 0 && max == 0
    {
      c := config;
      memSize := size;
      bytes := memory;
      items := map[0 := Item(false, size + config.header, 0),
                   size + config.header := Item(true, size + config.header, size + config.header)];
      lfree := 0;
      used := 0;
      max := 0;
      blocks := [Block(0, size + config.header, false)];
      new;
      FreshRow(c, size);
    }

    /** Writes a header; what it does to the bytes below it is left open. */
    method WriteItem(p: nat, item: Item)
      requires p + c.header <= |bytes|
      modifies `items, `bytes
      ensures items == old(items)[p := item] && |bytes| == |old(bytes)|
      ensures Touched(c, {p}, old(bytes), bytes)
    {
      assert |seq(c.header, j => 0 as Byte)| == c.header;
      var image: seq<Byte> :| |image| == c.header;
      items := items[p := item];
      bytes := bytes[..p] + image + bytes[p + c.header..];
    }

    /** `mem->pool_ptr = MEM_USED()` or `MEM_FREED()` on block `k` at `p`. */
    method Mark(p: nat, mark: bool, ghost k: nat)
      requires Sized() && Row(c, blocks, End()) && Threaded(items, blocks, End())
      requires k < |blocks| && p == blocks[k].start
      modifies `items, `bytes, `blocks
      ensures Sized() && Row(c, blocks, End()) && Threaded(items, blocks, End())
      ensures blocks == Splice(old(blocks), k, 1, [old(blocks)[k].(used := mark)])
      ensures HeadersOnly(c, old(blocks), End(), old(bytes), bytes)
    {
      BlockBounds(c, blocks, End(), k);
      MarkThreaded(c, items, blocks, End(), k, mark);
      MarkRow(c, blocks, End(), k, mark);
      hide Row, Threaded, Run;
      ghost var before := bytes;
      WriteItem(p, items[p].(used := mark));
      forall j | 0 <= j < |bytes| && bytes[j] != before[j] ensures UnderHeader(c, blocks, End(), j) {
        assert StartAt(blocks, k, End()) <= j;
      }
      blocks := Splice(blocks, k, 1, [blocks[k].(used := mark)]);
    }

    /** The header writes of a cut: the new free item, its link from the left and the one from the right. */
    method CutHeaders(p: nat, p2: nat)
      requires p in items && items[p].next in items && p != p2
      requires p + c.header <= |bytes| && p2 + c.header <= |bytes| && items[p].next + c.header <= |bytes|
      modifies `items, `bytes
      ensures items == AfterSplit(old(items), p, p2, End()) && |bytes| == |old(bytes)|
      ensures Touched(c, {p, p2, old(items)[p].next}, old(bytes), bytes)
    {
      hide Touched;
      ghost var before := bytes;
      var next := items[p].next;
      WriteItem(p2, Item(false, next, p));
      ghost var first := bytes;
      WriteItem(p, items[p].(next := p2));
      TouchedTwice(c, {p2}, {p}, before, first, bytes);
      ghost var second := bytes;
      if next != End() {
        WriteItem(next, items[next].(prev := p2));
        TouchedTwice(c, {p2} + {p}, {next}, before, second, bytes);
        assert {p2} + {p} + {next} == {p, p2, next};
      } else {
        TouchedMore(c, {p2} + {p}, {p, p2, next}, before, bytes);
      }
    }

    /** Cuts block `k` at `p` so that its payload ends at `p2`, where a free block begins. */
    method Split(p: nat, p2: nat, ghost k: nat, ghost size: nat)
      requires Sized() && Row(c, blocks, End()) && Threaded(items, blocks, End())
      requires k < |blocks| && p == blocks[k].start && p2 == p + c.header + size
      requires blocks[k].size >= c.header + size + c.header && IsMultiple(size, c.align)
      modifies `items, `bytes, `blocks
      ensures Sized() && Row(c, blocks, End()) && Threaded(items, blocks, End())
      ensures blocks == Splice(old(blocks), k, 1, CutAs(c, old(blocks)[k], size))
      ensures HeadersOnly(c, blocks, End(), old(bytes), bytes)
    {
      hide Row, Threaded, Run, Splice, Touched, HeadersOnly, CutAs, AfterSplit, IsMultiple;
      ghost var h := blocks;
      ghost var mid := CutAs(c, h[k], size);
      SplitRow(c, h, End(), k, size);
      SplitThreaded(c, items, h, End(), k, size);
      ghost var before, next := bytes, items[p].next;
      CutHeaders(p, p2);
      blocks := Splice(h, k, 1, mid);
      SplitPlaces(c, h, End(), k, size);
      TouchedHeaders(c, blocks, End(), before, bytes, k, {p, p2, next});
    }

    /** Joins block `k` at `p` with the free block behind it. */
    method Join(p: nat, ghost k: nat)
      requires Sized() && Row(c, blocks, End()) && Threaded(items, blocks, End())
      requires k + 1 < |blocks| && p == blocks[k].start && !blocks[k].used && !blocks[k + 1].used
      modifies `items, `bytes, `blocks
      ensures Sized() && Row(c, blocks, End()) && Threaded(items, blocks, End())
      ensures blocks == Merged(old(blocks), k)
      ensures HeadersOnly(c, old(blocks), End(), old(bytes), bytes)
    {
      hide Row, Threaded, Run, Splice, Merged, Touched, HeadersOnly;
      ghost var h := blocks;
      MergedRow(c, h, End(), k);
      JoinThreaded(c, items, h, End(), k);
      ghost var before := bytes;
      var n := items[p].next;
      WriteItem(n, items[n].(used := false));
      ghost var first := bytes;
      WriteItem(p, items[p].(next := items[n].next));
      TouchedTwice(c, {n}, {p}, before, first, bytes);
      ghost var second := bytes;
      WriteItem(items[n].next, items[items[n].next].(prev := p));
      TouchedTwice(c, {n} + {p}, {items[n].next}, before, second, bytes);
      blocks := Merged(h, k);
      TouchedHeaders(c, h, End(), before, bytes, k, {n} + {p} + {items[n].next});
    }

    ghost predicate LowestIs(p: nat)
      reads `blocks
    {
      p == StartAt(blocks, FirstFree(blocks, 0), End())
    }

    /** `plug_holes` on the free block `k` at `p`. */
    method PlugHoles(p: nat, ghost k: nat)
      requires Sized() && Row(c, blocks, End()) && Threaded(items, blocks, End())
      requires k < |blocks| && p == blocks[k].start && !blocks[k].used
      modifies `items, `bytes, `blocks, `lfree
      ensures Sized() && Row(c, blocks, End()) && Threaded(items, blocks, End())
      ensures blocks == Plugged(old(blocks), k)
      ensures old(LowestIs(lfree)) ==> LowestIs(lfree)
      ensures HeadersOnly(c, old(blocks), End(), old(bytes), bytes)
    {
      ghost var h := blocks;
      PlugBehind(p, k);
      ghost var g, image := blocks, bytes;
      PlugBefore(p, k);
      MergedHeaders(c, h, k, End(), image, bytes);
      HeadersTwice(c, h, End(), old(bytes), image, bytes);
    }

    /** The forward half of `plug_holes`. */
    method PlugBehind(p: nat, ghost k: nat)
      requires Sized() && Row(c, blocks, End()) && Threaded(items, blocks, End())
      requires k < |blocks| && p == blocks[k].start && !blocks[k].used
      modifies `items, `bytes, `blocks, `lfree
      ensures Sized() && Row(c, blocks, End()) && Threaded(items, blocks, End())
      ensures blocks == MergedBehind(old(blocks), k)
      ensures old(LowestIs(lfree)) ==> LowestIs(lfree)
      ensures HeadersOnly(c, old(blocks), End(), old(bytes), bytes)
    {
      Headers(c, items, blocks, End(), k);
      if k + 1 < |blocks| { Headers(c, items, blocks, End(), k + 1); }
      hide Row, Threaded;
      var next := items[p].next;
      if !items[next].used && next != End() {
        LowestMerged(c, blocks, End(), k);
        if lfree == next {
          lfree := p;
        }
        Join(p, k);
      }
    }

    /** The backward half of `plug_holes`. */
    method PlugBefore(p: nat, ghost k: nat)
      requires Sized() && Row(c, blocks, End()) && Threaded(items, blocks, End())
      requires k < |blocks| && p == blocks[k].start && !blocks[k].used
      modifies `items, `bytes, `blocks, `lfree
      ensures Sized() && Row(c, blocks, End()) && Threaded(items, blocks, End())
      ensures blocks == if k > 0 && !old(blocks)[k - 1].used then Merged(old(blocks), k - 1) else old(blocks)
      ensures old(LowestIs(lfree)) ==> LowestIs(lfree)
      ensures HeadersOnly(c, old(blocks), End(), old(bytes), bytes)
    {
      Headers(c, items, blocks, End(), k);
      if k > 0 {
        Headers(c, items, blocks, End(), k - 1);
      } else {
        BlockBounds(c, blocks, End(), 0);
        assert p == 0 by { RunOrdered(blocks, 0, End(), c.header); }
      }
      hide Row, Threaded;
      var prev := items[p].prev;
      if prev != p && !items[prev].used {
        LowestMerged(c, blocks, End(), k - 1);
        if lfree == p {
          lfree := prev;
        }
        Join(prev, k - 1);
      }
    }

    /** `rt_smem_alloc`: null when no free block has room, else the payload of the lowest that has. */
    method Alloc(size: nat) returns (r: nat)
      requires Valid() && size < c.word
      modifies this
      ensures Valid()
      ensures var s, k := Round(c, size), FirstFit(c, old(blocks), Round(c, size), 0);
              if size == 0 || k == |old(blocks)| then
                r == 0 && blocks == old(blocks) && max == old(max) && bytes == old(bytes)
              else
                && r == old(blocks)[k].start + c.header && r != 0 && blocks == Taken(c, old(blocks), k, s)
                && max == Most(old(max), used)
                && forall i :: 0 <= i < |blocks| ==> SamePayload(c, blocks[i], old(bytes), bytes)
      // the block fits, without room for another one in it, and no lower free block does
      ensures r != 0 ==>
        exists k :: 0 <= k < |old(blocks)| && k < |blocks| && r == blocks[k].start + c.header
          && blocks[k].start == old(blocks)[k].start && blocks[k].used && !old(blocks)[k].used
          && Round(c, size) <= blocks[k].size - c.header < Round(c, size) + c.header + Align(c, c.minSize)
          && forall i :: 0 <= i < k ==> old(blocks)[i].used || old(blocks)[i].size < c.header + Round(c, size)
    {
      hide Row, Separated, Threaded, UsedBytes, FirstFree, Align;
      if size == 0 {
        return 0;
      }
      RoundCovers(c, size);
      var s := Align(c, size);
      if s < Align(c, c.minSize) {
        s := Align(c, c.minSize);
      }
      assert s == Round(c, size);
      if s > memSize {
        NoneFits(c, blocks, End(), |blocks|, s);
        return 0;
      }
      hide Round, Good, FirstFit;
      var ptr, found;
      ghost var k;
      found, ptr, k := Find(s);
      if found {
        TakenSize(c, blocks, k, s);
        r := Carve(ptr, s, k);
        assert r == blocks[k].start + c.header;
      } else {
        r := 0;
      }
    }

    /** The search loop of `rt_smem_alloc`, from the lowest free block. */
    method Find(s: nat) returns (found: bool, ptr: nat, ghost k: nat)
      requires Valid() && s <= memSize
      ensures k == FirstFit(c, blocks, s, 0) && found == (k < |blocks|)
      ensures found ==> ptr == blocks[k].start && Fits(c, blocks[k], s)
    {
      hide Row, Separated, Threaded, UsedBytes;
      found, ptr, k := false, lfree, FirstFree(blocks, 0);
      while ptr <= memSize - s
        invariant k <= |blocks| && ptr == StartAt(blocks, k, End())
        invariant forall j :: 0 <= j < k ==> !Fits(c, blocks[j], s)
        decreases |blocks| - k
      {
        Headers(c, items, blocks, End(), k);
        if !items[ptr].used && items[ptr].next - (ptr + c.header) >= s {
          FirstFitIs(c, blocks, s, k);
          found := true;
          return;
        }
        ptr := items[ptr].next;
        k := k + 1;
      }
      NoneFits(c, blocks, End(), k, s);
      k := |blocks|;
    }

    /** What `rt_smem_alloc` does with the block it has found. */
    method Carve(p: nat, s: nat, ghost k: nat) returns (r: nat)
      requires Valid() && k < |blocks| && p == blocks[k].start && Fits(c, blocks[k], s) && IsMultiple(s, c.align)
      modifies this
      ensures Valid() && r == p + c.header
      ensures blocks == Taken(c, old(blocks), k, s)
      ensures max == if old(max) < used then used else old(max)
      ensures forall i :: 0 <= i < |blocks| ==> SamePayload(c, blocks[i], old(bytes), bytes)
    {
      hide Row, Threaded, Separated, FirstFree, Align, UsedBytes, HeadersOnly, IsMultiple;
      ghost var h, image, to := blocks, bytes, End();
      TakenSeparated(c, h, k, s);
      TakenUsed(c, h, k, s);
      TakenLowest(c, h, to, k, s);
      LowestIndex(c, h, to, FirstFree(h, 0), k);
      CutOrKeep(p, s, k);
      if max < used {
        max := used;
      }
      TakenMark(c, h, k, s, blocks);
      CarveMark(p, k, image);
      hide Taken;
      if p == lfree {
        Advance(k);
      }
      r := p + c.header;
    }

    /** Splits the block if there is room for another behind the payload, and counts its bytes. */
    method CutOrKeep(p: nat, s: nat, ghost k: nat)
      requires Sized() && Row(c, blocks, End()) && Threaded(items, blocks, End())
      requires k < |blocks| && p == blocks[k].start && Fits(c, blocks[k], s) && IsMultiple(s, c.align)
      modifies `items, `bytes, `blocks, `used
      ensures Sized() && Row(c, blocks, End()) && Threaded(items, blocks, End())
      ensures blocks == CutIfRoom(c, old(blocks), k, s) && |blocks| > k && used == old(used) + blocks[k].size
      ensures blocks[k].start == p && HeadersOnly(c, blocks, End(), old(bytes), bytes)
    {
      hide Row, Threaded, Align, IsMultiple;
      Headers(c, items, blocks, End(), k);
      if items[p].next - (p + c.header) >= s + c.header + Align(c, c.minSize) {
        CutAsIs(c, blocks[k], s);
        Split(p, p + c.header + s, k, s);
        used := used + (s + c.header);
      } else {
        used := used + (items[p].next - p);
      }
    }

    /** Marks the block found as used. */
    method CarveMark(p: nat, ghost k: nat, ghost image: seq<Byte>)
      requires Sized() && Row(c, blocks, End()) && Threaded(items, blocks, End())
      requires k < |blocks| && p == blocks[k].start && HeadersOnly(c, blocks, End(), image, bytes)
      modifies `items, `bytes, `blocks
      ensures Sized() && Row(c, blocks, End()) && Threaded(items, blocks, End())
      ensures blocks == Splice(old(blocks), k, 1, [old(blocks)[k].(used := true)])
      ensures forall i :: 0 <= i < |blocks| ==> SamePayload(c, blocks[i], image, bytes)
    {
      hide Row, Threaded, HeadersOnly;
      ghost var cut, middle := blocks, bytes;
      Mark(p, true, k);
      HeadersTwice(c, cut, End(), image, middle, bytes);
      PayloadsKept(c, cut, End(), image, bytes);
      MarkPayloads(c, cut, k, true, image, bytes);
    }

    /** The inner loop of `rt_smem_alloc`: moves `lfree` on to the next free block. */
    method Advance(ghost k: nat)
      requires Good(c) && Row(c, blocks, End()) && Threaded(items, blocks, End())
      requires k <= |blocks| && lfree == StartAt(blocks, k, End()) && forall j :: 0 <= j < k ==> blocks[j].used
      modifies `lfree
      ensures LowestIs(lfree)
    {
      ghost var i := k;
      hide Row;
      assert items[End()].used;
      while items[lfree].used && lfree != End()
        invariant i <= |blocks| && lfree == StartAt(blocks, i, End()) && lfree in items
        invariant forall j :: 0 <= j < i ==> blocks[j].used
        decreases |blocks| - i
      {
        Headers(c, items, blocks, End(), i);
        lfree := items[lfree].next;
        i := i + 1;
      }
      if i < |blocks| { Headers(c, items, blocks, End(), i); }
      FirstFreeIs(blocks, i);
    }

    /** `rt_smem_free` on null or on the payload of the used block `k`. */
    method Free(rmem: nat, ghost k: nat)
      requires Valid() && (rmem != 0 ==> IsPayload(rmem, k))
      modifies this
      ensures Valid() && max == old(max)
      ensures rmem == 0 ==> blocks == old(blocks) && bytes == old(bytes)
      ensures rmem == 0 ==> used == old(used)
      ensures rmem != 0 ==>
        && blocks == Released(old(blocks), k) && used == old(used) - old(blocks)[k].size
        && forall i :: 0 <= i < |old(blocks)| ==> SamePayload(c, old(blocks)[i], old(bytes), bytes)
    {
      hide Row, Threaded, Separated, FirstFree, UsedBytes, HeadersOnly;
      if rmem == 0 {
        return;
      }
      ghost var h, image, to := blocks, bytes, End();
      var p := rmem - c.header;
      ReleasedRow(c, h, to, k);
      FreedLowest(c, h, to, k);
      FlipUsed(h, k, false);
      Headers(c, items, h, to, k);
      used := used - (items[p].next - p);
      Mark(p, false, k);
      if p < lfree {
        lfree := p;
      }
      ghost var freed, middle := blocks, bytes;
      PlugHoles(p, k);
      MarkHeaders(c, h, k, false, to, middle, bytes);
      HeadersTwice(c, h, to, image, middle, bytes);
      PayloadsKept(c, h, to, image, bytes);
    }

    ghost predicate IsPayload(rmem: nat, k: nat)
      reads `blocks
    {
      k < |blocks| && blocks[k].used && rmem == blocks[k].start + c.header
    }

    /** `rt_smem_realloc` on null or on the payload of the used block `k`. */
    method Realloc(rmem: nat, size: nat, ghost k: nat) returns (r: nat)
      requires Valid() && size < c.word && (rmem != 0 ==> IsPayload(rmem, k))
      modifies this
      ensures Valid() && (rmem != 0 ==> k < |old(blocks)|)
      ensures (blocks, r) == Reallocated(c, memSize, old(blocks), rmem != 0, k, size)
      // null comes back for a size that is zero or too large, the same block if it is exact or can be cut, and null
      // again if it would have to move and nothing has room
      ensures Align(c, size) > memSize ==> r == 0 && blocks == old(blocks)
      ensures Align(c, size) == 0 ==> r == 0
      ensures var n := Align(c, size);
              rmem != 0 && 0 < n <= memSize ==>
                var m := old(blocks)[k].size - c.header;
                && (r == rmem <==> n == m || n + c.header + c.minSize < m)
                && (r == 0 <==> r != rmem && NothingFits(c, old(blocks), Round(c, n)))
      // a move counts both blocks for a moment
      ensures max == if r == 0 || r == rmem then old(max) else
                       Most(old(max), used + if rmem == 0 then 0 else old(blocks)[k].size)
      ensures rmem != 0 && r != 0 ==>
        Contents(bytes, r, old(bytes), rmem, Least(Align(c, size), old(blocks)[k].size - c.header))
      ensures OthersKept(c, old(blocks), if rmem == 0 then |old(blocks)| else k, old(bytes), bytes)
    {
      hide Row, Threaded, Separated, FirstFree, UsedBytes, Align, Round, Released, Taken, Shrunk, FirstFit, MovedRow;
      hide SamePayload, IsMultiple, Good, Contents, OthersKept, NothingFits, Most;
      var newsize := Align(c, size);
      AlignMultiple(c, size);
      RowPayloads(c, blocks, End(), bytes);
      if newsize > memSize {
        return 0;
      } else if newsize == 0 {
        Free(rmem, k);
        if rmem != 0 { AllKept(c, old(blocks), k, old(bytes), bytes); }
        return 0;
      }
      if rmem == 0 {
        AlignFits(c, memSize, newsize);
        r := Alloc(newsize);
        TakenPayloads(c, old(blocks), FirstFit(c, old(blocks), Round(c, newsize), 0), Round(c, newsize),
                      old(bytes), bytes);
        return;
      }
      r := Resize(rmem, newsize, k);
    }

    /** `rt_smem_realloc` on a live payload, for a rounded size that is not zero and not too large. */
    method Resize(rmem: nat, n: nat, ghost k: nat) returns (r: nat)
      requires Valid() && rmem != 0 && IsPayload(rmem, k) && 0 < n <= memSize && IsMultiple(n, c.align)
      modifies this
      ensures Valid() && k < |old(blocks)|
      ensures (blocks, r) == Resized(c, old(blocks), k, n)
      ensures var m := old(blocks)[k].size - c.header; r == rmem <==> n == m || n + c.header + c.minSize < m
      ensures r == 0 <==> r != rmem && NothingFits(c, old(blocks), Round(c, n))
      ensures max == if r == 0 || r == rmem then old(max) else Most(old(max), used + old(blocks)[k].size)
      ensures r != 0 ==> Contents(bytes, r, old(bytes), rmem, Least(n, old(blocks)[k].size - c.header))
      ensures OthersKept(c, old(blocks), k, old(bytes), bytes)
    {
      hide Row, Threaded, Separated, FirstFree, UsedBytes, Align, Round, Released, Taken, Shrunk, FirstFit, MovedRow;
      hide SamePayload, IsMultiple, Good, Contents, OthersKept;
      RowPayloads(c, blocks, End(), bytes);
      var p := rmem - c.header;
      Headers(c, items, blocks, End(), k);
      var m := items[p].next - p - c.header;
      if m == n {
        return rmem;
      }
      if n + c.header + c.minSize < m {
        Shrink(p, n, k);
        return rmem;
      }
      r := Move(rmem, n, k);
    }

    /** The branch of `rt_smem_realloc` that goes to another block. */
    method Move(rmem: nat, n: nat, ghost k: nat) returns (r: nat)
      requires Valid() && rmem != 0 && IsPayload(rmem, k) && 0 < n <= memSize && IsMultiple(n, c.align)
      modifies this
      ensures Valid() && k < |old(blocks)|
      ensures var h, f := old(blocks), FirstFit(c, old(blocks), Round(c, n), 0);
              if f == |h| then r == 0 && blocks == h && bytes == old(bytes)
              else r == h[f].start + c.header && blocks == MovedRow(c, h, f, Round(c, n), k)
      ensures r != rmem && (r == 0 <==> NothingFits(c, old(blocks), Round(c, n)))
      ensures max == if r == 0 then old(max) else Most(old(max), used + old(blocks)[k].size)
      ensures r != 0 ==> Contents(bytes, r, old(bytes), rmem, Least(n, old(blocks)[k].size - c.header))
      ensures OthersKept(c, old(blocks), k, old(bytes), bytes)
    {
      hide Valid, Sized, Row, Separated, Threaded, LowestIs, UsedBytes, FirstFree, Align, Round, Released, Taken,
        FirstFit, MovedRow, SamePayload, IsMultiple, Good, Contents, OthersKept, NothingFits, Most, Fits;
      ghost var h, image := blocks, bytes;
      MoveReady(rmem, n, k);
      ghost var s, f := Round(c, n), FirstFit(c, h, Round(c, n), 0);
      var size := items[rmem - c.header].next - (rmem - c.header) - c.header;
      r := Alloc(n);
      if r != 0 {
        ghost var o := TakenOne(c, h, f, s, k);
        ghost var middle := bytes;
        var m := if size < n then size else n;
        CopyAndFree(r, rmem, m, f, o);
        MovedPayloads(c, h, f, s, k, r, m, image, middle, bytes);
      }
    }

    /** What is known of a block before it moves. */
    lemma MoveReady(rmem: nat, n: nat, k: nat)
      requires Valid() && rmem != 0 && IsPayload(rmem, k) && 0 < n <= memSize && IsMultiple(n, c.align)
      ensures Good(c) && n < c.word && Round(c, n) >= n && c.header <= blocks[k].size && c.header <= rmem
      ensures rmem - c.header in items && items[rmem - c.header].next - (rmem - c.header) == blocks[k].size
      ensures OthersKept(c, blocks, k, bytes, bytes)
      ensures var f := FirstFit(c, blocks, Round(c, n), 0);
              && (f == |blocks| <==> NothingFits(c, blocks, Round(c, n)))
              && (f < |blocks| ==> blocks[f].start != blocks[k].start)
    {
      AlignFits(c, memSize, n);
      Headers(c, items, blocks, End(), k);
      BlockBounds(c, blocks, End(), k);
      MovesAway(c, blocks, End(), Round(c, n), k);
      RowPayloads(c, blocks, End(), bytes);
    }

    /** The end of `rt_smem_realloc`: block `o` is copied to block `f` and released. */
    method CopyAndFree(r: nat, rmem: nat, m: nat, ghost f: nat, ghost o: nat)
      requires Valid() && rmem != 0 && IsPayload(rmem, o) && f < |blocks| && f != o
      requires r == blocks[f].start + c.header && c.header + m <= blocks[f].size && c.header + m <= blocks[o].size
      modifies this
      ensures Valid() && max == old(max) && blocks == Released(old(blocks), o)
      ensures used == old(used) - old(blocks)[o].size
      ensures Contents(bytes, r, old(bytes), rmem, m)
      ensures forall i :: 0 <= i < |old(blocks)| && i != f ==> SamePayload(c, old(blocks)[i], old(bytes), bytes)
    {
      hide Row, Threaded, Separated, FirstFree, UsedBytes, Released, SamePayload, IsMultiple, Good, Contents;
      ghost var t, image := blocks, bytes;
      BlockEnd(c, blocks, End(), o);
      Copy(r, rmem, m, f);
      ghost var copied := bytes;
      Free(rmem, o);
      PayloadsTwice(c, t, f, image, copied, bytes);
      MovedContents(c, t, f, m, image, rmem, copied, bytes);
    }

    /** `rt_memcpy` into the payload of block `f`. */
    method Copy(r: nat, from: nat, m: nat, ghost f: nat)
      requires Valid() && f < |blocks| && r == blocks[f].start + c.header
      requires r + m <= blocks[f].start + blocks[f].size && from + m <= |bytes|
      modifies `bytes
      ensures Valid() && |bytes| == |old(bytes)| && Contents(bytes, r, old(bytes), from, m)
      ensures forall i :: 0 <= i < |blocks| && i != f ==> SamePayload(c, blocks[i], old(bytes), bytes)
    {
      hide Row, Threaded, Separated, FirstFree, UsedBytes, SamePayload, IsMultiple, Good;
      BlockEnd(c, blocks, End(), f);
      ghost var before := bytes;
      bytes := bytes[..r] + bytes[from..from + m] + bytes[r + m..];
      CopyKeeps(c, blocks, End(), f, r, m, before, bytes);
    }

    /** The branch of `rt_smem_realloc` that gives the end of the block back. */
    method Shrink(p: nat, n: nat, ghost k: nat)
      requires Valid() && IsPayload(p + c.header, k) && IsMultiple(n, c.align)
      requires n + c.header + c.minSize < blocks[k].size - c.header
      modifies this
      ensures Valid() && blocks == Shrunk(c, old(blocks), k, n) && max == old(max)
      ensures Contents(bytes, p + c.header, old(bytes), p + c.header, n)
      ensures OthersKept(c, old(blocks), k, old(bytes), bytes)
    {
      hide Row, Threaded, Separated, FirstFree, UsedBytes, HeadersOnly, SamePayload, IsMultiple, Good, Contents,
          OthersKept;
      ghost var h, image, to := blocks, bytes, End();
      ShrunkRow(c, h, to, k, n);
      SplitOff(p, n, k);
      ghost var cut, middle := blocks, bytes;
      PlugHoles(p + c.header + n, k + 1);
      HeadersTwice(c, cut, to, image, middle, bytes);
      PayloadsKept(c, cut, to, image, bytes);
      CutPayloads(c, h, k, n, image, bytes);
    }

    /** Cuts a free block off the end of a used one. */
    method SplitOff(p: nat, n: nat, ghost k: nat)
      requires Valid() && IsPayload(p + c.header, k) && IsMultiple(n, c.align)
      requires n + c.header + c.minSize < blocks[k].size - c.header
      modifies `items, `bytes, `blocks, `lfree, `used
      ensures Sized() && Row(c, blocks, End()) && Threaded(items, blocks, End()) && LowestIs(lfree)
      ensures blocks == Splice(old(blocks), k, 1, Cut(c, old(blocks)[k], n))
      ensures |blocks| > k + 1 && !blocks[k + 1].used && blocks[k + 1].start == p + c.header + n
      ensures used + old(blocks)[k].size == old(used) + c.header + n
      ensures HeadersOnly(c, blocks, End(), old(bytes), bytes)
    {
      hide Row, Threaded, Separated, FirstFree, UsedBytes, HeadersOnly, IsMultiple, Good;
      ghost var h, to := blocks, End();
      Headers(c, items, h, to, k);
      CutLowest(c, h, to, k, n);
      UsedAtLeast(h, k);
      var size := items[p].next - p - c.header;
      used := used - (size - n);
      Split(p, p + c.header + n, k, n);
      if p + c.header + n < lfree {
        lfree := p + c.header + n;
      }
    }
  }

  /** `m` bytes from `r` on are what another memory holds from `from` on. */
  ghost predicate Contents(after: seq<Byte>, r: int, before: seq<Byte>, from: int, m: int) {
    0 <= m && 0 <= r && r + m <= |after| && 0 <= from && from + m <= |before|
    && after[r..r + m] == before[from..from + m]
  }

  /** The payloads of all used blocks but one are the same in both memories. */
  ghost predicate OthersKept(c: Config, h: seq<Block>, k: nat, before: seq<Byte>, after: seq<Byte>) {
    forall i :: 0 <= i < |h| && h[i].used && i != k ==> SamePayload(c, h[i], before, after)
  }

  lemma RowPayloads(c: Config, h: seq<Block>, to: nat, bytes: seq<Byte>)
    requires Good(c) && Row(c, h, to) && to <= |bytes|
    ensures forall k :: 0 <= k <= |h| ==> OthersKept(c, h, k, bytes, bytes)
    ensures forall r, m :: 0 <= r && 0 <= m && r + m <= |bytes| ==> Contents(bytes, r, bytes, r, m)
  {
    RunOrdered(h, 0, to, c.header);
  }

  /** A size that fits the heap is rounded without wrapping. */
  lemma AlignFits(c: Config, memSize: nat, n: nat)
    requires Good(c) && memSize + 2 * c.header <= c.word && n <= memSize
    ensures n + c.align <= c.word && Round(c, n) >= n && IsMultiple(Round(c, n), c.align)
  {
    MultipleBelow(0, c.header, c.align);
    RoundCovers(c, n);
  }

  /** Blocks other than the one taken are in the row after an allocation too. */
  lemma TakenAt(c: Config, h: seq<Block>, k: nat, size: nat)
    requires Good(c) && k < |h| && Fits(c, h[k], size)
    ensures var t := Taken(c, h, k, size);
            && |h| <= |t| <= |h| + 1
            && (forall i :: 0 <= i < k ==> t[i] == h[i])
            && (forall i :: k < i < |h| ==> t[i + |t| - |h|] == h[i])
            && t[k].start == h[k].start && t[k].used && t[k].size >= c.header + size
  {
    hide Align;
    var t := Taken(c, h, k, size);
    if t != Splice(h, k, 1, [h[k].(used := true)]) {
      assert t == h[..k] + Cut(c, h[k], size) + h[k + 1..];
      assert t[k] == Cut(c, h[k], size)[0];
    }
  }

  /** Where the used block `k` is after block `f` has been taken. */
  lemma TakenOne(c: Config, h: seq<Block>, f: nat, size: nat, k: nat) returns (o: nat)
    requires Good(c) && f < |h| && k < |h| && Fits(c, h[f], size) && h[k].used
    ensures var t := Taken(c, h, f, size);
            && o < |t| && f < |t| && o != f && t[o] == h[k]
            && t[f].start == h[f].start && t[f].size >= c.header + size
            && MovedRow(c, h, f, size, k) == Released(t, o)
  {
    hide Taken, Released;
    TakenAt(c, h, f, size);
    o := if k < f then k else k + |Taken(c, h, f, size)| - |h|;
    assert k > f ==> Taken(c, h, f, size)[k + |Taken(c, h, f, size)| - |h|] == h[k];
  }

  lemma TakenPayloads(c: Config, h: seq<Block>, k: nat, size: nat, before: seq<Byte>, after: seq<Byte>)
    requires Good(c) && k <= |h|
    requires k == |h| ==> OthersKept(c, h, |h|, before, after)
    requires k < |h| ==> Fits(c, h[k], size)
    requires k < |h| ==> var t := Taken(c, h, k, size); forall i :: 0 <= i < |t| ==> SamePayload(c, t[i], before, after)
    ensures OthersKept(c, h, |h|, before, after)
  {
    hide SamePayload;
    if k < |h| {
      TakenAt(c, h, k, size);
      var t := Taken(c, h, k, size);
      hide Taken;
      forall i | 0 <= i < |h| && h[i].used ensures SamePayload(c, h[i], before, after) {
        assert SamePayload(c, t[if i < k then i else i + |t| - |h|], before, after);
      }
    }
  }

  lemma UsedAtLeast(h: seq<Block>, k: nat)
    requires k < |h| && h[k].used
    ensures h[k].size <= UsedBytes(h)
  {
    FlipUsed(h, k, false);
  }

  lemma CutLowest(c: Config, h: seq<Block>, to: nat, k: nat, size: nat)
    requires Good(c) && Row(c, h, to) && k < |h| && h[k].used && h[k].size >= c.header + size
    ensures CutAs(c, h[k], size) == Cut(c, h[k], size)
    ensures var f, p2, low := Splice(h, k, 1, Cut(c, h[k], size)), h[k].start + c.header + size,
                              StartAt(h, FirstFree(h, 0), to);
            && |f| == |h| + 1 && f[k].used && !f[k + 1].used && f[k + 1].start == p2
            && StartAt(f, FirstFree(f, 0), to) == if p2 < low then p2 else low
  {
    hide Row;
    var f, low := Splice(h, k, 1, Cut(c, h[k], size)), FirstFree(h, 0);
    Apart(c, h, to, k);
    BlockEnd(c, h, to, k);
    if k + 1 < |h| { Apart(c, h, to, k + 1); BlockBounds(c, h, to, k); }
    CutAt(c, h, k, size);
    hide Splice;
    if low < k {
      FirstFreeIs(f, low);
    } else {
      FirstFreeIs(f, k + 1);
    }
  }

  lemma CutAt(c: Config, h: seq<Block>, k: nat, size: nat)
    requires k < |h| && h[k].size >= c.header + size
    ensures var f, cut := Splice(h, k, 1, Cut(c, h[k], size)), Cut(c, h[k], size);
            && |f| == |h| + 1 && f[k] == cut[0] && f[k + 1] == cut[1]
            && (forall i :: 0 <= i < k ==> f[i] == h[i]) && (forall i :: k < i < |h| ==> f[i + 1] == h[i])
  {
  }

  lemma CutPayloads(c: Config, h: seq<Block>, k: nat, size: nat, before: seq<Byte>, after: seq<Byte>)
    requires k < |h| && h[k].size >= c.header + size
    requires var f := Splice(h, k, 1, Cut(c, h[k], size));
             forall i :: 0 <= i < |f| ==> SamePayload(c, f[i], before, after)
    ensures OthersKept(c, h, k, before, after)
    ensures Contents(after, h[k].start + c.header, before, h[k].start + c.header, size)
  {
    CutAt(c, h, k, size);
    var f := Splice(h, k, 1, Cut(c, h[k], size));
    hide Splice;
    assert SamePayload(c, f[k], before, after);
    var r := h[k].start + c.header;
    assert after[r..r + size] == before[r..r + size];
    hide SamePayload;
    forall i | 0 <= i < |h| && i != k ensures SamePayload(c, h[i], before, after) {
      assert SamePayload(c, f[if i < k then i else i + 1], before, after);
    }
  }

  function Least(a: int, b: int): (r: int)
    ensures r <= a && r <= b && r in {a, b}
  {
    if b < a then b else a
  }

  /** A copy into the payload of one block leaves the others alone. */
  lemma CopyKeeps(c: Config, t: seq<Block>, to: nat, f: nat, r: nat, m: nat, before: seq<Byte>, after: seq<Byte>)
    requires Good(c) && Row(c, t, to) && f < |t| && to <= |before| == |after|
    requires r == t[f].start + c.header && r + m <= t[f].start + t[f].size
    requires forall j :: 0 <= j < |after| && !(r <= j < r + m) ==> after[j] == before[j]
    ensures forall i :: 0 <= i < |t| && i != f ==> SamePayload(c, t[i], before, after)
  {
    RunOrdered(t, 0, to, c.header);
    hide Row, Run;
  }

  lemma AllKept(c: Config, h: seq<Block>, k: nat, before: seq<Byte>, after: seq<Byte>)
    requires forall i :: 0 <= i < |h| ==> SamePayload(c, h[i], before, after)
    ensures OthersKept(c, h, k, before, after)
  {
  }

  lemma PayloadsTwice(c: Config, t: seq<Block>, f: nat, a: seq<Byte>, b: seq<Byte>, d: seq<Byte>)
    requires forall i :: 0 <= i < |t| && i != f ==> SamePayload(c, t[i], a, b)
    requires forall i :: 0 <= i < |t| ==> SamePayload(c, t[i], b, d)
    ensures forall i :: 0 <= i < |t| && i != f ==> SamePayload(c, t[i], a, d)
  {
  }

  lemma MovedPayloads(c: Config, h: seq<Block>, f: nat, size: nat, k: nat, r: nat, m: nat,
                      a: seq<Byte>, b: seq<Byte>, e: seq<Byte>)
    requires Good(c) && f < |h| && k < |h| && h[k].used && Fits(c, h[f], size)
    requires var t := Taken(c, h, f, size);
             && (forall i :: 0 <= i < |t| ==> SamePayload(c, t[i], a, b))
             && (forall i :: 0 <= i < |t| && i != f ==> SamePayload(c, t[i], b, e))
    requires c.header + m <= h[k].size && Contents(e, r, b, h[k].start + c.header, m)
    ensures OthersKept(c, h, k, a, e) && Contents(e, r, a, h[k].start + c.header, m)
  {
    hide SamePayload, Contents;
    TakenAt(c, h, f, size);
    var t := Taken(c, h, f, size);
    hide Taken;
    forall i | 0 <= i < |h| && h[i].used ensures SamePayload(c, h[i], a, e) && SamePayload(c, h[i], a, b) {
      var o := if i < f then i else i + |t| - |h|;
      assert t[o] == h[i] && o != f;
      PayloadTwice(c, t[o], a, b, e);
    }
    SourceKept(c, h[k], m, a, b, e, r);
  }

  lemma PayloadTwice(c: Config, x: Block, a: seq<Byte>, b: seq<Byte>, d: seq<Byte>)
    requires SamePayload(c, x, a, b) && SamePayload(c, x, b, d)
    ensures SamePayload(c, x, a, d)
  {
  }

  /** A copy made after some writes elsewhere is a copy of what was there before them. */
  lemma SourceKept(c: Config, x: Block, m: nat, a: seq<Byte>, b: seq<Byte>, e: seq<Byte>, r: nat)
    requires SamePayload(c, x, a, b) && c.header + m <= x.size && Contents(e, r, b, x.start + c.header, m)
    ensures Contents(e, r, a, x.start + c.header, m)
  {
    var from := x.start + c.header;
    assert a[from..from + m] == b[from..from + m];
  }

  /** What was copied is still there after another block is released. */
  lemma MovedContents(c: Config, t: seq<Block>, f: nat, m: nat, b: seq<Byte>, from: nat, d: seq<Byte>, e: seq<Byte>)
    requires f < |t| && c.header + m <= t[f].size && SamePayload(c, t[f], d, e)
    requires Contents(d, t[f].start + c.header, b, from, m)
    ensures Contents(e, t[f].start + c.header, b, from, m)
  {
    var r := t[f].start + c.header;
    assert e[r..r + m] == d[r..r + m];
  }

  /** The row after a block has moved: the new place is taken, then the old one released. */
  function MovedRow(c: Config, h: seq<Block>, f: nat, size: nat, k: nat): seq<Block>
    requires Good(c) && f < |h| && k < |h| && Fits(c, h[f], size)
  {
    TakenAt(c, h, f, size);
    var t := Taken(c, h, f, size);
    Released(t, if k < f then k else k + |t| - |h|)
  }

  /** The row and the pointer after `rt_smem_realloc`. */
  ghost function Reallocated(c: Config, memSize: nat, h: seq<Block>, live: bool, k: nat, size: nat): (seq<Block>, nat)
    requires Good(c) && (live ==> k < |h|)
  {
    var n := Align(c, size);
    var f := FirstFit(c, h, Round(c, n), 0);
    if n > memSize then (h, 0)
    else if n == 0 then (if live then Released(h, k) else h, 0)
    else if live then Resized(c, h, k, n)
    else if f == |h| then (h, 0)
    else (Taken(c, h, f, Round(c, n)), h[f].start + c.header)
  }

  ghost function Resized(c: Config, h: seq<Block>, k: nat, n: nat): (seq<Block>, nat)
    requires Good(c) && k < |h|
  {
    var f := FirstFit(c, h, Round(c, n), 0);
    if h[k].size == c.header + n then (h, h[k].start + c.header)
    else if n + c.header + c.minSize + c.header < h[k].size then (Shrunk(c, h, k, n), h[k].start + c.header)
    else if f == |h| then (h, 0)
    else (MovedRow(c, h, f, Round(c, n), k), h[f].start + c.header)
  }

  /** No free block has room for `size` bytes. */
  ghost predicate NothingFits(c: Config, h: seq<Block>, size: nat) {
    forall i :: 0 <= i < |h| && !h[i].used ==> h[i].size < c.header + size
  }

  /** Where a block moves to, if there is room for it. */
  lemma MovesAway(c: Config, h: seq<Block>, to: nat, size: nat, k: nat)
    requires Good(c) && Row(c, h, to) && k < |h| && h[k].used
    ensures var f := FirstFit(c, h, size, 0);
            (f == |h| <==> NothingFits(c, h, size)) && (f < |h| ==> h[f].start != h[k].start && c.header > 0)
  {
    Apart(c, h, to, k);
    hide Row;
    var f := FirstFit(c, h, size, 0);
    if f < |h| { assert Fits(c, h[f], size); }
  }

  function Most(a: int, b: int): (r: int)
    ensures a <= r && b <= r && r in {a, b}
  {
    if b > a then b else a
  }

  /** Freeing a block lowers the lowest free block to it if it lies before. */
  lemma FreedLowest(c: Config, h: seq<Block>, to: nat, k: nat)
    requires Good(c) && Row(c, h, to) && k < |h| && h[k].used
    ensures var f, p, low := Splice(h, k, 1, [h[k].(used := false)]), h[k].start, StartAt(h, FirstFree(h, 0), to);
            && |f| == |h| && !f[k].used && f[k].start == p
            && StartAt(f, FirstFree(f, 0), to) == if p < low then p else low
  {
    hide Row;
    var f, low := Splice(h, k, 1, [h[k].(used := false)]), FirstFree(h, 0);
    Apart(c, h, to, k);
    FlippedAt(h, k, false);
    hide Splice;
    if low < k {
      FirstFreeIs(f, low);
    } else {
      FirstFreeIs(f, k);
    }
  }

  lemma FlippedAt(h: seq<Block>, k: nat, mark: bool)
    requires k < |h|
    ensures var f := Splice(h, k, 1, [h[k].(used := mark)]);
            |f| == |h| && f[k] == h[k].(used := mark) && forall i :: 0 <= i < |h| && i != k ==> f[i] == h[i]
  {
  }

  /** The headers are in the same places whatever the used marks. */
  lemma MarkHeaders(c: Config, h: seq<Block>, k: nat, mark: bool, to: nat, before: seq<Byte>, after: seq<Byte>)
    requires k < |h| && HeadersOnly(c, Splice(h, k, 1, [h[k].(used := mark)]), to, before, after)
    ensures HeadersOnly(c, h, to, before, after)
  {
    var f := Splice(h, k, 1, [h[k].(used := mark)]);
    assert |f| == |h| && forall i :: 0 <= i <= |h| ==> StartAt(f, i, to) == StartAt(h, i, to);
    hide Splice, StartAt;
    forall j | 0 <= j < |after| && after[j] != before[j] ensures UnderHeader(c, h, to, j) {
      assert UnderHeader(c, f, to, j);
    }
  }

  /** Freeing a block right after its allocation restores the row exactly. */
  lemma FreeUndoesAlloc(c: Config, h: seq<Block>, k: nat, size: nat)
    requires Good(c) && Separated(h) && k < |h| && Fits(c, h[k], size)
    ensures var t := Taken(c, h, k, size);
            |t| > k && t[k].used && Released(t, k) == h
  {
    hide Align;
    var b, t := h[k], Taken(c, h, k, size);
    assert k > 0 ==> h[k - 1].used;
    assert k + 1 < |h| ==> h[k + 1 - 1].used || h[k + 1].used;
    if b.size - c.header >= size + c.header + Align(c, c.minSize) {
      var cut := Cut(c, b, size);
      assert t == h[..k] + cut + h[k + 1..];
      var f := Splice(t, k, 1, [t[k].(used := false)]);
      assert f == h[..k] + [cut[0].(used := false), cut[1]] + h[k + 1..];
      assert Merged(f, k) == h;
    } else {
      var f := Splice(t, k, 1, [t[k].(used := false)]);
      assert f == h;
    }
  }

  lemma FirstFitIs(c: Config, h: seq<Block>, size: nat, k: nat)
    requires k < |h| && Fits(c, h[k], size) && forall i :: 0 <= i < k ==> !Fits(c, h[i], size)
    ensures FirstFit(c, h, size, 0) == k
  {
  }

  /** Blocks from `i` on that start too high cannot hold the payload. */
  lemma NoneFits(c: Config, h: seq<Block>, to: nat, i: nat, size: nat)
    requires Good(c) && Row(c, h, to) && i <= |h| && to >= c.header
    requires size > to - c.header || StartAt(h, i, to) > to - c.header - size
    requires size <= to - c.header ==> forall j :: 0 <= j < i ==> !Fits(c, h[j], size)
    ensures FirstFit(c, h, size, 0) == |h|
  {
    RunOrdered(h, 0, to, c.header);
    hide Row, Run;
  }

  /** Only the lowest free block starts where the lowest free block starts. */
  lemma LowestIndex(c: Config, h: seq<Block>, to: nat, low: nat, k: nat)
    requires Good(c) && Row(c, h, to) && low <= |h| && k < |h|
    ensures h[k].start == StartAt(h, low, to) ==> low == k
  {
    RunOrdered(h, 0, to, c.header);
    hide Row, Run;
  }

  /** The lowest free block after an allocation: the same one, unless it was the one taken. */
  lemma TakenLowest(c: Config, h: seq<Block>, to: nat, k: nat, size: nat)
    requires Good(c) && k < |h| && Fits(c, h[k], size)
    ensures var t := Taken(c, h, k, size);
            && |t| > k && t[k].start == h[k].start
            && (forall j :: 0 <= j < k ==> t[j] == h[j])
            && (FirstFree(h, 0) != k ==> StartAt(t, FirstFree(t, 0), to) == StartAt(h, FirstFree(h, 0), to))
            && (FirstFree(h, 0) == k ==> forall j :: 0 <= j < k ==> t[j].used)
  {
    hide Align;
    var t, f := Taken(c, h, k, size), FirstFree(h, 0);
    assert f <= k;
    if f < k {
      assert forall j :: 0 <= j <= f ==> t[j] == h[j];
      FirstFreeIs(t, f);
    }
  }

  /** The row after the first half of an allocation. */
  function CutIfRoom(c: Config, h: seq<Block>, k: nat, size: nat): seq<Block>
    requires Good(c) && k < |h| && Fits(c, h[k], size)
  {
    if h[k].size - c.header >= size + c.header + Align(c, c.minSize) then Splice(h, k, 1, CutAs(c, h[k], size)) else h
  }

  /** Marking the first part of the cut block makes the row the one after the allocation. */
  lemma TakenMark(c: Config, h: seq<Block>, k: nat, size: nat, cut: seq<Block>)
    requires Good(c) && k < |h| && Fits(c, h[k], size)
    requires cut == CutIfRoom(c, h, k, size)
    ensures |cut| > k && Splice(cut, k, 1, [cut[k].(used := true)]) == Taken(c, h, k, size)
  {
    hide Align;
    if cut != h {
      var mid := Cut(c, h[k], size);
      assert cut[k] == CutAs(c, h[k], size)[0] && cut[k].(used := true) == mid[0];
      assert cut[k + 1..] == [mid[1]] + h[k + 1..];
      assert [mid[0]] + [mid[1]] == mid;
    }
  }

  lemma MarkPayloads(c: Config, h: seq<Block>, k: nat, mark: bool, before: seq<Byte>, after: seq<Byte>)
    requires k < |h| && forall i :: 0 <= i < |h| ==> SamePayload(c, h[i], before, after)
    ensures var m := Splice(h, k, 1, [h[k].(used := mark)]);
            forall i :: 0 <= i < |m| ==> SamePayload(c, m[i], before, after)
  {
  }

  /** Joining two free blocks leaves the lowest free block where it was, at or before the first of them. */
  lemma LowestMerged(c: Config, h: seq<Block>, to: nat, k: nat)
    requires Good(c) && Row(c, h, to) && k + 1 < |h| && !h[k].used && !h[k + 1].used
    ensures var m := Merged(h, k);
            StartAt(m, FirstFree(m, 0), to) == StartAt(h, FirstFree(h, 0), to) <= h[k].start < h[k + 1].start
  {
    RunOrdered(h, 0, to, c.header);
    var f, m := FirstFree(h, 0), Merged(h, k);
    assert f <= k && h[f].start <= h[k].start < h[k + 1].start;
    hide Row, Run;
    MergedAt(h, k);
    hide Merged;
    FirstFreeIs(m, f);
  }

  lemma MergedAt(h: seq<Block>, k: nat)
    requires k + 1 < |h|
    ensures |Merged(h, k)| == |h| - 1 && Merged(h, k)[k].start == h[k].start && !Merged(h, k)[k].used
    ensures forall i :: 0 <= i < k ==> Merged(h, k)[i] == h[i]
  {
  }

  lemma FirstFreeIs(h: seq<Block>, k: nat)
    requires k <= |h| && (forall i :: 0 <= i < k ==> h[i].used) && (k < |h| ==> !h[k].used)
    ensures FirstFree(h, 0) == k
  {
  }

  /** The headers of a row after a join are among those before. */
  lemma MergedHeaders(c: Config, h: seq<Block>, k: nat, to: nat, before: seq<Byte>, after: seq<Byte>)
    requires k < |h| && HeadersOnly(c, MergedBehind(h, k), to, before, after)
    ensures HeadersOnly(c, h, to, before, after)
  {
    var g := MergedBehind(h, k);
    forall j | 0 <= j < |after| && after[j] != before[j] ensures UnderHeader(c, h, to, j) {
      assert UnderHeader(c, g, to, j);
      var i :| 0 <= i <= |g| && StartAt(g, i, to) <= j < StartAt(g, i, to) + c.header;
      var o := if |g| < |h| && i > k then i + 1 else i;
      assert StartAt(h, o, to) == StartAt(g, i, to);
    }
  }

  lemma HeadersTwice(c: Config, h: seq<Block>, to: nat, a: seq<Byte>, b: seq<Byte>, d: seq<Byte>)
    requires HeadersOnly(c, h, to, a, b) && HeadersOnly(c, h, to, b, d)
    ensures HeadersOnly(c, h, to, a, d)
  {
  }

  /** A cut that leaves the used mark of the first part as it was. */
  function CutAs(c: Config, b: Block, size: nat): seq<Block>
    requires b.size >= c.header + size
  {
    [Cut(c, b, size)[0].(used := b.used), Cut(c, b, size)[1]]
  }

  lemma FreshRow(c: Config, size: nat)
    requires Good(c) && IsMultiple(size, c.align)
    ensures Row(c, [Block(0, size + c.header, false)], size + c.header)
  {
    MultipleSum(size, c.header, c.align);
    var h := [Block(0, size + c.header, false)];
    assert Run(h[1..], size + c.header, size + c.header, c.header);
    assert IsMultiple(0, c.align);
  }

  lemma SplitRow(c: Config, h: seq<Block>, to: nat, k: nat, size: nat)
    requires Good(c) && Row(c, h, to) && k < |h|
    requires h[k].size >= c.header + size + c.header && IsMultiple(size, c.align)
    ensures var mid := CutAs(c, h[k], size);
            Row(c, Splice(h, k, 1, mid), to)
    ensures h[k].start + h[k].size == StartAt(h, k + 1, to) <= to
  {
    hide Row, Multiples, Splice, IsMultiple;
    var b := h[k];
    BlockBounds(c, h, to, k);
    BlockEnd(c, h, to, k);
    CutMultiples(c, b, size);
    CutAsRun(c, b, size);
    hide Run;
    SpliceRow(c, h, to, k, 1, CutAs(c, b, size));
  }

  lemma CutAsRun(c: Config, b: Block, size: nat)
    requires Good(c) && b.size >= c.header + size + c.header && Multiples(Cut(c, b, size), c.align)
    ensures Run(CutAs(c, b, size), b.start, b.start + b.size, c.header)
    ensures Multiples(CutAs(c, b, size), c.align)
  {
    var cut := CutAs(c, b, size);
    assert Run(cut[1..][1..], b.start + b.size, b.start + b.size, c.header);
    assert Run(cut[1..], cut[1].start, b.start + b.size, c.header);
    assert cut[1] == Cut(c, b, size)[1] && cut[0].start == Cut(c, b, size)[0].start;
    assert cut[0].size == Cut(c, b, size)[0].size;
  }

  lemma MarkRow(c: Config, h: seq<Block>, to: nat, k: nat, mark: bool)
    requires Good(c) && Row(c, h, to) && k < |h|
    ensures Row(c, Splice(h, k, 1, [h[k].(used := mark)]), to)
    ensures h[k].start + h[k].size <= to
  {
    BlockEnd(c, h, to, k);
    hide Row, Multiples, IsMultiple, Splice;
    BlockBounds(c, h, to, k);
    WholeMultiples(h[k], mark, c.align);
    SpliceRow(c, h, to, k, 1, [h[k].(used := mark)]);
  }

  lemma SplitThreaded(c: Config, items: map<nat, Item>, h: seq<Block>, to: nat, k: nat, size: nat)
    requires Good(c) && Row(c, h, to) && Threaded(items, h, to) && k < |h|
    requires h[k].size >= c.header + size + c.header
    ensures h[k].start in items && items[h[k].start].next == StartAt(h, k + 1, to) && StartAt(h, k + 1, to) in items
    ensures Threaded(AfterSplit(items, h[k].start, h[k].start + c.header + size, to),
                     Splice(h, k, 1, CutAs(c, h[k], size)), to)
  {
    hide *;
    var p, p2, next := h[k].start, h[k].start + c.header + size, StartAt(h, k + 1, to);
    var x, y := Block(p, c.header + size, h[k].used), Block(p2, h[k].size - c.header - size, false);
    CutAsIs(c, h[k], size);
    Headers(c, items, h, to, k);
    if k + 1 < |h| { Headers(c, items, h, to, k + 1); }
    var after := AfterSplit(items, p, p2, to);
    AfterSplitAt(items, p, p2, to);
    forall i | 0 <= i < |h| && (i < k || k + 1 < i)
      ensures h[i].start in items && h[i].start in after && after[h[i].start] == items[h[i].start]
    {
      SplitFrame(c, items, h, to, k, p2, i);
    }
    PrefixLinked(items, h, k, after);
    SuffixLinked(items, h, k + 1, after, p2);
    TwoLinked(after, x, y, PrevOf(h, k, 0));
    SpliceThreaded(h, to, k, 1, [x, y], after);
  }

  lemma CutAsIs(c: Config, b: Block, size: nat)
    requires b.size >= c.header + size
    ensures CutAs(c, b, size) == [Block(b.start, c.header + size, b.used),
                                  Block(b.start + c.header + size, b.size - c.header - size, false)]
  {
  }

  lemma TwoLinked(items: map<nat, Item>, x: Block, y: Block, first: nat)
    requires x.start in items && items[x.start] == Item(x.used, x.start + x.size, first)
    requires y.start in items && items[y.start] == Item(y.used, y.start + y.size, x.start)
    ensures Linked(items, [x, y], first)
  {
    assert [x, y] == [x] + [y];
    OneLinked(items, x, first);
    OneLinked(items, y, x.start);
    LinkedJoin(items, [x], [y], first);
  }

  lemma MergedIs(h: seq<Block>, k: nat)
    requires k + 1 < |h|
    ensures Merged(h, k) == Splice(h, k, 2, [Block(h[k].start, h[k].size + h[k + 1].size, false)])
  {
  }

  lemma JoinThreaded(c: Config, items: map<nat, Item>, h: seq<Block>, to: nat, k: nat)
    requires Good(c) && Row(c, h, to) && Threaded(items, h, to) && k + 1 < |h| && !h[k].used && !h[k + 1].used
    ensures var p, n, nn := h[k].start, h[k + 1].start, StartAt(h, k + 2, to);
            && p in items && n in items && nn in items && items[p].next == n && items[n].next == nn && nn <= to
            && p < n < nn && Threaded(AfterJoin(items, p, n, nn), Merged(h, k), to)
  {
    hide *;
    var mid := [Block(h[k].start, h[k].size + h[k + 1].size, false)];
    var p, n, nn := h[k].start, h[k + 1].start, StartAt(h, k + 2, to);
    MergedIs(h, k);
    Headers(c, items, h, to, k);
    Headers(c, items, h, to, k + 1);
    var after := AfterJoin(items, p, n, nn);
    AfterJoinAt(items, p, n, nn, to);
    forall i | 0 <= i < |h| && (i < k || k + 2 < i)
      ensures h[i].start in items && h[i].start in after && after[h[i].start] == items[h[i].start]
    {
      JoinFrame(c, items, h, to, k, i);
    }
    PrefixLinked(items, h, k, after);
    SuffixLinked(items, h, k + 2, after, p);
    OneLinked(after, mid[0], PrevOf(h, k, 0));
    SpliceThreaded(h, to, k, 2, mid, after);
  }

  lemma MarkThreaded(c: Config, items: map<nat, Item>, h: seq<Block>, to: nat, k: nat, mark: bool)
    requires Good(c) && Row(c, h, to) && Threaded(items, h, to) && k < |h|
    ensures h[k].start in items
    ensures Threaded(items[h[k].start := items[h[k].start].(used := mark)], Splice(h, k, 1, [h[k].(used := mark)]), to)
  {
    Headers(c, items, h, to, k);
    Apart(c, h, to, k);
    hide Row, Run, Threaded, StartAt, Splice;
    var after := items[h[k].start := items[h[k].start].(used := mark)];
    assert k + 1 < |h| ==> LinkedAt(items[h[k + 1].start], h, k + 1, 0);
    assert forall i :: 0 <= i < |h| ==> h[i].start in items;
    hide Linked;
    PrefixLinked(items, h, k, after);
    SuffixLinked(items, h, k + 1, after, h[k].start);
    OneLinked(after, h[k].(used := mark), PrevOf(h, k, 0));
    SpliceThreaded(h, to, k, 1, [h[k].(used := mark)], after);
  }

  /** What the header of a block says, and that there is one behind it. */
  lemma Headers(c: Config, items: map<nat, Item>, h: seq<Block>, to: nat, k: nat)
    requires Good(c) && Row(c, h, to) && Threaded(items, h, to) && k < |h|
    ensures to in items && items[to].used && Linked(items, h, 0)
    ensures h[k].start in items && h[k].start < to && c.header > 0
    ensures k + 1 < |h| ==> StartAt(h, k + 1, to) == h[k + 1].start
    ensures var next := StartAt(h, k + 1, to);
            && next in items && h[k].start < next <= to && next == h[k].start + h[k].size
            && items[h[k].start] == Item(h[k].used, next, PrevOf(h, k, 0))
  {
    RunOrdered(h, 0, to, c.header);
    hide Row, Run;
    assert LinkedAt(items[h[k].start], h, k, 0);
  }

  lemma Apart(c: Config, h: seq<Block>, to: nat, k: nat)
    requires Good(c) && Row(c, h, to) && k <= |h|
    ensures forall i :: 0 <= i < k ==> h[i].start < StartAt(h, k, to)
    ensures forall i :: k < i < |h| ==> StartAt(h, k, to) < h[i].start
    ensures StartAt(h, k, to) <= to && (k < |h| ==> h[k].start < to)
  {
    RunOrdered(h, 0, to, c.header);
    hide Row, Run;
  }

  /** The header updates of a split and of a join. */
  function AfterSplit(items: map<nat, Item>, p: nat, p2: nat, to: nat): map<nat, Item>
    requires p in items && items[p].next in items && p != p2
  {
    var next := items[p].next;
    var first := items[p2 := Item(false, next, p)];
    var second := first[p := first[p].(next := p2)];
    if next == to then second else second[next := second[next].(prev := p2)]
  }

  function AfterJoin(items: map<nat, Item>, p: nat, n: nat, nn: nat): map<nat, Item>
    requires p in items && n in items && nn in items
  {
    var first := items[n := items[n].(used := false)];
    var second := first[p := first[p].(next := nn)];
    second[nn := second[nn].(prev := p)]
  }

  lemma AfterSplitAt(items: map<nat, Item>, p: nat, p2: nat, to: nat)
    requires p in items && items[p].next in items && to in items && items[to].used
    requires p < p2 < items[p].next <= to
    ensures var next, after := items[p].next, AfterSplit(items, p, p2, to);
            && p in after && after[p] == items[p].(next := p2)
            && p2 in after && after[p2] == Item(false, next, p)
            && (next != to ==> next in after && after[next] == items[next].(prev := p2))
            && to in after && after[to].used
  {
  }

  lemma SplitFrame(c: Config, items: map<nat, Item>, h: seq<Block>, to: nat, k: nat, p2: nat, i: nat)
    requires Good(c) && Row(c, h, to) && Threaded(items, h, to) && k < |h| && i < |h| && (i < k || k + 1 < i)
    requires h[k].start in items && items[h[k].start].next == StartAt(h, k + 1, to)
    requires h[k].start < p2 < StartAt(h, k + 1, to) && StartAt(h, k + 1, to) in items
    ensures var after := AfterSplit(items, h[k].start, p2, to);
            h[i].start in items && h[i].start in after && after[h[i].start] == items[h[i].start]
  {
    Apart(c, h, to, k);
    Apart(c, h, to, k + 1);
    assert h[i].start in items;
  }

  lemma JoinFrame(c: Config, items: map<nat, Item>, h: seq<Block>, to: nat, k: nat, i: nat)
    requires Good(c) && Row(c, h, to) && Threaded(items, h, to) && k + 1 < |h| && i < |h| && (i < k || k + 2 < i)
    requires h[k].start in items && h[k + 1].start in items && StartAt(h, k + 2, to) in items
    ensures var after := AfterJoin(items, h[k].start, h[k + 1].start, StartAt(h, k + 2, to));
            h[i].start in items && h[i].start in after && after[h[i].start] == items[h[i].start]
  {
    Apart(c, h, to, k);
    Apart(c, h, to, k + 1);
    Apart(c, h, to, k + 2);
    assert h[i].start in items;
  }

  lemma AfterJoinAt(items: map<nat, Item>, p: nat, n: nat, nn: nat, to: nat)
    requires p in items && n in items && nn in items && p < n < nn <= to && to in items && items[to].used
    ensures var after := AfterJoin(items, p, n, nn);
            && p in after && after[p] == items[p].(next := nn)
            && nn in after && after[nn] == items[nn].(prev := p)
            && to in after && after[to].used
  {
  }

  /** An allocation that succeeds hands out at least the bytes asked for exactly if rounding the
      request does not wrap around the size type: a request within an alignment of its end gets a
      block of the least size. */
  /** A block is cut exactly if a header and a least payload fit behind; so no used block has room for another one, and
      what is cut off can be given out. */
  lemma TakenSize(c: Config, h: seq<Block>, k: nat, size: nat)
    requires Good(c) && k < |h| && Fits(c, h[k], size)
    ensures var t, least, spare := Taken(c, h, k, size), Align(c, c.minSize), h[k].size - c.header - size;
            && k < |t| && t[k].start == h[k].start && t[k].used
            && size <= t[k].size - c.header < size + c.header + least
            && (t[k].size < h[k].size <==> spare >= c.header + least)
            && (t[k].size < h[k].size ==>
                  && |t| == |h| + 1 && t[k].size == c.header + size
                  && t[k + 1] == Block(h[k].start + c.header + size, spare, false))
            && (t[k].size == h[k].size ==> t == h[k := h[k].(used := true)])
            && t[..k] == h[..k] && t[k + |t| - |h| + 1..] == h[k + 1..]
  {
    hide Align;
    var t := Taken(c, h, k, size);
    if h[k].size - c.header >= size + c.header + Align(c, c.minSize) {
      assert t == h[..k] + Cut(c, h[k], size) + h[k + 1..];
      assert t[k] == Cut(c, h[k], size)[0] && t[k + 1] == Cut(c, h[k], size)[1];
    } else {
      assert t == h[..k] + [h[k].(used := true)] + h[k + 1..];
    }
  }

  lemma AllocCovers(c: Config, h: seq<Block>, memSize: nat, k: nat, size: nat)
    requires Good(c) && memSize + 2 * c.header <= c.word && size < c.word && k < |h|
    requires Row(c, h, memSize + c.header) && Fits(c, h[k], Round(c, size))
    ensures var t := Taken(c, h, k, Round(c, size));
            k < |t| && (t[k].size - c.header >= size <==> size + c.align <= c.word)
  {
    hide Row, Taken, Round, FirstFit;
    RoundCovers(c, size);
    TakenAt(c, h, k, Round(c, size));
    TakenBelow(c, h, memSize + c.header, k, Round(c, size));
    MultipleBelow(0, c.header, c.align);
  }

  lemma TakenBelow(c: Config, h: seq<Block>, to: nat, k: nat, size: nat)
    requires Good(c) && Row(c, h, to) && k < |h| && Fits(c, h[k], size)
    ensures var t := Taken(c, h, k, size); k < |t| && t[k].size <= h[k].size <= to
  {
    BlockEnd(c, h, to, k);
  }

  /** Asking for no more than the block has can fail: exactly if it asks for less, the rest is too small
      to give back, and no free block fits. */
  lemma ShrinkFails(c: Config, h: seq<Block>, k: nat, n: nat)
    requires Good(c) && k < |h| && c.header + n <= h[k].size
    ensures Resized(c, h, k, n).1 == 0 <==>
      c.header + n < h[k].size <= n + c.header + c.minSize + c.header && FirstFit(c, h, Round(c, n), 0) == |h|
  {
    hide Shrunk, MovedRow, FirstFit, Round;
  }

  /** Reallocating a live block frees it and gives null exactly if the size is zero or its rounding wraps to zero. */
  lemma ReallocFrees(c: Config, memSize: nat, h: seq<Block>, k: nat, size: nat)
    requires Good(c) && Row(c, h, memSize + c.header) && Separated(h) && k < |h| && h[k].used && size < c.word
    ensures Reallocated(c, memSize, h, true, k, size) == (Released(h, k), 0) <==> size == 0 || size + c.align > c.word
  {
    BlockBounds(c, h, memSize + c.header, k);
    ReleasedRow(c, h, memSize + c.header, k);
    hide Row, Separated, Released, Align, Shrunk, MovedRow, FirstFit, Taken, Round, UsedBytes, Good;
    AlignIs(c, size);
    AlignZero(c);
    assert h[k].start + c.header > 0;
  }

  lemma AlignZero(c: Config)
    requires Good(c)
    ensures Align(c, 0) == 0 && c.header > 0
  {
    AlignIs(c, 0);
    if Align(c, 0) > 0 {
      MultipleBelow(0, Align(c, 0), c.align);
    }
  }

  function Narrow(): Config { Config(4, 12, 12, 0x1_0000_0000) }

  lemma NarrowGood()
    ensures Good(Narrow())
  {
  }

  lemma NarrowFields(c: Config)
    requires c == Narrow()
    ensures c.align == 4 && c.header == 12 && c.minSize == 12 && c.word == 0x1_0000_0000
  {
  }

  lemma NarrowRound(c: Config, n: nat)
    requires c == Narrow() && Good(c) && n % 4 == 0 && 12 <= n <= 0xFFFF_FFFC
    ensures Align(c, n) == n && Round(c, n) == n
  {
    hide Align, Good;
    AlignIs(c, n);
    AlignIs(c, 12);
  }

  lemma NarrowWraps(c: Config, n: nat)
    requires c == Narrow() && Good(c) && 0xFFFF_FFFC < n <= 0xFFFF_FFFF
    ensures Align(c, c.minSize) == 12 && Round(c, n) == 12
  {
    hide Align, Good;
    AlignIs(c, n);
    AlignIs(c, 12);
  }

  /** A request for 0xFFFFFFFE bytes in a heap with 40 free ones is met with a block of 12. */
  lemma RequestWrapped()
    ensures var c, h := Narrow(), [Block(0, 52, false)];
            && Good(c) && Row(c, h, 52) && Fits(c, h[0], Round(c, 0xFFFF_FFFE))
            && |Taken(c, h, 0, Round(c, 0xFFFF_FFFE))| > 0
            && Taken(c, h, 0, Round(c, 0xFFFF_FFFE))[0] == Block(0, 12 + 12, true)
  {
    hide *;
    var c := Narrow();
    NarrowGood();
    NarrowWraps(c, 0xFFFF_FFFE);
    NarrowFields(c);
    OneRow(c, 52, false);
    LeastTaken(c, [Block(0, 52, false)]);
  }

  /** A block with room for more is cut to a least one. */
  lemma LeastTaken(c: Config, h: seq<Block>)
    requires Good(c) && |h| == 1 && h[0].start == 0 && !h[0].used
    requires h[0].size >= 2 * c.header + 2 * Align(c, c.minSize)
    ensures var n := Align(c, c.minSize);
            Fits(c, h[0], n) && |Taken(c, h, 0, n)| > 0 && Taken(c, h, 0, n)[0] == Block(0, c.header + n, true)
  {
    hide Good, Align;
  }

  lemma OneRow(c: Config, size: nat, used: bool)
    requires Good(c) && size >= c.header && c.align > 0 && size % c.align == 0
    ensures var h := [Block(0, size, used)];
            Row(c, h, size) && Separated(h) && UsedBytes(h) == if used then size else 0
  {
    hide Good;
    var h := [Block(0, size, used)];
    assert Run(h[1..], size, size, c.header) && UsedBytes(h[1..]) == 0;
    assert IsMultiple(0, c.align);
  }

  /** Reallocating the block of a full heap to that size frees it. */
  lemma ReallocWrapped()
    ensures var c, h := Narrow(), [Block(0, 52, true)];
            Good(c) && Row(c, h, 52) && Reallocated(c, 40, h, true, 0, 0xFFFF_FFFE) == ([Block(0, 52, false)], 0)
  {
    hide *;
    var c, h := Narrow(), [Block(0, 52, true)];
    NarrowGood();
    NarrowFields(c);
    OneRow(c, 52, true);
    ReallocFrees(c, 40, h, 0, 0xFFFF_FFFE);
    ReleasedOne(52);
  }

  lemma ReleasedOne(size: nat)
    ensures Released([Block(0, size, true)], 0) == [Block(0, size, false)]
  {
  }

  /** Cutting a payload of 40 bytes down to 24 in a heap with nothing else in it: the 16 bytes to spare
      are too few for a block of their own, no other block is free, and the call fails. */
  lemma ShrinkRefused()
    ensures var c, h := Narrow(), [Block(0, 52, true)];
            && Good(c) && Row(c, h, 52) && Separated(h) && UsedBytes(h) == 52
            && Reallocated(c, 40, h, true, 0, 24) == (h, 0)
  {
    hide *;
    var c, h := Narrow(), [Block(0, 52, true)];
    NarrowGood();
    NarrowRound(c, 24);
    NarrowFields(c);
    OneRow(c, 52, true);
    NoRest(c, h);
  }

  lemma NoRest(c: Config, h: seq<Block>)
    requires Good(c) && c.header == 12 && c.minSize == 12 && Align(c, 24) == 24 && Round(c, 24) == 24
    requires h == [Block(0, 52, true)]
    ensures Reallocated(c, 40, h, true, 0, 24) == (h, 0)
  {
    hide Align, Round, Good, Shrunk, MovedRow, Taken;
    assert FirstFit(c, h, 24, 0) == 1;
    assert Resized(c, h, 0, 24) == (h, 0);
  }
}
