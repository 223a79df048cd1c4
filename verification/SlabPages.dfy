/**
 The page allocator under the slab (rt-thread/src/slab.c): one list of free runs of pages, in order
 of address.
 */
module SlabPages {

  /** `n` free pages from page `at` on. */
  datatype Pages = Pages(at: nat, n: nat)

  /** Runs are in order, in bounds, not empty, and no two of them touch. */
  ghost predicate Tidy(list: seq<Pages>, total: nat) {
    && (forall i :: 0 <= i < |list| ==> list[i].n > 0 && list[i].at + list[i].n <= total)
    && (forall i, j :: 0 <= i < j < |list| ==> list[i].at + list[i].n < list[j].at)
  }

  predicate In(p: nat, run: Pages) {
    run.at <= p < run.at + run.n
  }

  /** Page `p` is free. */
  ghost predicate Has(list: seq<Pages>, p: nat) {
    exists i :: 0 <= i < |list| && In(p, list[i])
  }

  /** The pages say what the list is: there is one tidy list for any set of free pages. */
  lemma {:induction false} Canonical(a: seq<Pages>, b: seq<Pages>, total: nat)
    requires Tidy(a, total) && Tidy(b, total) && forall p :: Has(a, p) <==> Has(b, p)
    ensures a == b
    decreases |a|
  {
    hide Tidy, Has;
    if a == [] || b == [] {
      if a != b {
        var l := if a == [] then b else a;
        SomePage(l, total);
        NoPage(l[0].at);
      }
    } else {
      FirstAgree(a, b, total);
      RestTidy(a, total);
      RestTidy(b, total);
      forall p
        ensures Has(a[1..], p) <==> Has(b[1..], p)
      {
        RestHas(a, total, p);
        RestHas(b, total, p);
      }
      Canonical(a[1..], b[1..], total);
      assert a == [a[0]] + a[1..] && b == [b[0]] + b[1..];
    }
  }

  lemma RestTidy(list: seq<Pages>, total: nat)
    requires Tidy(list, total) && list != []
    ensures Tidy(list[1..], total)
  {
  }

  lemma SomePage(list: seq<Pages>, total: nat)
    requires Tidy(list, total) && list != []
    ensures Has(list, list[0].at)
  {
    assert In(list[0].at, list[0]);
  }

  lemma NoPage(p: nat)
    ensures !Has([], p)
  {
  }

  lemma RestHas(list: seq<Pages>, total: nat, p: nat)
    requires Tidy(list, total) && list != []
    ensures Has(list[1..], p) <==> Has(list, p) && !In(p, list[0])
  {
    if Has(list[1..], p) {
      var i :| 0 <= i < |list| - 1 && In(p, list[1..][i]);
      assert In(p, list[i + 1]);
    }
    if i :| 0 < i < |list| && In(p, list[i]) {
      assert In(p, list[1..][i - 1]);
    }
  }

  /** Two tidy lists with the same pages begin with the same run. */
  lemma FirstAgree(a: seq<Pages>, b: seq<Pages>, total: nat)
    requires Tidy(a, total) && Tidy(b, total) && a != [] && b != [] && forall p :: Has(a, p) <==> Has(b, p)
    ensures a[0] == b[0]
  {
    LowestHas(a, total);
    LowestHas(b, total);
    assert a[0].at == b[0].at;
    PastFirst(a, total);
    PastFirst(b, total);
    if a[0].n < b[0].n {
      assert In(a[0].at + a[0].n, b[0]);
    } else if b[0].n < a[0].n {
      assert In(b[0].at + b[0].n, a[0]);
    }
  }

  lemma LowestHas(list: seq<Pages>, total: nat)
    requires Tidy(list, total) && list != []
    ensures Has(list, list[0].at) && forall p :: Has(list, p) ==> list[0].at <= p
  {
    assert In(list[0].at, list[0]);
  }

  lemma PastFirst(list: seq<Pages>, total: nat)
    requires Tidy(list, total) && list != []
    ensures !Has(list, list[0].at + list[0].n)
  {
  }

  // ------------------------------------------------------------------ allocation

  /** The first run with at least `n` pages, or the number of runs. */
  function FirstBig(list: seq<Pages>, n: nat, from: nat): (k: nat)
    requires from <= |list|
    ensures from <= k <= |list|
    ensures k < |list| ==> list[k].n >= n
    ensures forall i :: from <= i < k ==> list[i].n < n
    decreases |list| - from
  {
    if from == |list| || list[from].n >= n then from else FirstBig(list, n, from + 1)
  }

  /** Run `k` gives its first `n` pages. */
  function Cut(list: seq<Pages>, k: nat, n: nat): seq<Pages>
    requires k < |list| && n <= list[k].n
  {
    if list[k].n > n then list[k := Pages(list[k].at + n, list[k].n - n)] else list[..k] + list[k + 1..]
  }

  /** Where the runs are after an allocation. */
  lemma CutAt(list: seq<Pages>, k: nat, n: nat)
    requires k < |list| && n <= list[k].n
    ensures var t, d := Cut(list, k, n), if list[k].n > n then 1 else 0;
            && |t| == |list| - 1 + d
            && (forall i :: 0 <= i < k ==> t[i] == list[i])
            && (d == 1 ==> t[k] == Pages(list[k].at + n, list[k].n - n))
            && (forall i :: k + d <= i < |t| ==> t[i] == list[i + 1 - d])
            && (forall i :: k < i < |list| ==> t[i - 1 + d] == list[i])
  {
  }

  lemma CutTidy(list: seq<Pages>, total: nat, k: nat, n: nat)
    requires Tidy(list, total) && k < |list| && 0 < n <= list[k].n
    ensures Tidy(Cut(list, k, n), total)
  {
    hide Cut;
    CutAt(list, k, n);
    var t := Cut(list, k, n);
    forall i, j | 0 <= i < j < |t|
      ensures t[i].at + t[i].n < t[j].at
    {
      var d := if list[k].n > n then 1 else 0;
      var a, b := if i < k + d then i else i + 1 - d, if j < k + d then j else j + 1 - d;
      assert list[a].at + list[a].n < list[b].at;
    }
  }

  /** Allocation takes exactly the pages it hands out. */
  lemma CutTakes(list: seq<Pages>, total: nat, k: nat, n: nat)
    requires Tidy(list, total) && k < |list| && 0 < n <= list[k].n
    ensures var t, at := Cut(list, k, n), list[k].at;
            && Tidy(t, total) && at + n <= total
            && (forall p :: In(p, Pages(at, n)) ==> Has(list, p))
            && (forall p :: Has(t, p) <==> Has(list, p) && !In(p, Pages(at, n)))
  {
    hide Cut;
    CutTidy(list, total, k, n);
    var t, run := Cut(list, k, n), Pages(list[k].at, n);
    forall p
      ensures In(p, run) ==> Has(list, p)
      ensures Has(t, p) <==> Has(list, p) && !In(p, run)
    {
      CutHas(list, total, k, n, p);
    }
  }

  lemma CutHas(list: seq<Pages>, total: nat, k: nat, n: nat, p: nat)
    requires Tidy(list, total) && k < |list| && 0 < n <= list[k].n
    ensures In(p, Pages(list[k].at, n)) ==> Has(list, p)
    ensures Has(Cut(list, k, n), p) <==> Has(list, p) && !In(p, Pages(list[k].at, n))
  {
    hide Cut, Tidy;
    if Has(Cut(list, k, n), p) { CutHasNo(list, total, k, n, p); }
    CutAt(list, k, n);
    var t, d := Cut(list, k, n), if list[k].n > n then 1 else 0;
    if In(p, Pages(list[k].at, n)) {
      assert In(p, list[k]);
    }
    if i :| 0 <= i < |list| && In(p, list[i]) && !In(p, Pages(list[k].at, n)) {
      assert In(p, t[if i <= k then i else i - 1 + d]);
    }
  }

  lemma RunsDiffer(list: seq<Pages>, total: nat, j: nat, k: nat, p: nat)
    requires Tidy(list, total) && j < |list| && k < |list| && j != k && In(p, list[j])
    ensures !In(p, list[k])
  {
  }

  lemma CutHasNo(list: seq<Pages>, total: nat, k: nat, n: nat, p: nat)
    requires Tidy(list, total) && k < |list| && 0 < n <= list[k].n && Has(Cut(list, k, n), p)
    ensures Has(list, p) && !In(p, Pages(list[k].at, n))
  {
    hide Cut, Tidy;
    CutAt(list, k, n);
    var t, d := Cut(list, k, n), if list[k].n > n then 1 else 0;
    var i :| 0 <= i < |t| && In(p, t[i]);
    if i == k && d == 1 {
      assert In(p, list[k]);
    } else {
      var j := if i < k then i else i + 1 - d;
      assert In(p, list[j]) && j != k;
      RunsDiffer(list, total, j, k, p);
    }
  }

  /** A request fails exactly when no `n` free pages lie side by side. */
  lemma NoneBig(list: seq<Pages>, total: nat, n: nat)
    requires Tidy(list, total) && n > 0
    ensures FirstBig(list, n, 0) == |list| <==> !exists at: nat :: SideBySide(list, at, n)
  {
    var k := FirstBig(list, n, 0);
    if k < |list| {
      forall p | In(p, Pages(list[k].at, n))
        ensures Has(list, p)
      {
        assert In(p, list[k]);
      }
      assert SideBySide(list, list[k].at, n);
    } else if at: nat :| SideBySide(list, at, n) {
      assert In(at, Pages(at, n));
      var i :| 0 <= i < |list| && In(at, list[i]);
      Together(list, total, at, n, i, 1);
      assert false;
    }
  }

  ghost predicate SideBySide(list: seq<Pages>, at: nat, n: nat) {
    forall p :: In(p, Pages(at, n)) ==> Has(list, p)
  }

  /** Free pages side by side are in one run, since runs do not touch. */
  lemma {:induction false} Together(list: seq<Pages>, total: nat, at: nat, n: nat, i: nat, m: nat)
    requires Tidy(list, total) && SideBySide(list, at, n) && i < |list| && In(at, list[i]) && 1 <= m <= n
    requires at + m <= list[i].at + list[i].n
    ensures at + n <= list[i].at + list[i].n
    decreases n - m
  {
    if m < n {
      assert In(at + m, Pages(at, n));
      var j :| 0 <= j < |list| && In(at + m, list[j]);
      assert In(at + m - 1, list[i]);
      assert j == i;
      Together(list, total, at, n, i, m + 1);
    }
  }

  // ------------------------------------------------------------------ release

  /** Pages outside the list that are in bounds. */
  ghost predicate Outside(list: seq<Pages>, total: nat, run: Pages) {
    run.n > 0 && run.at + run.n <= total && forall p :: In(p, run) ==> !Has(list, p)
  }

  /** A run that is not in the list lies before or behind each of its runs. */
  lemma Beside(list: seq<Pages>, total: nat, run: Pages, i: nat)
    requires Tidy(list, total) && Outside(list, total, run) && i < |list|
    ensures list[i].at + list[i].n <= run.at || run.at + run.n <= list[i].at
  {
    if list[i].at < run.at + run.n && run.at < list[i].at + list[i].n {
      var p := if list[i].at < run.at then run.at else list[i].at;
      assert In(p, run) && In(p, list[i]);
      assert Has(list, p);
    }
  }

  ghost predicate Adds(list: seq<Pages>, run: Pages, t: seq<Pages>) {
    forall p :: Has(t, p) <==> Has(list, p) || In(p, run)
  }

  /** Runs `k` up to `m` and the released one become one run. */
  function Patched(list: seq<Pages>, k: nat, m: nat, run: Pages): seq<Pages>
    requires k <= m <= |list|
  {
    list[..k] + [run] + list[m..]
  }

  /** The shape of every way a release ends: what lies between the runs before and those behind is one run. */
  lemma PatchedTidy(list: seq<Pages>, total: nat, k: nat, m: nat, run: Pages)
    requires Tidy(list, total) && k <= m <= |list| && run.n > 0 && run.at + run.n <= total
    requires k > 0 ==> list[k - 1].at + list[k - 1].n < run.at
    requires m < |list| ==> run.at + run.n < list[m].at
    ensures Tidy(Patched(list, k, m, run), total)
  {
    hide Patched;
    PatchedAt(list, k, m, run);
    var t := Patched(list, k, m, run);
    forall i | 0 <= i < |t| ensures t[i].n > 0 && t[i].at + t[i].n <= total {
      if i > k { assert t[i] == list[i - k - 1 + m]; }
    }
    forall i, j | 0 <= i < j < |t|
      ensures t[i].at + t[i].n < t[j].at
    {
      hide Tidy;
      RunsApart(list, total, k, m, run, i, j);
    }
  }

  /** Two runs of the new list, in terms of the old one. */
  lemma RunsApart(list: seq<Pages>, total: nat, k: nat, m: nat, run: Pages, i: nat, j: nat)
    requires Tidy(list, total) && k <= m <= |list| && i < j < k + 1 + |list| - m
    requires k > 0 ==> list[k - 1].at + list[k - 1].n < run.at
    requires m < |list| ==> run.at + run.n < list[m].at
    ensures var a := if i < k then list[i] else if i == k then run else list[i - k - 1 + m];
            var b := if j < k then list[j] else if j == k then run else list[j - k - 1 + m];
            a.at + a.n < b.at
  {
    if i < k {
      assert list[i].at + list[i].n <= list[k - 1].at + list[k - 1].n;
      if j > k {
        assert list[i].at + list[i].n < list[j - k - 1 + m].at;
      }
    } else {
      assert list[m].at <= list[j - k - 1 + m].at;
      if i > k {
        assert list[i - k - 1 + m].at + list[i - k - 1 + m].n < list[j - k - 1 + m].at;
      }
    }
  }

  lemma PatchedAt(list: seq<Pages>, k: nat, m: nat, run: Pages)
    requires k <= m <= |list|
    ensures var t := Patched(list, k, m, run);
            && |t| == k + 1 + |list| - m && t[k] == run
            && (forall i :: 0 <= i < k ==> t[i] == list[i])
            && (forall i :: k < i < |t| ==> t[i] == list[i - k - 1 + m])
            && (forall i :: m <= i < |list| ==> t[i + k + 1 - m] == list[i])
  {
  }

  lemma PatchedAdds(list: seq<Pages>, k: nat, m: nat, run: Pages, whole: Pages)
    requires k <= m <= |list|
    requires forall p :: In(p, whole) <==> In(p, run) || exists i :: k <= i < m && In(p, list[i])
    ensures Adds(list, run, Patched(list, k, m, whole))
  {
    hide Patched;
    PatchedAt(list, k, m, whole);
    var t := Patched(list, k, m, whole);
    forall p
      ensures Has(t, p) <==> Has(list, p) || In(p, run)
    {
      if Has(t, p) {
        var i :| 0 <= i < |t| && In(p, t[i]);
        if i < k {
          assert In(p, list[i]);
        } else if i > k {
          assert In(p, list[i - k - 1 + m]);
        }
      }
      if i :| 0 <= i < |list| && In(p, list[i]) {
        assert In(p, t[if i < k then i else if i < m then k else i + k + 1 - m]);
      } else if In(p, run) {
        assert In(p, t[k]);
      }
    }
  }

  /** Releasing what was just allocated restores the list exactly. */
  lemma FreeUndoesAlloc(list: seq<Pages>, total: nat, k: nat, n: nat, after: seq<Pages>)
    requires Tidy(list, total) && k < |list| && 0 < n <= list[k].n
    requires Tidy(after, total) && Adds(Cut(list, k, n), Pages(list[k].at, n), after)
    ensures after == list
  {
    CutTakes(list, total, k, n);
    hide Tidy, Has, Cut;
    assert forall p :: Has(after, p) <==> Has(list, p);
    Canonical(after, list, total);
  }
}
