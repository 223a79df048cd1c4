/**
 Software timers (rt-thread/src/timer.c): a skip list of active timers ordered by expiry on a 32-bit
 tick counter that wraps around, refined from a plain sorted list over a clock that does not.
 */
module TimerList {
  import opened ReadyLists

  /** The number of tick values, and RT_TICK_MAX / 2. */
  const WORD: int := 0x1_0000_0000
  const HALF: int := 0x7fff_ffff

  // ------------------------------------------------------------------ comparing ticks

  /** `(a - b) < RT_TICK_MAX / 2` on 32-bit ticks. */
  predicate AtOrAfter(a: nat, b: nat) {
    (a - b) % WORD < HALF
  }

  /** `rt_timer_start` stops in front of a timer that expires at `other`. */
  predicate StopsBefore(other: nat, new_: nat) {
    (other - new_) % WORD != 0 && AtOrAfter(other, new_)
  }

  /** On times less than a whole turn apart the wrapped comparison is right exactly in this window. */
  lemma WindowIsExact(a: nat, b: nat)
    requires -WORD < a - b < WORD
    ensures (AtOrAfter(a % WORD, b % WORD) <==> a >= b) <==> -HALF - 2 <= a - b < HALF
  {
    Wrapped(a, b);
  }

  lemma Wrapped(a: nat, b: nat)
    requires -WORD < a - b < WORD
    ensures (a % WORD - b % WORD) % WORD == if a >= b then a - b else a - b + WORD
  {
  }

  lemma StopsRight(a: nat, b: nat)
    requires -HALF - 2 <= a - b < HALF
    ensures StopsBefore(a % WORD, b % WORD) <==> a > b
  {
    Wrapped(a, b);
  }

  // ------------------------------------------------------------------ the plain sorted list

  /** When a timer expires on the unbounded clock, and the order in which timers were started. */
  datatype Key = Key(due: nat, stamp: nat)

  predicate Earlier(a: Key, b: Key) {
    a.due < b.due || (a.due == b.due && a.stamp < b.stamp)
  }

  ghost predicate Known(row: seq<nat>, keys: seq<Key>) {
    forall i :: 0 <= i < |row| ==> row[i] < |keys|
  }

  /** Sorted by expiry, and by starting order among equals. */
  ghost predicate Sorted(row: seq<nat>, keys: seq<Key>) {
    Known(row, keys) && forall i, j :: 0 <= i < j < |row| ==> Earlier(keys[row[i]], keys[row[j]])
  }

  /** How many timers at the front of a list expire no later than `due`: a linear scan. */
  ghost function Upto(row: seq<nat>, keys: seq<Key>, due: nat): (n: nat)
    requires Known(row, keys)
    ensures n <= |row|
    ensures forall i :: 0 <= i < n ==> keys[row[i]].due <= due
    ensures n < |row| ==> keys[row[n]].due > due
  {
    if row == [] || keys[row[0]].due > due then 0
    else
      var n := Upto(row[1..], keys, due);
      1 + n
  }

  /** The first `p` timers of a list expire no later than `due`. */
  ghost predicate NoneLater(row: seq<nat>, keys: seq<Key>, p: nat, due: nat)
    requires Known(row, keys)
  {
    p <= |row| && forall i :: 0 <= i < p ==> keys[row[i]].due <= due
  }

  lemma {:induction false} UptoIs(row: seq<nat>, keys: seq<Key>, due: nat, p: nat)
    requires Known(row, keys) && NoneLater(row, keys, p, due)
    requires p < |row| ==> keys[row[p]].due > due
    ensures Upto(row, keys, due) == p
  {
    if p > 0 {
      UptoIs(row[1..], keys, due, p - 1);
    }
  }

  /** Where a timer goes in a sorted list: behind all that expire no later. */
  ghost function Inserted(row: seq<nat>, keys: seq<Key>, t: nat): seq<nat>
    requires Known(row, keys) && t < |keys|
  {
    var n := Upto(row, keys, keys[t].due);
    row[..n] + [t] + row[n..]
  }

  lemma SortedDistinct(row: seq<nat>, keys: seq<Key>)
    requires Sorted(row, keys)
    ensures Distinct(row)
  {
    forall i, j | 0 <= i < j < |row| ensures row[i] != row[j] {
      assert Earlier(keys[row[i]], keys[row[j]]);
    }
  }

  /** The timer started last goes where the list stays sorted. */
  lemma InsertedSorted(row: seq<nat>, keys: seq<Key>, t: nat)
    requires Sorted(row, keys) && t < |keys| && t !in row
    requires forall i :: 0 <= i < |row| ==> keys[row[i]].stamp < keys[t].stamp
    ensures Sorted(Inserted(row, keys, t), keys)
    ensures forall x :: x in Inserted(row, keys, t) <==> x in row || x == t
  {
    var n, s := Upto(row, keys, keys[t].due), Inserted(row, keys, t);
    InsertedMembers(row, keys, t);
    InsertedAt(row, keys, t);
    assert forall i :: 0 <= i < n ==> keys[row[i]].due <= keys[t].due;
    hide Inserted, Upto;
    forall i, j | 0 <= i < j < |s| ensures Earlier(keys[s[i]], keys[s[j]]) {
      if i == n {
        assert n < j - 1 ==> Earlier(keys[row[n]], keys[row[j - 1]]);
      } else if j != n {
        assert Earlier(keys[row[if i < n then i else i - 1]], keys[row[if j < n then j else j - 1]]);
      }
    }
  }

  lemma InsertedAt(row: seq<nat>, keys: seq<Key>, t: nat)
    requires Known(row, keys) && t < |keys|
    ensures var n, s := Upto(row, keys, keys[t].due), Inserted(row, keys, t);
            |s| == |row| + 1 && forall i :: 0 <= i < |s| ==>
                s[i] == if i < n then row[i] else if i == n then t else row[i - 1]
  {
    hide Upto;
  }

  lemma InsertedMembers(row: seq<nat>, keys: seq<Key>, t: nat)
    requires Known(row, keys) && t < |keys|
    ensures forall x :: x in Inserted(row, keys, t) <==> x in row || x == t
  {
    var n, s := Upto(row, keys, keys[t].due), Inserted(row, keys, t);
    assert row == row[..n] + row[n..];
  }

  lemma {:induction false} WithoutSorted(row: seq<nat>, keys: seq<Key>, t: nat)
    requires Sorted(row, keys)
    ensures Sorted(Without(row, t), keys)
    ensures forall x :: x in Without(row, t) <==> x in row && x != t
  {
    SortedDistinct(row, keys);
    WithoutMembers(row, t);
    if row != [] && row[0] != t {
      WithoutSorted(row[1..], keys, t);
      var w := Without(row[1..], t);
      forall j | 0 <= j < |w| ensures Earlier(keys[row[0]], keys[w[j]]) {
        assert w[j] in row[1..];
        var i :| 0 <= i < |row[1..]| && row[1..][i] == w[j];
        assert Earlier(keys[row[0]], keys[row[i + 1]]);
      }
    }
  }

  /** A list whose keys did not change is still sorted. */
  lemma SortedElsewhere(row: seq<nat>, keys: seq<Key>, t: nat, key: Key)
    requires Sorted(row, keys) && t < |keys| && t !in row
    ensures Sorted(row, keys[t := key])
  {
    assert forall i :: 0 <= i < |row| ==> row[i] != t;
  }

  // ------------------------------------------------------------------ rows

  /** A row is the part of the row below that is in it, in the same order. */
  ghost function Part(below: seq<nat>, row: seq<nat>): seq<nat> {
    if below == [] then [] else (if below[0] in row then [below[0]] else []) + Part(below[1..], row)
  }

  lemma {:induction false} SortedPart(below: seq<nat>, row: seq<nat>, keys: seq<Key>)
    requires Sorted(below, keys) && Sorted(row, keys) && forall x :: x in row ==> x in below
    ensures Part(below, row) == row
    decreases |below|
  {
    hide Sorted, Part;
    assert forall i :: 0 <= i < |row| ==> row[i] in row;
    assert row == [] || row[0] in below;
    if below == [] {
      PartStep(below, row);
    } else if below[0] in row {
      FirstStays(below, row, keys);
      TailsIn(below, row, keys);
      TailSorted(below, keys);
      TailSorted(row, keys);
      SortedPart(below[1..], row[1..], keys);
      PartCares(below[1..], row, row[1..]);
      PartStep(below, row);
      assert row == [row[0]] + row[1..];
    } else {
      assert forall x :: x in below ==> x == below[0] || x in below[1..];
      TailSorted(below, keys);
      SortedPart(below[1..], row, keys);
      PartStep(below, row);
    }
  }

  lemma PartStep(below: seq<nat>, row: seq<nat>)
    ensures Part(below, row) ==
      if below == [] then [] else (if below[0] in row then [below[0]] else []) + Part(below[1..], row)
  {
  }

  lemma TailSorted(row: seq<nat>, keys: seq<Key>)
    requires Sorted(row, keys) && row != []
    ensures Sorted(row[1..], keys) && row[0] !in row[1..]
  {
    SortedDistinct(row, keys);
  }

  lemma TailsIn(below: seq<nat>, row: seq<nat>, keys: seq<Key>)
    requires Sorted(row, keys) && below != [] && row != [] && row[0] == below[0]
    requires forall x :: x in row ==> x in below
    ensures forall x :: x in row[1..] ==> x in below[1..]
  {
    TailSorted(row, keys);
    assert forall x :: x in below ==> x == below[0] || x in below[1..];
  }

  lemma FirstStays(below: seq<nat>, row: seq<nat>, keys: seq<Key>)
    requires Sorted(below, keys) && Sorted(row, keys) && below != [] && below[0] in row
    requires forall x :: x in row ==> x in below
    ensures row != [] && row[0] == below[0]
  {
    assert row[0] in row;
    HeadEarliest(below, keys, row[0]);
    HeadEarliest(row, keys, below[0]);
  }

  lemma HeadEarliest(row: seq<nat>, keys: seq<Key>, x: nat)
    requires Sorted(row, keys) && x in row
    ensures x < |keys| && row[0] < |keys| && (x == row[0] || Earlier(keys[row[0]], keys[x]))
  {
    var i :| 0 <= i < |row| && row[i] == x;
    assert i > 0 ==> Earlier(keys[row[0]], keys[row[i]]);
  }

  /** Elements that are not in a list do not matter for its part. */
  lemma {:induction false} PartCares(below: seq<nat>, row: seq<nat>, rest: seq<nat>)
    requires row != [] && rest == row[1..] && row[0] !in below
    ensures Part(below, row) == Part(below, rest)
  {
    if below != [] {
      assert below[0] in row <==> below[0] in rest by {
        assert forall x :: x in row <==> x == row[0] || x in rest;
        assert below[0] in below;
      }
      PartCares(below[1..], row, rest);
    }
  }

  /** Every row is sorted, and every timer in a row is in the row below. */
  ghost predicate RowsRight(rows: seq<seq<nat>>, keys: seq<Key>) {
    && (forall r :: 0 <= r < |rows| ==> Sorted(rows[r], keys))
    && (forall r, x {:trigger x in rows[r]} :: 0 <= r < |rows| - 1 && x in rows[r] ==> x in rows[r + 1])
  }

  /** Upper rows are shortcuts: each is the part of the row below that it picks, in the same order. */
  lemma RowsAreParts(rows: seq<seq<nat>>, keys: seq<Key>, r: nat)
    requires RowsRight(rows, keys) && r + 1 < |rows|
    ensures Part(rows[r + 1], rows[r]) == rows[r]
  {
    SortedPart(rows[r + 1], rows[r], keys);
  }

  ghost predicate AllWithout(rows: seq<seq<nat>>, before: seq<seq<nat>>, t: nat) {
    |rows| == |before| && forall r :: 0 <= r < |rows| ==> rows[r] == Without(before[r], t)
  }

  lemma RemovedRight(rows: seq<seq<nat>>, before: seq<seq<nat>>, keys: seq<Key>, t: nat)
    requires RowsRight(before, keys) && AllWithout(rows, before, t)
    ensures RowsRight(rows, keys)
    ensures forall r, x {:trigger x in rows[r]} :: 0 <= r < |rows| ==> (x in rows[r] <==> x in before[r] && x != t)
  {
    forall r | 0 <= r < |rows| ensures Sorted(rows[r], keys)
      ensures forall x :: x in rows[r] <==> x in before[r] && x != t
    {
      WithoutSorted(before[r], keys, t);
    }
  }

  lemma RightElsewhere(rows: seq<seq<nat>>, keys: seq<Key>, t: nat, key: Key)
    requires RowsRight(rows, keys) && t < |keys| && forall r :: 0 <= r < |rows| ==> t !in rows[r]
    ensures RowsRight(rows, keys[t := key])
  {
    forall r | 0 <= r < |rows| ensures Sorted(rows[r], keys[t := key]) {
      SortedElsewhere(rows[r], keys, t, key);
    }
  }

  /** In how many upper rows a timer is entered: the pairs of zero bits at the low end of the counter. */
  function Height(counter: nat, rows: nat): (h: nat)
    ensures h <= rows
    decreases rows
  {
    if rows == 0 || counter % 4 != 0 then 0 else 1 + Height(counter / 4, rows - 1)
  }

  /** The rows from index `from` down have the timer entered, the others are as before. */
  ghost predicate EnteredFrom(rows: seq<seq<nat>>, before: seq<seq<nat>>, keys: seq<Key>, t: nat, from: int) {
    |rows| == |before| && t < |keys|
    && forall r :: 0 <= r < |rows| ==>
         Known(before[r], keys) && rows[r] == if r >= from then Inserted(before[r], keys, t) else before[r]
  }

  /** The timer leaves every row and enters those from `from` on again. */
  lemma EnteredWithout(rows: seq<seq<nat>>, between: seq<seq<nat>>, was: seq<seq<nat>>, keys: seq<Key>,
                       t: nat, from: int)
    requires AllWithout(between, was, t) && EnteredFrom(rows, between, keys, t, from)
    ensures |rows| == |was| && t < |keys|
    ensures forall r :: 0 <= r < |rows| ==>
      Known(Without(was[r], t), keys)
      && rows[r] == if r >= from then Inserted(Without(was[r], t), keys, t) else Without(was[r], t)
  {
    hide Known, Inserted, Without;
    forall r | 0 <= r < |rows|
      ensures Known(Without(was[r], t), keys)
      ensures rows[r] == if r >= from then Inserted(Without(was[r], t), keys, t) else Without(was[r], t)
    {
      assert between[r] == Without(was[r], t);
    }
  }

  /** A timer in none of the rows that was started after all that are. */
  ghost predicate Newest(rows: seq<seq<nat>>, keys: seq<Key>, t: nat) {
    t < |keys| && forall r, x {:trigger x in rows[r]} :: 0 <= r < |rows| && x in rows[r] ==>
      x != t && x < |keys| && keys[x].stamp < keys[t].stamp
  }

  ghost predicate RowsKnown(rows: seq<seq<nat>>, keys: seq<Key>) {
    forall r :: 0 <= r < |rows| ==> Known(rows[r], keys)
  }

  lemma EnteredNone(before: seq<seq<nat>>, keys: seq<Key>, t: nat)
    requires t < |keys| && RowsKnown(before, keys)
    ensures EnteredFrom(before, before, keys, t, |before|)
  {
  }

  lemma EnteredMore(rows: seq<seq<nat>>, before: seq<seq<nat>>, keys: seq<Key>, t: nat, r: nat)
    requires EnteredFrom(rows, before, keys, t, r + 1) && r < |rows|
    ensures rows[r] == before[r] && Known(rows[r], keys)
    ensures EnteredFrom(rows[r := Inserted(rows[r], keys, t)], before, keys, t, r)
  {
    hide Inserted;
  }

  function Pow4(n: nat): nat {
    if n == 0 then 1 else 4 * Pow4(n - 1)
  }

  /** A timer enters as many rows above the bottom one as fours divide the counter, as far as there are rows. */
  lemma {:induction false} HeightIs(counter: nat, rows: nat) returns (q: nat)
    ensures var h := Height(counter, rows); counter == Pow4(h) * q && (h < rows ==> q % 4 != 0)
    decreases rows
  {
    if rows == 0 || counter % 4 != 0 {
      q := counter;
    } else {
      q := HeightIs(counter / 4, rows - 1);
      var h := Height(counter / 4, rows - 1);
      assert counter == 4 * (counter / 4);
      assert Pow4(h + 1) * q == 4 * (Pow4(h) * q);
    }
  }

  lemma HeightStep(counter: nat, rows: nat)
    ensures rows > 0 && counter % 4 == 0 ==> Height(counter, rows) == 1 + Height(counter / 4, rows - 1)
    ensures rows == 0 || counter % 4 != 0 ==> Height(counter, rows) == 0
  {
  }

  lemma EnteredRight(rows: seq<seq<nat>>, before: seq<seq<nat>>, keys: seq<Key>, t: nat, from: int)
    requires RowsRight(before, keys) && EnteredFrom(rows, before, keys, t, from) && Newest(before, keys, t)
    ensures RowsRight(rows, keys)
    ensures rows != [] && from < |rows| ==> AddedTo(rows, before, t)
  {
    hide Sorted, Inserted;
    forall r | 0 <= r < |rows| ensures Sorted(rows[r], keys)
      ensures forall x :: x in rows[r] <==> x in before[r] || (x == t && r >= from)
    {
      assert Sorted(before[r], keys);
      assert forall i :: 0 <= i < |before[r]| ==> before[r][i] in before[r];
      InsertedSorted(before[r], keys, t);
      InsertedMembers(before[r], keys, t);
    }
    if rows != [] && from < |rows| {
      var last, was := rows[|rows| - 1], before[|rows| - 1];
      assert forall x :: x in last <==> x in was || x == t;
    }
  }

  // ------------------------------------------------------------------ the timers

  /** A timer: its expiry tick, its period, and its flags. */
  datatype Timer = Timer(timeout: nat, init: nat, periodic: bool, active: bool)

  /** The bottom row has all active timers, the others have no other ones. */
  ghost predicate Listed(rows: seq<seq<nat>>, timers: seq<Timer>) {
    && rows != []
    && (forall r, x {:trigger x in rows[r]} :: 0 <= r < |rows| && x in rows[r] ==> x < |timers| && timers[x].active)
    && (forall t :: 0 <= t < |timers| && timers[t].active ==> t in rows[|rows| - 1])
  }

  ghost predicate AddedTo(rows: seq<seq<nat>>, before: seq<seq<nat>>, t: nat) {
    && |rows| == |before| > 0 && t in rows[|rows| - 1]
    && (forall r, x {:trigger x in rows[r]} :: 0 <= r < |rows| && x in rows[r] ==> x in before[r] || x == t)
    && Within(before[|rows| - 1], rows[|rows| - 1])
  }

  ghost predicate Within(a: seq<nat>, b: seq<nat>) {
    forall x :: x in a ==> x in b
  }

  lemma ListedMore(rows: seq<seq<nat>>, before: seq<seq<nat>>, timers: seq<Timer>, t: nat)
    requires Listed(before, timers) && AddedTo(rows, before, t) && t < |timers|
    ensures Listed(rows, timers[t := timers[t].(active := true)])
  {
  }

  function IndexOf(s: seq<nat>, x: nat): (i: nat)
    requires x in s
    ensures i < |s| && s[i] == x
  {
    if s[0] == x then 0 else 1 + IndexOf(s[1..], x)
  }

  class Timers {
    /** RT_TIMER_SKIP_LIST_LEVEL. */
    const levels: nat
    var timers: seq<Timer>
    var rows: seq<seq<nat>>
    var tick: nat
    var counter: nat
    /** The unbounded clock, its value at the last check, and what the list would be ordered by. */
    ghost var clock: nat
    ghost var checkedAt: nat
    ghost var keys: seq<Key>
    ghost var stamps: nat

    ghost predicate Valid()
      reads this
    {
      && Sized() && RowsRight(rows, keys) && Listed(rows, timers)
      && checkedAt <= clock <= checkedAt + 1
      && (forall t :: 0 <= t < |timers| && timers[t].active ==> InTime(t))
    }

    ghost predicate Sized()
      reads this
    {
      && levels > 0 && |rows| == levels && |keys| == |timers|
      && tick == clock % WORD && counter < WORD
      && (forall t :: 0 <= t < |timers| ==> timers[t].init < HALF)
    }

    ghost predicate InTime(t: nat)
      requires t < |timers| && |keys| == |timers|
      reads `timers, `keys, `stamps, `clock, `checkedAt
    {
      && timers[t].timeout == keys[t].due % WORD && keys[t].stamp < stamps
      && checkedAt <= keys[t].due < clock + HALF
    }

    /** The rows without any timers at boot. */
    constructor (n: nat, initial: seq<Timer>)
      requires n > 0 && forall t :: 0 <= t < |initial| ==> !initial[t].active && initial[t].init < HALF
      ensures Valid() && levels == n && timers == initial && clock == 0 && tick == 0 && checkedAt == 0
      ensures rows[levels - 1] == []
    {
      levels := n;
      timers := initial;
      rows := seq(n, r => []);
      tick := 0;
      counter := 0;
      clock := 0;
      checkedAt := 0;
      keys := seq(|initial|, t => Key(0, 0));
      stamps := 0;
    }

    /** `_timer_remove`. */
    method RemoveFromRows(t: nat)
      requires |rows| == levels
      modifies `rows
      ensures AllWithout(rows, old(rows), t)
    {
      var i := 0;
      while i < levels
        invariant 0 <= i <= levels && |rows| == levels
        invariant forall r :: 0 <= r < levels ==> rows[r] == if r < i then Without(old(rows)[r], t) else old(rows)[r]
      {
        rows := rows[i := Without(rows[i], t)];
        i := i + 1;
      }
    }

    /** The search of `rt_timer_start`: in each row the same place as a linear scan of that row. */
    method Search(t: nat) returns (heads: seq<nat>)
      requires levels > 0 && |rows| == levels && |keys| == |timers| && t < |timers| && RowsRight(rows, keys)
      requires timers[t].timeout == keys[t].due % WORD
      requires forall r, x {:trigger x in rows[r]} :: 0 <= r < levels && x in rows[r] ==> Comparable(x, t)
      ensures |heads| == levels && RowsKnown(rows, keys)
      ensures forall r :: 0 <= r < levels ==> heads[r] == Upto(rows[r], keys, keys[t].due)
    {
      heads := [];
      var r, p: nat := 0, 0;
      while r < levels
        invariant r == |heads| <= levels
        invariant forall q :: 0 <= q < r ==> heads[q] == Upto(rows[q], keys, keys[t].due)
        invariant r < levels ==> Sorted(rows[r], keys) && NoneLater(rows[r], keys, p, keys[t].due)
        decreases levels - r
      {
        p := Scan(t, r, p);
        heads := heads + [p];
        if r + 1 < levels {
          p := Descend(t, r, p);
        }
        r := r + 1;
      }
    }

    /** One row of the search, from where the row above has led. */
    method Scan(t: nat, r: nat, from: nat) returns (p: nat)
      requires |rows| == levels && |keys| == |timers| && t < |timers| && r < levels && Sorted(rows[r], keys)
      requires timers[t].timeout == keys[t].due % WORD
      requires forall x :: x in rows[r] ==> Comparable(x, t)
      requires NoneLater(rows[r], keys, from, keys[t].due)
      ensures p == Upto(rows[r], keys, keys[t].due)
    {
      p := from;
      while p < |rows[r]|
        invariant NoneLater(rows[r], keys, p, keys[t].due)
      {
        var x := rows[r][p];
        assert Comparable(x, t);
        StopsRight(keys[x].due, keys[t].due);
        if StopsBefore(timers[x].timeout, timers[t].timeout) {
          break;
        }
        p := p + 1;
      }
      UptoIs(rows[r], keys, keys[t].due, p);
    }

    /** From the last timer passed in a row to the place of the same timer in the row below. */
    method Descend(t: nat, r: nat, p: nat) returns (q: nat)
      requires |rows| == levels && t < |keys| && r + 1 < levels && RowsRight(rows, keys)
      requires p == Upto(rows[r], keys, keys[t].due)
      ensures Sorted(rows[r + 1], keys) && NoneLater(rows[r + 1], keys, q, keys[t].due)
    {
      if p == 0 {
        q := 0;
      } else {
        var x := rows[r][p - 1];
        assert x in rows[r];
        ghost var below := rows[r + 1];
        q := IndexOf(rows[r + 1], x) + 1;
        assert Sorted(below, keys);
        assert keys[x].due <= keys[t].due;
        forall i | 0 <= i < q ensures keys[below[i]].due <= keys[t].due {
          assert i < q - 1 ==> Earlier(keys[below[i]], keys[below[q - 1]]);
        }
      }
    }

    ghost predicate Comparable(x: nat, t: nat)
      requires t < |keys| && |keys| == |timers|
      reads `timers, `keys
    {
      x < |timers| && timers[x].timeout == keys[x].due % WORD && -HALF - 2 <= keys[x].due - keys[t].due < HALF
    }

    /** The insertion of `rt_timer_start`: always into the bottom row, and into as many of the rows
        above as the counter says. */
    method Enter(t: nat, heads: seq<nat>)
      requires levels > 0 && |rows| == levels && counter < WORD && t < |keys|
      requires RowsKnown(rows, keys)
      requires |heads| == levels && forall r :: 0 <= r < levels ==> heads[r] == Upto(rows[r], keys, keys[t].due)
      modifies `rows, `counter
      ensures counter == (old(counter) + 1) % WORD && |rows| == levels
      ensures EnteredFrom(rows, old(rows), keys, t, levels - 1 - Height(counter, levels - 1))
    {
      hide Upto, Known, Height, EnteredFrom;
      counter := (counter + 1) % WORD;
      ghost var before := rows;
      EnteredNone(rows, keys, t);
      EnterRow(t, levels - 1, heads[levels - 1], before);
      EnterAbove(t, heads, before);
    }

    /** The rows above the bottom one, as many as the counter says. */
    method EnterAbove(t: nat, heads: seq<nat>, ghost before: seq<seq<nat>>)
      requires levels > 0 && |rows| == levels && |before| == levels && t < |keys| && RowsKnown(before, keys)
      requires |heads| == levels && forall r :: 0 <= r < levels ==> heads[r] == Upto(before[r], keys, keys[t].due)
      requires EnteredFrom(rows, before, keys, t, levels - 1)
      modifies `rows
      ensures |rows| == levels
      ensures EnteredFrom(rows, before, keys, t, levels - 1 - Height(counter, levels - 1))
    {
      hide Upto, Known, Height, EnteredFrom;
      var tst, r := counter, levels - 1;
      ghost var last := levels - 1 - Height(counter, levels - 1);
      while r > 0 && tst % 4 == 0
        invariant 0 <= r < levels
        invariant |rows| == levels && EnteredFrom(rows, before, keys, t, r)
        invariant last == r - Height(tst, r)
        decreases r
      {
        HeightStep(tst, r);
        r := r - 1;
        EnterRow(t, r, heads[r], before);
        tst := tst / 4;
      }
      HeightStep(tst, r);
    }

    /** `rt_list_insert_after` in the row above those the timer is in already. */
    method EnterRow(t: nat, r: nat, head: nat, ghost before: seq<seq<nat>>)
      requires r < |rows| && EnteredFrom(rows, before, keys, t, r + 1)
      requires Known(before[r], keys) && head == Upto(before[r], keys, keys[t].due)
      modifies `rows
      ensures |rows| == |old(rows)| && EnteredFrom(rows, before, keys, t, r)
    {
      EnteredMore(rows, before, keys, t, r);
      rows := rows[r := rows[r][..head] + [t] + rows[r][head..]];
    }

    /** `rt_timer_start`: the timer leaves the list and enters it again behind all that expire no later
        on the unbounded clock. */
    method Start(t: nat)
      requires Valid() && t < |timers|
      modifies `timers, `rows, `counter, `keys, `stamps
      ensures Valid() && |rows| == |old(rows)|
      ensures keys == old(keys)[t := Key(clock + old(timers)[t].init, old(stamps))] && stamps == old(stamps) + 1
      ensures timers ==
        old(timers)[t := old(timers)[t].(timeout := (clock + old(timers)[t].init) % WORD, active := true)]
      ensures counter == (old(counter) + 1) % WORD
      ensures forall r :: 0 <= r < levels ==>
        Known(Without(old(rows)[r], t), keys)
        && rows[r] == if r >= levels - 1 - Height(counter, levels - 1)
                      then Inserted(Without(old(rows)[r], t), keys, t) else Without(old(rows)[r], t)
    {
      hide RowsRight, Inserted, Known, Height, Without, InTime, Ready, Listed, AllWithout, EnteredFrom;
      ghost var was := rows;
      Withdraw(t);
      ghost var between := rows;
      Rekey(t);
      var heads := Place(t);
      EnteredWithout(rows, between, was, keys, t, levels - 1 - Height(counter, levels - 1));
    }

    /** The new expiry, on the wrapping and on the unbounded clock. */
    method Rekey(t: nat)
      requires Valid() && t < |timers| && !timers[t].active
      modifies `timers, `keys, `stamps
      ensures Valid() && t < |timers| && Ready(t)
      ensures timers == old(timers)[t := old(timers)[t].(timeout := (clock + old(timers)[t].init) % WORD)]
      ensures keys == old(keys)[t := Key(clock + timers[t].init, old(stamps))] && stamps == old(stamps) + 1
    {
      TickSum(clock, timers[t].init);
      RightElsewhere(rows, keys, t, Key(clock + timers[t].init, stamps));
      hide RowsRight;
      timers := timers[t := timers[t].(timeout := (tick + timers[t].init) % WORD)];
      keys := keys[t := Key(clock + timers[t].init, stamps)];
      stamps := stamps + 1;
    }

    /** A timer with a new expiry that is about to enter the list. */
    ghost predicate Ready(t: nat)
      requires |keys| == |timers| && t < |timers|
      reads `timers, `keys, `stamps, `clock, `checkedAt
    {
      && !timers[t].active && InTime(t) && clock <= keys[t].due
      && forall x :: 0 <= x < |timers| && timers[x].active ==> keys[x].stamp < keys[t].stamp
    }

    /** Search and insertion. */
    method Place(t: nat) returns (heads: seq<nat>)
      requires Valid() && t < |timers| && Ready(t)
      modifies `timers, `rows, `counter
      ensures Valid() && timers == old(timers)[t := old(timers)[t].(active := true)]
      ensures counter == (old(counter) + 1) % WORD
      ensures EnteredFrom(rows, old(rows), keys, t, levels - 1 - Height(counter, levels - 1))
    {
      heads := Search(t);
      assert Newest(rows, keys, t);
      hide RowsRight, EnteredFrom, Newest, AddedTo, Listed;
      EnterSorted(t, heads);
      ListedMore(rows, old(rows), timers, t);
      timers := timers[t := timers[t].(active := true)];
    }

    /** Insertion keeps all rows right. */
    method EnterSorted(t: nat, heads: seq<nat>)
      requires levels > 0 && |rows| == levels && counter < WORD && RowsRight(rows, keys) && Newest(rows, keys, t)
      requires |heads| == levels && RowsKnown(rows, keys)
      requires forall r :: 0 <= r < levels ==> heads[r] == Upto(rows[r], keys, keys[t].due)
      modifies `rows, `counter
      ensures counter == (old(counter) + 1) % WORD && |rows| == levels && RowsRight(rows, keys)
      ensures EnteredFrom(rows, old(rows), keys, t, levels - 1 - Height(counter, levels - 1))
      ensures AddedTo(rows, old(rows), t)
    {
      hide RowsRight, EnteredFrom, AddedTo;
      ghost var before := rows;
      Enter(t, heads);
      EnteredRight(rows, before, keys, t, levels - 1 - Height(counter, levels - 1));
    }

    /** Out of all rows and no longer active. */
    method Withdraw(t: nat)
      requires Valid() && t < |timers|
      modifies `timers, `rows
      ensures Valid() && AllWithout(rows, old(rows), t)
      ensures timers == old(timers)[t := old(timers)[t].(active := false)]
      ensures forall r, x {:trigger x in rows[r]} :: 0 <= r < levels && x in rows[r] ==> x != t
    {
      ghost var before := rows;
      RemoveFromRows(t);
      RemovedRight(rows, before, keys, t);
      hide RowsRight;
      timers := timers[t := timers[t].(active := false)];
    }

    /** `rt_timer_stop`. */
    method Stop(t: nat) returns (ok: bool)
      requires Valid() && t < |timers|
      modifies `timers, `rows
      ensures Valid() && ok == old(timers)[t].active
      ensures !ok ==> timers == old(timers) && rows == old(rows)
      ensures ok ==> AllWithout(rows, old(rows), t) && timers == old(timers)[t := old(timers)[t].(active := false)]
    {
      ok := timers[t].active;
      if ok {
        Withdraw(t);
      }
    }

    /** `rt_timer_control`: the period and its mode; a running timer keeps its expiry. */
    method SetTime(t: nat, init: nat, periodic: bool)
      requires Valid() && t < |timers| && init < HALF
      modifies `timers
      ensures Valid() && timers == old(timers)[t := old(timers)[t].(init := init, periodic := periodic)]
    {
      hide RowsRight;
      timers := timers[t := timers[t].(init := init, periodic := periodic)];
    }

    /** The timers in the order in which they will expire. */
    ghost function Order(): seq<nat>
      requires levels > 0 && |rows| == levels
      reads `rows
    {
      rows[levels - 1]
    }

    /** The clock interrupt: one more tick, the last one having been checked. */
    method Tick()
      requires Valid() && checkedAt == clock
      modifies `tick, `clock
      ensures Valid() && clock == old(clock) + 1
    {
      TickSum(clock, 1);
      hide RowsRight, Listed;
      tick := (tick + 1) % WORD;
      clock := clock + 1;
    }

    /** An active timer that no other precedes. */
    ghost predicate NextDue(t: nat)
      requires |keys| == |timers|
      reads `timers, `keys
    {
      && t < |timers| && timers[t].active
      && forall x :: 0 <= x < |timers| && timers[x].active ==> keys[t].due <= keys[x].due
    }

    /** `_timer_list_next_timeout`. */
    method NextTimeout() returns (found: bool, timeout: nat)
      requires Valid()
      ensures found <==> exists t :: 0 <= t < |timers| && timers[t].active
      ensures found ==> exists t: nat :: NextDue(t) && timeout == keys[t].due % WORD
    {
      found, timeout := rows[levels - 1] != [], 0;
      if found {
        var t := rows[levels - 1][0];
        assert t in rows[levels - 1];
        timeout := timers[t].timeout;
        forall x | 0 <= x < |timers| && timers[x].active ensures keys[t].due <= keys[x].due {
          HeadEarliest(rows[levels - 1], keys, x);
        }
        assert NextDue(t);
      }
    }

    /** What the loop of `rt_timer_check` goes by. */
    ghost function Now(): Scene
      requires levels > 0 && |rows| == levels
      reads this
    {
      Scene(timers, keys, Order(), stamps)
    }

    lemma NowRight()
      requires Valid()
      ensures Right(Now())
    {
      forall x | x in Order()
        ensures x < |timers| && timers[x].active && keys[x].stamp < stamps
      {
        assert x in rows[levels - 1];
      }
    }

    /** One turn of the loop of `rt_timer_check`: on the wrapping tick the head of the list fires exactly
        if it is due on the unbounded clock. */
    method FireHead() returns (t: nat, fired: bool)
      requires Valid() && Order() != []
      modifies `timers, `rows, `counter, `keys, `stamps
      ensures Valid() && |timers| == |old(timers)| && t == old(Order())[0]
      ensures Right(old(Now())) && fired == HeadIsDue(old(Now()), clock)
      ensures !fired ==> Now() == old(Now())
      ensures fired ==> Now() == Turn(old(Now()), clock)
    {
      hide RowsRight, Listed, Sorted, InTime, Right, Inserted, Turn;
      NowRight();
      ghost var scene := Now();
      t, fired := FireOne();
      if fired {
        IsTurn(scene, Now(), clock);
      }
    }

    /** The same, field by field. */
    method FireOne() returns (t: nat, fired: bool)
      requires Valid() && Order() != []
      modifies `timers, `rows, `counter, `keys, `stamps
      ensures Valid() && t == old(Order())[0] && t < |old(timers)| && |timers| == |old(timers)| == |old(keys)|
      ensures fired <==> old(keys)[t].due <= clock
      ensures !fired ==> timers == old(timers) && rows == old(rows) && keys == old(keys) && stamps == old(stamps)
      ensures fired && !old(timers)[t].periodic ==>
        && keys == old(keys) && timers == old(timers)[t := old(timers)[t].(active := false)]
        && Order() == old(Order())[1..] && stamps == old(stamps)
      ensures fired && old(timers)[t].periodic ==>
        && keys == old(keys)[t := Key(clock + old(timers)[t].init, old(stamps))] && stamps == old(stamps) + 1
        && timers == old(timers)[t := old(timers)[t].(timeout := (clock + old(timers)[t].init) % WORD, active := true)]
        && Known(old(Order())[1..], keys) && Order() == Inserted(old(Order())[1..], keys, t)
    {
      t := rows[levels - 1][0];
      assert t in rows[levels - 1];
      FireWindow(t);
      hide RowsRight, Listed, Sorted, InTime;
      fired := AtOrAfter(tick, timers[t].timeout);
      if fired {
        WithdrawHead(t);
        if timers[t].periodic {
          Restart(t);
        }
      }
    }

    /** `_timer_remove` of the first timer. */
    method WithdrawHead(t: nat)
      requires Valid() && t < |timers| && Order() != [] && t == Order()[0]
      modifies `timers, `rows
      ensures Valid() && timers == old(timers)[t := old(timers)[t].(active := false)] && Order() == old(Order())[1..]
    {
      Withdraw(t);
    }

    /** `rt_timer_start` of a timer that is not in the list. */
    method Restart(t: nat)
      requires Valid() && t < |timers| && !timers[t].active
      modifies `timers, `rows, `counter, `keys, `stamps
      ensures Valid() && keys == old(keys)[t := Key(clock + old(timers)[t].init, old(stamps))]
      ensures stamps == old(stamps) + 1
      ensures timers ==
        old(timers)[t := old(timers)[t].(timeout := (clock + old(timers)[t].init) % WORD, active := true)]
      ensures Known(old(Order()), keys) && Order() == Inserted(old(Order()), keys, t)
    {
      assert t !in rows[levels - 1];
      WithoutAbsent(rows[levels - 1], t);
      hide RowsRight, Listed;
      Start(t);
    }

    lemma FireWindow(t: nat)
      requires Valid() && t < |timers| && timers[t].active
      ensures AtOrAfter(tick, timers[t].timeout) <==> keys[t].due <= clock
    {
      WindowIsExact(clock, keys[t].due);
    }

    /** The loop of `rt_timer_check`, watched for at most so many turns: it is the specified one, turn by
        turn. If no due timer is stuck and all due ones have had their turn, it is over, has fired exactly
        those in their order, and the one-shot ones among them are stopped and the periodic ones started
        again. */
    method Check(turns: nat) returns (fired: seq<nat>, over: bool)
      requires Valid()
      modifies `timers, `rows, `counter, `keys, `stamps, `checkedAt
      ensures Valid() && |timers| == |old(timers)| && |fired| <= turns && (!over ==> |fired| == turns)
      ensures Now() == Turns(old(Now()), clock, turns) && fired == Fires(old(Now()), clock, turns)
      ensures over <==> Over(Now(), clock)
      ensures over ==> checkedAt == clock && forall t :: 0 <= t < |timers| && timers[t].active ==> keys[t].due > clock
      ensures Known(old(Order()), old(keys))
      ensures NoneStuck(old(Now()), clock) && Upto(old(Order()), old(keys), clock) <= turns ==>
        && over && fired == old(Order())[..Upto(old(Order()), old(keys), clock)]
        && Afterwards(timers, keys, old(timers), old(keys), clock, fired)
    {
      NowRight();
      ghost var scene := Now();
      OrderKnown(scene);
      hide RowsRight, Listed, Sorted, InTime, Right, Upto, Turns, Fires, Turn, NoneStuck, Over, Afterwards;
      fired := Loop(turns);
      over := AtRest();
      if over {
        TurnsOver(scene, clock, |fired|, turns);
        Finish();
      }
      if NoneStuck(scene, clock) && Upto(scene.order, scene.keys, clock) <= turns {
        CalmEnds(scene, clock, turns);
      }
    }

    /** The loop itself. */
    method Loop(turns: nat) returns (fired: seq<nat>)
      requires Valid()
      modifies `timers, `rows, `counter, `keys, `stamps
      ensures Valid() && |timers| == |old(timers)| && |fired| <= turns
      ensures Now() == Turns(old(Now()), clock, |fired|) && fired == Fires(old(Now()), clock, |fired|)
      ensures |fired| == turns || Over(Now(), clock)
    {
      NowRight();
      ghost var scene := Now();
      hide RowsRight, Listed, Sorted, InTime, Right, Turns, Fires, Turn, HeadIsDue;
      TurnsNone(scene, clock);
      fired := [];
      assert Follows(scene, clock, fired, Now());
      hide Follows;
      while rows[levels - 1] != [] && |fired| < turns
        invariant Valid() && |fired| <= turns && |timers| == |scene.timers|
        invariant Follows(scene, clock, fired, Now())
        decreases turns - |fired|
      {
        NowRight();
        FollowsMore(scene, clock, fired, Now());
        var t, go := FireHead();
        if !go {
          break;
        }
        fired := fired + [t];
      }
      assert Now() == Turns(scene, clock, |fired|) && fired == Fires(scene, clock, |fired|) by {
        FollowsIs(scene, clock, fired, Now());
      }
      NowRight();
      if rows[levels - 1] == [] { EmptyOver(Now(), clock); }
    }

    /** The list is empty, or its head is not due. */
    method AtRest() returns (over: bool)
      requires Valid()
      ensures over <==> Over(Now(), clock)
    {
      NowRight();
      over := true;
      if rows[levels - 1] != [] {
        var t := rows[levels - 1][0];
        assert t in rows[levels - 1];
        FireWindow(t);
        over := !AtOrAfter(tick, timers[t].timeout);
      }
    }

    /** When the head is not due, none is. */
    ghost method Finish()
      requires Valid() && Over(Now(), clock)
      modifies `checkedAt
      ensures Valid() && checkedAt == clock
      ensures forall t :: 0 <= t < |timers| && timers[t].active ==> keys[t].due > clock
    {
      forall t | 0 <= t < |timers| && timers[t].active ensures keys[t].due > clock {
        HeadEarliest(Order(), keys, t);
      }
      checkedAt := clock;
    }
  }

  ghost predicate Afterwards(timers: seq<Timer>, keys: seq<Key>, was: seq<Timer>, stamped: seq<Key>, clock: nat,
                             fired: seq<nat>) {
    && |timers| == |keys| == |was| == |stamped|
    && forall t :: 0 <= t < |timers| ==> AfterTimer(timers[t], keys[t], was[t], stamped[t], clock, t in fired)
  }

  ghost predicate AfterTimer(timer: Timer, key: Key, was: Timer, stamped: Key, clock: nat, fired: bool) {
    if !fired then timer == was && key == stamped
    else if !was.periodic then was.active && timer == was.(active := false) && key == stamped
    else was.active && key.due == clock + was.init && timer == was.(timeout := (clock + was.init) % WORD)
  }

  /** One more timer has fired. */
  lemma AfterOne(timersBefore: seq<Timer>, keysBefore: seq<Key>, timers: seq<Timer>, keys: seq<Key>,
                 was: seq<Timer>, stamped: seq<Key>, clock: nat, fired: seq<nat>, t: nat, stamp: nat)
    requires Afterwards(timersBefore, keysBefore, was, stamped, clock, fired) && t !in fired
    requires t < |timersBefore| && timersBefore[t].active
    requires !timersBefore[t].periodic ==>
      keys == keysBefore && timers == timersBefore[t := timersBefore[t].(active := false)]
    requires timersBefore[t].periodic ==> keys == keysBefore[t := Key(clock + timersBefore[t].init, stamp)]
    requires timersBefore[t].periodic ==>
      timers == timersBefore[t := timersBefore[t].(timeout := (clock + timersBefore[t].init) % WORD, active := true)]
    ensures Afterwards(timers, keys, was, stamped, clock, fired + [t])
  {
    assert forall x :: x in fired + [t] <==> x in fired || x == t;
    assert AfterTimer(timersBefore[t], keysBefore[t], was[t], stamped[t], clock, false);
  }

  /** The list begins with the timers in `due`, and these are all that are due. */
  ghost predicate DueFirst(order: seq<nat>, keys: seq<Key>, clock: nat, due: seq<nat>) {
    && Known(order, keys) && |due| <= |order| && order[..|due|] == due
    && (forall i :: 0 <= i < |due| ==> keys[order[i]].due <= clock)
    && (forall i :: |due| <= i < |order| ==> keys[order[i]].due > clock)
  }

  lemma DueAtFirst(order: seq<nat>, keys: seq<Key>, clock: nat)
    requires Sorted(order, keys)
    ensures DueFirst(order, keys, clock, order[..Upto(order, keys, clock)])
  {
    var n := Upto(order, keys, clock);
    forall i | n <= i < |order| ensures keys[order[i]].due > clock {
      assert n < i ==> Earlier(keys[order[n]], keys[order[i]]);
    }
  }

  lemma HeadDue(order: seq<nat>, keys: seq<Key>, clock: nat, due: seq<nat>)
    requires DueFirst(order, keys, clock, due) && order != []
    ensures order[0] < |keys| && (keys[order[0]].due <= clock <==> due != [])
    ensures due != [] ==> due[0] == order[0]
  {
    assert due != [] ==> order[..|due|][0] == order[0];
  }

  /** One timer fired: the next ones due come first, wherever it went. */
  lemma DueNext(before: seq<nat>, keysBefore: seq<Key>, order: seq<nat>, keys: seq<Key>, clock: nat, due: seq<nat>,
                t: nat)
    requires DueFirst(before, keysBefore, clock, due) && due != [] && due[0] == t == before[0] && Distinct(before)
    requires |keys| == |keysBefore| && forall x :: 0 <= x < |keys| && x != t ==> keys[x] == keysBefore[x]
    requires Known(before[1..], keys)
    requires order == before[1..] || (t < |keys| && keys[t].due > clock && order == Inserted(before[1..], keys, t))
    ensures DueFirst(order, keys, clock, due[1..])
  {
    DueTail(before, keysBefore, keys, clock, due, t);
    if order != before[1..] {
      hide DueFirst, Inserted;
      DueInserted(before[1..], keys, clock, due[1..], t);
    }
  }

  lemma DueTail(before: seq<nat>, keysBefore: seq<Key>, keys: seq<Key>, clock: nat, due: seq<nat>, t: nat)
    requires DueFirst(before, keysBefore, clock, due) && due != [] && due[0] == t == before[0] && Distinct(before)
    requires |keys| == |keysBefore| && forall x :: 0 <= x < |keys| && x != t ==> keys[x] == keysBefore[x]
    requires Known(before[1..], keys)
    ensures DueFirst(before[1..], keys, clock, due[1..])
  {
    var rest := before[1..];
    assert forall i :: 0 <= i < |rest| ==> rest[i] == before[i + 1] && rest[i] != before[0];
    assert rest[..|due| - 1] == due[1..];
  }

  lemma DueInserted(rest: seq<nat>, keys: seq<Key>, clock: nat, due: seq<nat>, t: nat)
    requires DueFirst(rest, keys, clock, due) && t < |keys| && keys[t].due > clock
    ensures DueFirst(Inserted(rest, keys, t), keys, clock, due)
  {
    var p, order := Upto(rest, keys, keys[t].due), Inserted(rest, keys, t);
    assert p >= |due|;
    InsertedAt(rest, keys, t);
    hide Inserted, Upto;
    assert order[..|due|] == rest[..|due|];
  }

  lemma NotYet(order: seq<nat>, k: nat)
    requires k < |order| && Distinct(order)
    ensures order[k] !in order[..k]
    ensures order[..k + 1] == order[..k] + [order[k]]
  {
  }

  // ------------------------------------------------------------------ the loop of a check

  /** The timers, their expiries, their order, and the stamp of the next one started. */
  datatype Scene = Scene(timers: seq<Timer>, keys: seq<Key>, order: seq<nat>, stamps: nat)

  /** The list is in order and holds active timers, all started before now. */
  ghost predicate Right(s: Scene) {
    && |s.timers| == |s.keys| && Sorted(s.order, s.keys)
    && forall x :: x in s.order ==> x < |s.timers| && s.timers[x].active && s.keys[x].stamp < s.stamps
  }

  ghost predicate HeadIsDue(s: Scene, clock: nat)
    requires Right(s)
  {
    s.order != [] && s.keys[s.order[0]].due <= clock
  }

  /** The head fires: it is stopped, or started again. */
  ghost function Turn(s: Scene, clock: nat): Scene
    requires Right(s) && HeadIsDue(s, clock)
  {
    var t, rest := s.order[0], s.order[1..];
    assert t in s.order;
    var timer := s.timers[t];
    if !timer.periodic then s.(timers := s.timers[t := timer.(active := false)], order := rest)
    else
      var keys := s.keys[t := Key(clock + timer.init, s.stamps)];
      assert Known(rest, keys);
      Scene(s.timers[t := timer.(timeout := (clock + timer.init) % WORD, active := true)], keys,
            Inserted(rest, keys, t), s.stamps + 1)
  }

  lemma TurnRight(s: Scene, clock: nat)
    requires Right(s) && HeadIsDue(s, clock)
    ensures Right(Turn(s, clock))
  {
    var t, rest := s.order[0], s.order[1..];
    var r := Turn(s, clock);
    TailSorted(s.order, s.keys);
    assert t in s.order;
    assert forall x :: x in rest ==> x in s.order && x != t;
    if s.timers[t].periodic {
      SortedElsewhere(rest, s.keys, t, r.keys[t]);
      InsertedSorted(rest, r.keys, t);
      hide Inserted, Sorted;
    }
  }

  /** `n` turns of the loop, fewer if the head is not due any more. */
  ghost function Turns(s: Scene, clock: nat, n: nat): Scene
    decreases n
  {
    if n == 0 || !Right(s) || !HeadIsDue(s, clock) then s else Turns(Turn(s, clock), clock, n - 1)
  }

  /** The timers that fire in them. */
  ghost function Fires(s: Scene, clock: nat, n: nat): seq<nat>
    decreases n
  {
    if n == 0 || !Right(s) || !HeadIsDue(s, clock) then [] else [s.order[0]] + Fires(Turn(s, clock), clock, n - 1)
  }

  lemma OrderKnown(s: Scene)
    requires Right(s)
    ensures Known(s.order, s.keys)
  {
  }

  lemma EmptyOver(s: Scene, clock: nat)
    requires Right(s) && s.order == []
    ensures Over(s, clock)
  {
  }

  lemma TurnsNone(s: Scene, clock: nat)
    ensures Turns(s, clock, 0) == s && Fires(s, clock, 0) == []
  {
  }

  /** One more turn. */
  lemma {:induction false} TurnsMore(s: Scene, clock: nat, n: nat)
    requires Right(s) && Right(Turns(s, clock, n))
    ensures var r := Turns(s, clock, n);
            if HeadIsDue(r, clock) then
              && Turns(s, clock, n + 1) == Turn(r, clock) && r.order != []
              && Fires(s, clock, n + 1) == Fires(s, clock, n) + [r.order[0]]
            else Turns(s, clock, n + 1) == r && Fires(s, clock, n + 1) == Fires(s, clock, n)
    decreases n
  {
    hide Right, Turn;
    if HeadIsDue(s, clock) {
      HeadThere(s, clock);
      if n == 0 {
        TurnsNone(Turn(s, clock), clock);
      } else {
        TurnRight(s, clock);
        hide HeadIsDue;
        TurnsMore(Turn(s, clock), clock, n - 1);
      }
    }
  }

  /** What the loop has done so far: the turns taken and the timers fired in them. */
  ghost predicate Follows(s: Scene, clock: nat, fired: seq<nat>, now: Scene) {
    now == Turns(s, clock, |fired|) && fired == Fires(s, clock, |fired|)
  }

  lemma FollowsIs(s: Scene, clock: nat, fired: seq<nat>, now: Scene)
    requires Follows(s, clock, fired, now)
    ensures now == Turns(s, clock, |fired|) && fired == Fires(s, clock, |fired|)
  {
  }

  lemma FollowsMore(s: Scene, clock: nat, fired: seq<nat>, now: Scene)
    requires Right(s) && Right(now) && Follows(s, clock, fired, now)
    ensures HeadIsDue(now, clock) ==>
      now.order != [] && Follows(s, clock, fired + [now.order[0]], Turn(now, clock))
  {
    hide Right, Turn, Turns, Fires, HeadIsDue;
    TurnsMore(s, clock, |fired|);
  }

  lemma HeadThere(s: Scene, clock: nat)
    requires Right(s) && HeadIsDue(s, clock)
    ensures s.order != []
  {
  }

  /** When the loop is over nothing more happens. */
  lemma {:induction false} TurnsOver(s: Scene, clock: nat, n: nat, m: nat)
    requires Right(s) && Over(Turns(s, clock, n), clock) && n <= m
    ensures Turns(s, clock, m) == Turns(s, clock, n) && Fires(s, clock, m) == Fires(s, clock, n)
    decreases m
  {
    hide Right, Turn, Turns, Fires, HeadIsDue;
    if n < m {
      TurnsOver(s, clock, n, m - 1);
      TurnsMore(s, clock, m - 1);
    }
  }

  /** What the scene is after `k` turns without a stuck timer. */
  ghost predicate CalmAt(s: Scene, clock: nat, k: nat, r: Scene)
    requires Known(s.order, s.keys)
  {
    var n := Upto(s.order, s.keys, clock);
    && k <= n && Right(r) && NoneStuck(r, clock) && DueFirst(r.order, r.keys, clock, s.order[k..n])
    && Afterwards(r.timers, r.keys, s.timers, s.keys, clock, s.order[..k])
  }

  /** Turn by turn the due timers fire in their order, if none is stuck. */
  lemma {:induction false} CalmTurns(s: Scene, clock: nat, k: nat)
    requires Right(s) && Known(s.order, s.keys) && NoneStuck(s, clock) && k <= Upto(s.order, s.keys, clock)
    ensures CalmAt(s, clock, k, Turns(s, clock, k)) && Fires(s, clock, k) == s.order[..k]
    decreases k
  {
    hide *;
    if k == 0 {
      TurnsNone(s, clock);
      CalmStart(s, clock);
    } else {
      CalmTurns(s, clock, k - 1);
      CalmTurn(s, clock, k - 1, Turns(s, clock, k - 1));
      TurnsMore(s, clock, k - 1);
    }
  }

  lemma CalmStart(s: Scene, clock: nat)
    requires Right(s) && Known(s.order, s.keys) && NoneStuck(s, clock)
    ensures CalmAt(s, clock, 0, s) && s.order[..0] == []
  {
    DueAtFirst(s.order, s.keys, clock);
    hide DueFirst, Sorted, Right, NoneStuck;
    var n := Upto(s.order, s.keys, clock);
    assert s.order[0..n] == s.order[..n];
  }

  lemma CalmTurn(s: Scene, clock: nat, k: nat, r: Scene)
    requires Right(s) && Known(s.order, s.keys) && k < Upto(s.order, s.keys, clock) && CalmAt(s, clock, k, r)
    ensures Right(r) && HeadIsDue(r, clock) && r.order != [] && r.order[0] == s.order[k]
    ensures s.order[..k] + [s.order[k]] == s.order[..k + 1] && CalmAt(s, clock, k + 1, Turn(r, clock))
  {
    SortedDistinct(s.order, s.keys);
    hide Right, NoneStuck, DueFirst, Afterwards, Turn, HeadIsDue, Distinct, Upto, Sorted;
    var n := Upto(s.order, s.keys, clock);
    assert s.order[k..n][0] == s.order[k];
    SomethingLeft(r, clock, s.order[k..n]);
    HeadDueNow(r, clock, s.order[k..n]);
    DueTurn(r, clock, s.order, n, s.timers, s.keys, s.order[..k]);
    TurnRight(r, clock);
  }

  lemma SomethingLeft(s: Scene, clock: nat, due: seq<nat>)
    requires Right(s) && due != [] && DueFirst(s.order, s.keys, clock, due)
    ensures s.order != []
  {
    if s.order == [] {
      NothingDue(s.order, s.keys, clock, due);
    }
  }

  lemma CalmEnds(s: Scene, clock: nat, m: nat)
    requires Right(s) && NoneStuck(s, clock) && Upto(s.order, s.keys, clock) <= m
    ensures var r, n := Turns(s, clock, m), Upto(s.order, s.keys, clock);
            && Over(r, clock) && Fires(s, clock, m) == s.order[..n]
            && Afterwards(r.timers, r.keys, s.timers, s.keys, clock, s.order[..n])
  {
    OrderKnown(s);
    DueAtFirst(s.order, s.keys, clock);
    hide Right, NoneStuck, Turns, Fires, Afterwards, Upto, Over, DueFirst;
    var n := Upto(s.order, s.keys, clock);
    CalmTurns(s, clock, n);
    RunsOut(s, clock, s.order[..n]);
    LenTaken(s.order, n);
    TurnsOver(s, clock, n, m);
  }

  lemma LenTaken(s: seq<nat>, n: nat)
    requires n <= |s|
    ensures |s[..n]| == n
  {
  }

  /** The loop comes to a head that is not due, or to an empty list. */
  ghost predicate Ends(s: Scene, clock: nat) {
    exists n: nat :: Over(Turns(s, clock, n), clock)
  }

  ghost predicate Over(s: Scene, clock: nat) {
    Right(s) && !HeadIsDue(s, clock)
  }

  /** Timer `t` is due and would be started again to be due at once. */
  ghost predicate Stuck(s: Scene, clock: nat, t: nat) {
    && t in s.order && t < |s.timers| && t < |s.keys|
    && s.timers[t].periodic && s.timers[t].init == 0 && s.keys[t].due <= clock
  }

  /** No active periodic timer with period zero is due. */
  ghost predicate NoneStuck(s: Scene, clock: nat) {
    forall t :: t in s.order ==> !Stuck(s, clock, t)
  }

  /** What a turn does to the timers, one by one. */
  lemma TurnIs(s: Scene, clock: nat)
    requires Right(s) && HeadIsDue(s, clock)
    ensures s.order != []
    ensures var t, r := s.order[0], Turn(s, clock);
            && t < |s.timers| == |s.keys| && s.timers[t].active && s.keys[t].due <= clock && t in s.order
            && |r.timers| == |s.timers| && |r.keys| == |s.keys| && Known(s.order[1..], r.keys)
            && (forall x :: 0 <= x < |s.timers| && x != t ==> r.timers[x] == s.timers[x] && r.keys[x] == s.keys[x])
            && (if s.timers[t].periodic then
                  r.timers == s.timers[t := s.timers[t].(timeout := (clock + s.timers[t].init) % WORD, active := true)]
                  && r.keys == s.keys[t := Key(clock + s.timers[t].init, s.stamps)]
                  && r.order == Inserted(s.order[1..], r.keys, t)
                else
                  && r.timers == s.timers[t := s.timers[t].(active := false)]
                  && r.keys == s.keys && r.order == s.order[1..])
            && (forall x :: x in r.order <==> (x in s.order && x != t) || (x == t && s.timers[t].periodic))
  {
    var t, rest, r := s.order[0], s.order[1..], Turn(s, clock);
    assert t in s.order;
    TailSorted(s.order, s.keys);
    assert s.order == [t] + rest;
    if s.timers[t].periodic {
      InsertedMembers(rest, r.keys, t);
    }
    hide Inserted, Sorted;
  }

  lemma IsTurn(s: Scene, r: Scene, clock: nat)
    requires Right(s) && HeadIsDue(s, clock) && s.order != [] && s.order[0] < |s.timers| == |s.keys|
    requires var t := s.order[0]; !s.timers[t].periodic ==>
      r.keys == s.keys && r.timers == s.timers[t := s.timers[t].(active := false)]
      && r.order == s.order[1..] && r.stamps == s.stamps
    requires var t := s.order[0]; s.timers[t].periodic ==>
      r.keys == s.keys[t := Key(clock + s.timers[t].init, s.stamps)] && r.stamps == s.stamps + 1
      && r.timers == s.timers[t := s.timers[t].(timeout := (clock + s.timers[t].init) % WORD, active := true)]
      && Known(s.order[1..], r.keys) && r.order == Inserted(s.order[1..], r.keys, t)
    ensures r == Turn(s, clock)
  {
    hide Inserted, Sorted;
  }

  lemma HeadDueNow(s: Scene, clock: nat, due: seq<nat>)
    requires Right(s) && s.order != [] && DueFirst(s.order, s.keys, clock, due)
    ensures HeadIsDue(s, clock) <==> due != []
    ensures due != [] ==> due[0] == s.order[0]
  {
    HeadDue(s.order, s.keys, clock, due);
  }

  /** One more timer has fired, with what is known about the whole of a check. */
  lemma DueTurn(s: Scene, clock: nat, order: seq<nat>, n: nat, was: seq<Timer>, stamped: seq<Key>, fired: seq<nat>)
    requires Right(s) && HeadIsDue(s, clock) && NoneStuck(s, clock) && s.order != []
    requires Distinct(order) && |fired| < n <= |order| && fired == order[..|fired|]
    requires DueFirst(s.order, s.keys, clock, order[|fired|..n]) && order[|fired|] == s.order[0]
    requires Afterwards(s.timers, s.keys, was, stamped, clock, fired)
    ensures var r, t := Turn(s, clock), s.order[0];
            && NoneStuck(r, clock) && fired + [t] == order[..|fired| + 1]
            && DueFirst(r.order, r.keys, clock, order[|fired| + 1..n])
            && Afterwards(r.timers, r.keys, was, stamped, clock, fired + [t])
  {
    hide Right, HeadIsDue, Sorted, DueFirst, Afterwards, Distinct, NoneStuck, Turn, Inserted, Known;
    var k, t, r := |fired|, s.order[0], Turn(s, clock);
    TurnUnstuck(s, clock);
    DueAfterOne(s, clock, order, n, k);
    NotYet(order, k);
    TurnIs(s, clock);
    AfterOne(s.timers, s.keys, r.timers, r.keys, was, stamped, clock, fired, t, s.stamps);
  }

  /** The first of those due fires, and the others are due next. */
  lemma DueAfterOne(s: Scene, clock: nat, order: seq<nat>, n: nat, k: nat)
    requires Right(s) && HeadIsDue(s, clock) && NoneStuck(s, clock) && s.order != [] && k < n <= |order|
    requires DueFirst(s.order, s.keys, clock, order[k..n]) && order[k] == s.order[0]
    ensures DueFirst(Turn(s, clock).order, Turn(s, clock).keys, clock, order[k + 1..n])
  {
    SortedDistinct(s.order, s.keys);
    hide Right, HeadIsDue, Sorted, DueFirst, Distinct, Turn, Inserted, Known;
    var r := Turn(s, clock);
    TurnIs(s, clock);
    TurnUnstuck(s, clock);
    assert order[k..n][1..] == order[k + 1..n];
    DueNext(s.order, s.keys, r.order, r.keys, clock, order[k..n], s.order[0]);
  }

  /** A stuck timer stays stuck, whichever timer fires. */
  lemma TurnStuck(s: Scene, clock: nat, t: nat)
    requires Right(s) && HeadIsDue(s, clock) && Stuck(s, clock, t)
    ensures Stuck(Turn(s, clock), clock, t)
  {
    hide Right, HeadIsDue, Turn, Inserted;
    TurnIs(s, clock);
  }

  lemma TurnUnstuck(s: Scene, clock: nat)
    requires Right(s) && HeadIsDue(s, clock) && NoneStuck(s, clock)
    ensures NoneStuck(Turn(s, clock), clock)
    ensures s.order != [] && s.order[0] < |s.timers| && s.order[0] < |Turn(s, clock).keys|
    ensures s.timers[s.order[0]].periodic ==> Turn(s, clock).keys[s.order[0]].due > clock
  {
    hide Right, HeadIsDue, Turn, Inserted;
    TurnIs(s, clock);
    assert !Stuck(s, clock, s.order[0]);
  }

  /** A stuck timer keeps the head due. */
  lemma StuckHead(s: Scene, clock: nat, t: nat)
    requires Right(s) && Stuck(s, clock, t)
    ensures HeadIsDue(s, clock)
  {
    HeadEarliest(s.order, s.keys, t);
  }

  lemma {:induction false} StuckForEver(s: Scene, clock: nat, t: nat, n: nat)
    requires Right(s) && Stuck(s, clock, t)
    ensures Right(Turns(s, clock, n)) && Stuck(Turns(s, clock, n), clock, t) && !Over(Turns(s, clock, n), clock)
    decreases n
  {
    hide Right, Stuck, Turn, HeadIsDue;
    StuckHead(s, clock, t);
    if n > 0 {
      TurnRight(s, clock);
      TurnStuck(s, clock, t);
      StuckForEver(Turn(s, clock), clock, t, n - 1);
    }
  }

  /** Without stuck timers every turn leaves one due timer fewer. */
  lemma {:induction false} RunsOut(s: Scene, clock: nat, due: seq<nat>)
    requires Right(s) && NoneStuck(s, clock) && DueFirst(s.order, s.keys, clock, due)
    ensures Over(Turns(s, clock, |due|), clock)
    decreases |due|
  {
    hide NoneStuck, DueFirst, Turn, Sorted, Inserted, Distinct;
    SortedDistinct(s.order, s.keys);
    if s.order == [] {
      NothingDue(s.order, s.keys, clock, due);
    } else {
      HeadDue(s.order, s.keys, clock, due);
    }
    if due != [] {
      var r := Turn(s, clock);
      TurnIs(s, clock);
      TurnUnstuck(s, clock);
      TurnRight(s, clock);
      DueNext(s.order, s.keys, r.order, r.keys, clock, due, s.order[0]);
      RunsOut(r, clock, due[1..]);
    }
  }

  lemma NothingDue(order: seq<nat>, keys: seq<Key>, clock: nat, due: seq<nat>)
    requires DueFirst(order, keys, clock, due) && order == []
    ensures due == []
  {
  }

  /**
   The loop of `rt_timer_check` ends exactly if no periodic timer with period zero is due, and then after
   as many turns as timers are due.
   */
  lemma EndsExactly(s: Scene, clock: nat)
    requires Right(s)
    ensures Ends(s, clock) <==> NoneStuck(s, clock)
    ensures NoneStuck(s, clock) ==> Over(Turns(s, clock, Upto(s.order, s.keys, clock)), clock)
  {
    if NoneStuck(s, clock) {
      DueAtFirst(s.order, s.keys, clock);
      RunsOut(s, clock, s.order[..Upto(s.order, s.keys, clock)]);
    } else {
      var t :| t in s.order && Stuck(s, clock, t);
      forall n: nat
        ensures !Over(Turns(s, clock, n), clock)
      {
        StuckForEver(s, clock, t, n);
      }
    }
  }

  /** One periodic timer with period zero, due now: the loop does not end. */
  lemma ZeroPeriodNeverEnds(clock: nat)
    ensures var s := Scene([Timer(clock % WORD, 0, true, true)], [Key(clock, 0)], [0], 1);
            Right(s) && !Ends(s, clock)
  {
    var s := Scene([Timer(clock % WORD, 0, true, true)], [Key(clock, 0)], [0], 1);
    assert s.order[0] in s.order && Stuck(s, clock, 0);
    EndsExactly(s, clock);
  }

  lemma TickSum(clock: nat, init: nat)
    ensures (clock % WORD + init) % WORD == (clock + init) % WORD
  {
  }
}
