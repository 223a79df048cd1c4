/**
 Ready queue of the uniprocessor scheduler (rt-thread/src/scheduler_up.c): one list of threads per
 priority and a two-level bitmap over the lists, with the thread operations of rt-thread/src/thread.c
 that move threads in and out of it.
 */
module ReadyQueue {
  import opened Bits
  import opened ReadyLists

  const PRIORITIES: nat := 256
  const GROUPS: nat := 32

  /** A thread control block; `number`, `numberMask` and `highMask` are cached from the priority. */
  datatype Tcb = Tcb(prio: nat, number: nat, numberMask: nat, highMask: nat, stat: Stat, yielding: bool)

  // ------------------------------------------------------------------ the index over the lists

  /** A bit is set in a table byte exactly for a nonempty list, in the group word for a nonzero byte. */
  ghost predicate Summarises(lists: seq<seq<nat>>, table: seq<nat>, group: nat) {
    && |lists| == PRIORITIES && |table| == GROUPS && group < 0x1_0000_0000
    && (forall g :: 0 <= g < GROUPS ==> table[g] < 0x100)
    && (forall p :: 0 <= p < PRIORITIES ==> (Bit(table[p / 8], p % 8) <==> lists[p] != []))
    && (forall g :: 0 <= g < GROUPS ==> (Bit(group, g) <==> table[g] != 0))
  }

  /** The group word is zero exactly if every list is empty. */
  lemma NothingReady(lists: seq<seq<nat>>, table: seq<nat>, group: nat)
    requires Summarises(lists, table, group)
    ensures group == 0 <==> forall p :: 0 <= p < PRIORITIES ==> lists[p] == []
  {
    ByteSize();
    ZeroWord(group, 32);
    if group == 0 {
      forall p | 0 <= p < PRIORITIES ensures lists[p] == [] {
        assert !Bit(group, p / 8);
        ZeroWord(table[p / 8], 8);
      }
    } else {
      var g := SomeBit(group, 32);
      assert table[g] != 0;
      var b := SomeBit(table[g], 8);
      var p := g * 8 + b;
      assert p / 8 == g && p % 8 == b;
      assert lists[p] != [];
    }
  }

  /** Two find-first-set steps lead to the most urgent nonempty list. */
  lemma FirstList(lists: seq<seq<nat>>, table: seq<nat>, group: nat, number: nat, prio: nat)
    requires Summarises(lists, table, group) && group != 0
    requires number == Ffs(group) - 1
    requires number < GROUPS && prio == number * 8 + Ffs(table[number]) - 1
    ensures prio < PRIORITIES && lists[prio] != []
    ensures forall p :: 0 <= p < prio ==> lists[p] == []
  {
    hide Ffs, Bit;
    assert IsLeast(group, number);
    assert table[number] != 0;
    var low := Ffs(table[number]) - 1;
    assert IsLeast(table[number], low);
    ByteSize();
    SmallBit(table[number], 8, low);
    assert prio / 8 == number && prio % 8 == low;
    forall p | 0 <= p < prio ensures lists[p] == [] {
      if p / 8 < number {
        assert !Bit(group, p / 8);
        ZeroWord(table[p / 8], 8);
        assert !Bit(table[p / 8], p % 8);
      } else {
        assert p / 8 == number && p % 8 < low;
        assert !Bit(table[number], p % 8);
      }
    }
  }

  lemma MarkNonempty(lists: seq<seq<nat>>, table: seq<nat>, group: nat, prio: nat, list: seq<nat>)
    requires Summarises(lists, table, group) && prio < PRIORITIES && list != []
    ensures Summarises(lists[prio := list],
                       table[prio / 8 := Or(table[prio / 8], Pow2(prio % 8))], Or(group, Pow2(prio / 8)))
  {
    hide Bit, Or, Pow2;
    ByteSize();
    SetBit(table[prio / 8], prio % 8, 8);
    SetBit(group, prio / 8, 32);
    Divided(prio);
  }

  lemma MarkKept(lists: seq<seq<nat>>, table: seq<nat>, group: nat, prio: nat, list: seq<nat>)
    requires Summarises(lists, table, group) && prio < PRIORITIES && lists[prio] != [] && list != []
    ensures Summarises(lists[prio := list], table, group)
  {
    hide Bit;
  }

  lemma Divided(prio: nat)
    ensures forall p: nat :: p / 8 == prio / 8 && p % 8 == prio % 8 ==> p == prio
  {
  }

  lemma MarkEmpty(lists: seq<seq<nat>>, table: seq<nat>, group: nat, prio: nat)
    requires Summarises(lists, table, group) && prio < PRIORITIES
    ensures var t := table[prio / 8 := And(table[prio / 8], Not(Pow2(prio % 8), 32))];
            Summarises(lists[prio := []], t,
                       if t[prio / 8] == 0 then And(group, Not(Pow2(prio / 8), 32)) else group)
  {
    hide Bit, And, Not, Pow2;
    ByteSize();
    ClearBit(table[prio / 8], prio % 8);
    ClearBit(group, prio / 8);
    Divided(prio);
  }

  // ------------------------------------------------------------------ threads in the lists

  ghost predicate MasksRight(c: Tcb) {
    && c.prio < PRIORITIES && c.number == c.prio / 8
    && c.numberMask == Pow2(c.prio / 8) && c.highMask == Pow2(c.prio % 8)
  }

  /** Every list holds only ready threads of its priority, each once, and every ready thread that is
      not in `loose` is in a list. */
  ghost predicate Filed(tcb: seq<Tcb>, lists: seq<seq<nat>>, loose: set<nat>)
    requires |lists| == PRIORITIES
  {
    && (forall p, t {:trigger t in lists[p]} :: 0 <= p < PRIORITIES && t in lists[p] ==>
          t < |tcb| && tcb[t].prio == p && tcb[t].stat == Ready && t !in loose)
    && (forall t :: 0 <= t < |tcb| && tcb[t].stat == Ready && t !in loose ==>
          tcb[t].prio < PRIORITIES && t in lists[tcb[t].prio])
    && (forall p :: 0 <= p < PRIORITIES ==> Distinct(lists[p]))
  }

  ghost predicate AllMasksRight(tcb: seq<Tcb>) {
    forall t :: 0 <= t < |tcb| && tcb[t].stat !in {Init, Close} ==> MasksRight(tcb[t])
  }

  /** Taking a thread out of its list, whatever its state, leaves it loose. */
  lemma FiledWithout(tcb: seq<Tcb>, lists: seq<seq<nat>>, t: nat)
    requires |lists| == PRIORITIES && Filed(tcb, lists, {}) && t < |tcb| && tcb[t].prio < PRIORITIES
    ensures Filed(tcb, lists[tcb[t].prio := Without(lists[tcb[t].prio], t)], {t})
  {
    hide Distinct;
    assert Distinct(lists[tcb[t].prio]);
    WithoutMembers(lists[tcb[t].prio], t);
    var after := lists[tcb[t].prio := Without(lists[tcb[t].prio], t)];
    forall p, x | 0 <= p < PRIORITIES && x in after[p]
      ensures x < |tcb| && tcb[x].prio == p && tcb[x].stat == Ready && x != t
    {
      assert p == tcb[t].prio ==> x in Without(lists[tcb[t].prio], t);
      assert x in lists[p];
    }
  }

  /** Putting a loose thread, now ready, at either end of the list of its priority. */
  lemma FiledWith(tcb: seq<Tcb>, lists: seq<seq<nat>>, t: nat, c: Tcb, tail: bool)
    requires |lists| == PRIORITIES && Filed(tcb, lists, {t}) && t < |tcb|
    requires c.stat == Ready && c.prio < PRIORITIES
    ensures Filed(tcb[t := c], lists[c.prio := if tail then lists[c.prio] + [t] else [t] + lists[c.prio]], {})
  {
    hide Distinct;
    DistinctWith(lists[c.prio], t);
  }

  /** A loose thread that is no longer ready is accounted for. */
  lemma FiledChanged(tcb: seq<Tcb>, lists: seq<seq<nat>>, t: nat, c: Tcb)
    requires |lists| == PRIORITIES && Filed(tcb, lists, {t}) && t < |tcb| && c.stat != Ready
    ensures Filed(tcb[t := c], lists, {})
  {
    hide Distinct;
    forall p, x | 0 <= p < PRIORITIES && x in lists[p] ensures x != t {
    }
  }

  lemma FiledLoose(tcb: seq<Tcb>, lists: seq<seq<nat>>, t: nat)
    requires |lists| == PRIORITIES && Filed(tcb, lists, {}) && t < |tcb| && tcb[t].stat != Ready
    ensures Filed(tcb, lists, {t})
  {
    hide Distinct;
  }

  /** The index after a list has lost a thread, in the terms of the thread's own masks. */
  lemma Unmark(lists: seq<seq<nat>>, table: seq<nat>, group: nat, c: Tcb, list: seq<nat>)
    requires Summarises(lists, table, group) && MasksRight(c) && (list != [] ==> lists[c.prio] != [])
    ensures |lists| == PRIORITIES && |table| == GROUPS && c.number < GROUPS
    ensures list != [] ==> Summarises(lists[c.prio := list], table, group)
    ensures var cleared := And(table[c.number], Not(c.highMask, 32));
            list == [] ==> Summarises(lists[c.prio := list], table[c.number := cleared],
                                      if cleared == 0 then And(group, Not(c.numberMask, 32)) else group)
  {
    assert |lists| == PRIORITIES && |table| == GROUPS;
    hide Summarises;
    if list == [] {
      MarkEmpty(lists, table, group, c.prio);
    } else {
      MarkKept(lists, table, group, c.prio, list);
    }
  }

  // ------------------------------------------------------------------ one scheduling decision

  datatype State = State(tcb: seq<Tcb>, lists: seq<seq<nat>>, current: nat)

  ghost predicate Consistent(s: State) {
    && |s.lists| == PRIORITIES && s.current < |s.tcb| && s.tcb[s.current].stat !in {Init, Ready}
    && Filed(s.tcb, s.lists, {}) && AllMasksRight(s.tcb)
    && (forall t :: 0 <= t < |s.tcb| && s.tcb[t].stat == Running ==> t == s.current)
  }

  /** The running thread keeps the processor: more urgent than all ready threads, or as urgent as the
      first of them and not yielding. */
  predicate Stays(c: Tcb, highest: nat) {
    c.stat == Running && (c.prio < highest || (c.prio == highest && !c.yielding))
  }

  /** What `rt_schedule` does when the scheduler is not locked. */
  ghost function Scheduled(s: State): (r: State)
    requires Consistent(s)
  {
    var h := FirstNonempty(s.lists, 0);
    var c := s.tcb[s.current];
    if h == PRIORITIES then s
    else if Stays(c, h) then s.(tcb := s.tcb[s.current := c.(yielding := false)])
    else
      assert s.lists[h][0] in s.lists[h];
      TakenFrom(Displaced(s), s.lists[h][0])
  }

  /** The running thread goes to the head of its list: its yield mark is cleared before the insertion looks. */
  ghost function Displaced(s: State): State
    requires Consistent(s)
  {
    var c := s.tcb[s.current];
    if c.stat != Running then s
    else State(s.tcb[s.current := c.(stat := Ready, yielding := false)],
               s.lists[c.prio := [s.current] + s.lists[c.prio]], s.current)
  }

  ghost function TakenFrom(s: State, to: nat): State
    requires |s.lists| == PRIORITIES && to < |s.tcb| && s.tcb[to].prio < PRIORITIES
  {
    State(s.tcb[to := s.tcb[to].(stat := Running)],
          s.lists[s.tcb[to].prio := Without(s.lists[s.tcb[to].prio], to)], to)
  }

  lemma DisplacedFiled(s: State)
    requires Consistent(s)
    ensures var d := Displaced(s);
            && |d.tcb| == |s.tcb| && |d.lists| == PRIORITIES && Filed(d.tcb, d.lists, {}) && AllMasksRight(d.tcb)
            && (forall t :: 0 <= t < |d.tcb| ==> d.tcb[t].stat != Running)
            && (forall t :: 0 <= t < |d.tcb| ==> d.tcb[t].prio == s.tcb[t].prio)
            && (forall p :: 0 <= p < PRIORITIES && s.lists[p] != [] ==> d.lists[p] != [])
            && (forall p, t :: 0 <= p < PRIORITIES && t in s.lists[p] ==> t in d.lists[p])
  {
    hide Filed;
    var c := s.tcb[s.current];
    if c.stat == Running {
      FiledLoose(s.tcb, s.lists, s.current);
      FiledWith(s.tcb, s.lists, s.current, c.(stat := Ready, yielding := false), false);
    }
  }

  /** Scheduling keeps lists and states in step. */
  lemma ScheduledConsistent(s: State)
    requires Consistent(s)
    ensures Consistent(Scheduled(s))
  {
    var h := FirstNonempty(s.lists, 0);
    var c := s.tcb[s.current];
    if h == PRIORITIES {
    } else if Stays(c, h) {
      FiledLoose(s.tcb, s.lists, s.current);
      FiledChanged(s.tcb, s.lists, s.current, c.(yielding := false));
    } else {
      var d, to := Displaced(s), s.lists[h][0];
      assert to in s.lists[h];
      DisplacedFiled(s);
      FiledWithout(d.tcb, d.lists, to);
      hide Filed;
      FiledChanged(d.tcb, d.lists[d.tcb[to].prio := Without(d.lists[d.tcb[to].prio], to)], to,
                   d.tcb[to].(stat := Running));
    }
  }

  /** After a scheduling decision the current thread runs, unless there was nothing to run, and no
      ready thread is more urgent than it. */
  lemma MostUrgentRuns(s: State)
    requires Consistent(s)
    requires s.tcb[s.current].stat == Running || exists t :: 0 <= t < |s.tcb| && s.tcb[t].stat == Ready
    ensures var r := Scheduled(s);
            && r.current < |r.tcb| && r.tcb[r.current].stat == Running
            && forall t :: 0 <= t < |r.tcb| && r.tcb[t].stat == Ready ==> r.tcb[r.current].prio <= r.tcb[t].prio
  {
    var h := FirstNonempty(s.lists, 0);
    var r := Scheduled(s);
    forall t | 0 <= t < |s.tcb| && s.tcb[t].stat == Ready ensures h <= s.tcb[t].prio < PRIORITIES {
      assert s.lists[s.tcb[t].prio] != [];
    }
    if h < PRIORITIES {
      var to := s.lists[h][0];
      assert to in s.lists[h];
      assert s.tcb[to].prio == h;
    }
  }

  /** No list before `h` holds a thread, and list `h` does. */
  ghost predicate IsTop(lists: seq<seq<nat>>, h: nat) {
    h < |lists| && lists[h] != [] && forall p :: 0 <= p < h ==> lists[p] == []
  }

  /**
   One decision with the current thread running. It runs on exactly if nothing is more urgent and, if it
   yields, nothing as urgent. If not, the first of the most urgent list takes over, and the thread
   displaced stands at the head of its list, before its equals, yielding or not. A decision with another
   thread ready uses up the yield mark.
   */
  lemma Decision(s: State)
    requires Consistent(s) && s.tcb[s.current].stat == Running
    ensures var k, c, r := s.current, s.tcb[s.current], Scheduled(s);
            && c.prio < PRIORITIES && |r.lists| == PRIORITIES && |r.tcb| == |s.tcb|
            && (r.current == k <==>
                  (forall p :: 0 <= p < c.prio ==> s.lists[p] == []) && (c.yielding ==> s.lists[c.prio] == []))
            && (r.current == k ==>
                  && r.lists == s.lists
                  && r.tcb[k] ==
                     if forall p :: 0 <= p < PRIORITIES ==> s.lists[p] == [] then c else c.(yielding := false))
            && (forall h: nat :: r.current != k && IsTop(s.lists, h) ==>
                  && r.current == s.lists[h][0] != k && r.current < |s.tcb|
                  && r.lists[c.prio] == [k] + (if h == c.prio then s.lists[h][1..] else s.lists[c.prio])
                  && (h != c.prio ==> r.lists[h] == s.lists[h][1..])
                  && r.tcb[k] == c.(stat := Ready, yielding := false)
                  && r.tcb[r.current] == s.tcb[r.current].(stat := Running))
            && (forall h, p :: r.current != k && IsTop(s.lists, h) && 0 <= p < PRIORITIES && p != h && p != c.prio ==>
                  r.lists[p] == s.lists[p])
            && (forall x :: 0 <= x < |s.tcb| && x != k && x != r.current ==> r.tcb[x] == s.tcb[x])
  {
    var k, c, h := s.current, s.tcb[s.current], FirstNonempty(s.lists, 0);
    assert MasksRight(c);
    assert forall x: nat :: IsTop(s.lists, x) ==> x == h;
    if h < PRIORITIES {
      var to := s.lists[h][0];
      assert to in s.lists[h] && s.tcb[to].prio == h && s.tcb[to].stat == Ready && to != k;
      assert Without(s.lists[h], to) == s.lists[h][1..];
      assert Without([k] + s.lists[h], to) == [k] + s.lists[h][1..] by {
        assert ([k] + s.lists[h])[1..] == s.lists[h];
      }
    }
    hide Filed, AllMasksRight;
  }

  /** The current thread has suspended itself; it stays current until the next decision. */
  ghost function Asleep(s: State): (r: State)
    requires Consistent(s) && s.tcb[s.current].stat == Running
    ensures Consistent(r)
  {
    FiledLoose(s.tcb, s.lists, s.current);
    FiledChanged(s.tcb, s.lists, s.current, s.tcb[s.current].(stat := Suspend));
    s.(tcb := s.tcb[s.current := s.tcb[s.current].(stat := Suspend)])
  }

  /** A thread preempted without having yielded is back before any of its equals, once what
      preempted it has gone to sleep. */
  lemma PreemptedReturns(s: State)
    requires Consistent(s) && s.tcb[s.current].stat == Running && !s.tcb[s.current].yielding
    requires Scheduled(s).current != s.current
    requires forall p :: 0 <= p < s.tcb[s.current].prio && p < |Scheduled(s).lists| ==> Scheduled(s).lists[p] == []
    ensures Consistent(Scheduled(s)) && s.tcb[s.current].prio < PRIORITIES
    ensures Scheduled(s).tcb[Scheduled(s).current].stat == Running
    ensures var r, p := Scheduled(Asleep(Scheduled(s))), s.tcb[s.current].prio;
            r.current == s.current && |r.lists| == PRIORITIES && r.lists[p] == s.lists[p]
  {
    var k, p, r := s.current, s.tcb[s.current].prio, Scheduled(s);
    ScheduledConsistent(s);
    Decision(s);
    var h := FirstNonempty(s.lists, 0);
    assert IsTop(s.lists, h);
    assert r.lists[p] == [k] + s.lists[p];
    TopTaken(Asleep(r), p);
  }

  lemma HeadOut(list: seq<nat>)
    requires list != []
    ensures Without(list, list[0]) == list[1..]
  {
  }

  /** With the current thread asleep, the first of the most urgent list runs next. */
  lemma TopTaken(s: State, p: nat)
    requires Consistent(s) && s.tcb[s.current].stat != Running && IsTop(s.lists, p)
    ensures var r := Scheduled(s);
            r.current == s.lists[p][0] && |r.lists| == PRIORITIES && r.lists[p] == s.lists[p][1..]
  {
    assert FirstNonempty(s.lists, 0) == p;
    var to := s.lists[p][0];
    assert to in s.lists[p] && s.tcb[to].prio == p;
    assert Without(s.lists[p], to) == s.lists[p][1..];
  }

  // ------------------------------------------------------------------ yielding among equals

  /** One yield of the running thread with its equals waiting: the two at the front change places. */
  function AfterYield(running: nat, peers: seq<nat>): (nat, seq<nat>) {
    if peers == [] then (running, []) else (peers[0], [running] + peers[1..])
  }

  function AfterYields(running: nat, peers: seq<nat>, n: nat): (nat, seq<nat>)
    decreases n
  {
    if n == 0 then (running, peers)
    else var next := AfterYield(running, peers); AfterYields(next.0, next.1, n - 1)
  }

  /** A yield of the most urgent running thread is `AfterYield` on the list of its priority. */
  lemma YieldSwaps(s: State)
    requires Consistent(s)
    requires var c := s.tcb[s.current]; c.stat == Running && c.yielding
    requires forall p :: 0 <= p < s.tcb[s.current].prio ==> s.lists[p] == []
    ensures var p, r := s.tcb[s.current].prio, Scheduled(s);
            |r.lists| == PRIORITIES && (s.lists[p] != [] ==>
                (r.current, r.lists[p]) == AfterYield(s.current, s.lists[p]))
  {
    var p := s.tcb[s.current].prio;
    assert MasksRight(s.tcb[s.current]);
    if s.lists[p] != [] {
      assert FirstNonempty(s.lists, 0) == p;
      var to := s.lists[p][0];
      assert to in s.lists[p];
      var list := [s.current] + s.lists[p];
      assert list[1..] == s.lists[p] && to != s.current;
      assert Without(list, to) == [s.current] + Without(s.lists[p], to);
    }
  }

  lemma {:induction false} FrontPair(running: nat, peers: seq<nat>, n: nat)
    requires peers != []
    ensures var r := AfterYields(running, peers, n);
            && r.1 == [if n % 2 == 0 then peers[0] else running] + peers[1..]
            && r.0 == (if n % 2 == 0 then running else peers[0])
    decreases n
  {
    if n > 0 {
      FrontPair(peers[0], [running] + peers[1..], n - 1);
    }
  }

  /** The current thread runs and no ready thread is more urgent. */
  ghost predicate Leading(s: State) {
    && Consistent(s) && s.tcb[s.current].stat == Running && s.tcb[s.current].prio < PRIORITIES
    && forall p :: 0 <= p < s.tcb[s.current].prio ==> s.lists[p] == []
  }

  /** The state in which the current thread has asked to yield. */
  ghost function Asking(s: State): (r: State)
    requires Consistent(s)
    ensures Consistent(r)
  {
    FiledLoose(s.tcb, s.lists, s.current);
    FiledChanged(s.tcb, s.lists, s.current, s.tcb[s.current].(yielding := true));
    s.(tcb := s.tcb[s.current := s.tcb[s.current].(yielding := true)])
  }

  /** One yield of the current thread with the scheduler unlocked, and `n` of them in a row. */
  ghost function YieldStep(s: State): State {
    if Consistent(s) then Scheduled(Asking(s)) else s
  }

  ghost function YieldRun(s: State, n: nat): State
    decreases n
  {
    if n == 0 then s else YieldRun(YieldStep(s), n - 1)
  }

  /** The threads as urgent as the current one that wait, from the head of their list. */
  ghost function Peers(s: State): seq<nat>
    requires Leading(s)
  {
    s.lists[s.tcb[s.current].prio]
  }

  /** After a yield nothing is more urgent still, and the list of equals is the one after one swap. */
  lemma LeadsOn(s: State)
    requires Leading(s)
    ensures var r := YieldStep(s);
            Leading(r) && (r.current, Peers(r)) == AfterYield(s.current, Peers(s))
  {
    var asking := Asking(s);
    var p := s.tcb[s.current].prio;
    ScheduledConsistent(asking);
    if s.lists[p] != [] {
      YieldSwaps(asking);
      assert s.lists[p][0] in s.lists[p];
      assert FirstNonempty(asking.lists, 0) == p;
    }
    hide Filed, AllMasksRight;
  }

  /** Yields of the scheduler are swaps of the list of equals. */
  lemma {:induction false} YieldRunIs(s: State, n: nat)
    requires Leading(s)
    ensures var r := YieldRun(s, n);
            Leading(r) && (r.current, Peers(r)) == AfterYields(s.current, Peers(s), n)
    decreases n
  {
    hide Leading, YieldStep, Peers;
    if n > 0 {
      LeadsOn(s);
      YieldRunIs(YieldStep(s), n - 1);
    }
  }

  /** However often the current thread yields, only the two threads at the front ever run. */
  lemma OnlyTwoRun(s: State, n: nat)
    requires Leading(s) && Peers(s) != []
    ensures YieldRun(s, n).current == if n % 2 == 0 then s.current else Peers(s)[0]
  {
    hide Leading, Peers;
    YieldRunIs(s, n);
    FrontPair(s.current, Peers(s), n);
  }

  ghost predicate GetsTurn(s: State, x: nat) {
    exists n: nat :: YieldRun(s, n).current == x
  }

  /** Yielding gives every equal its turn exactly if there is at most one of them. */
  lemma RoundRobin(s: State)
    requires Leading(s)
    ensures (forall x :: x in Peers(s) ==> GetsTurn(s, x)) <==> |Peers(s)| <= 1
  {
    hide Leading, Peers, YieldRun;
    var peers := Peers(s);
    if |peers| == 1 {
      OnlyTwoRun(s, 1);
      assert GetsTurn(s, peers[0]);
    } else if |peers| > 1 {
      ThirdStarves(s, 1);
      assert peers[1] in peers;
    }
  }

  /** Every equal behind the first one waits for ever. */
  lemma ThirdStarves(s: State, i: nat)
    requires Leading(s) && 0 < i < |Peers(s)|
    ensures !GetsTurn(s, Peers(s)[i])
  {
    var peers := Peers(s);
    PeersApart(s);
    hide Leading, Peers, YieldRun;
    assert peers[i] in peers;
    forall n: nat
      ensures YieldRun(s, n).current != peers[i]
    {
      OnlyTwoRun(s, n);
    }
  }

  /** Three threads of priority 0, the first of them running. */
  function Crowded(): State {
    var one := Tcb(0, 0, 1, 1, Ready, false);
    State([one.(stat := Running), one, one],
          seq(PRIORITIES, p requires 0 <= p < PRIORITIES => if p == 0 then [1, 2] else []), 0)
  }

  /** In such a state the third thread never runs. */
  lemma CrowdedOut()
    ensures Leading(Crowded()) && !GetsTurn(Crowded(), 2)
  {
    var s := Crowded();
    assert Pow2(0) == 1;
    assert forall p :: 0 <= p < PRIORITIES ==> s.lists[p] == if p == 0 then [1, 2] else [];
    assert forall t :: 0 <= t < 3 ==> MasksRight(s.tcb[t]);
    ThirdStarves(s, 1);
  }

  lemma PeersApart(s: State)
    requires Leading(s)
    ensures Distinct(Peers(s)) && s.current !in Peers(s)
  {
  }

  // ------------------------------------------------------------------ the scheduler

  class Scheduler {
    var tcb: seq<Tcb>
    var lists: seq<seq<nat>>
    var table: seq<nat>
    var group: nat
    /** The index of the current thread, or -1 before the scheduler is started. */
    var current: int
    var lockNest: nat

    ghost predicate Valid()
      reads this
    {
      && Summarises(lists, table, group)
      && Filed(tcb, lists, {}) && AllMasksRight(tcb)
      && -1 <= current < |tcb|
      && (forall t :: 0 <= t < |tcb| && tcb[t].stat == Running ==> t == current)
      && (current >= 0 ==> tcb[current].stat !in {Init, Ready})
    }

    ghost function View(): State
      requires current >= 0
      reads this
    {
      State(tcb, lists, current)
    }

    /** `rt_system_scheduler_init` with a number of threads that have been initialised but not started. */
    constructor (priorities: seq<nat>)
      requires forall t :: 0 <= t < |priorities| ==> priorities[t] < PRIORITIES
      ensures Valid() && current == -1 && lockNest == 0
      ensures |tcb| == |priorities|
      ensures forall t :: 0 <= t < |tcb| ==> tcb[t].prio == priorities[t] && tcb[t].stat == Init && !tcb[t].yielding
      ensures forall p :: 0 <= p < PRIORITIES ==> lists[p] == []
    {
      tcb := seq(|priorities|, t requires 0 <= t < |priorities| => Tcb(priorities[t], 0, 0, 0, Init, false));
      lists := seq(PRIORITIES, p => []);
      table := seq(GROUPS, g => 0);
      group := 0;
      current := -1;
      lockNest := 0;
      new;
      forall i: nat ensures !Bit(0, i) { ZeroBits(i); }
    }

    /** `_scheduler_get_highest_priority_thread`: the first thread of the first nonempty list. */
    method GetHighest() returns (thread: nat, prio: nat)
      requires Summarises(lists, table, group) && group != 0
      ensures prio == FirstNonempty(lists, 0) < PRIORITIES
      ensures lists[prio] != [] && thread == lists[prio][0]
    {
      var number := Ffs(group) - 1;
      ByteSize();
      SmallBit(group, 32, number);
      prio := number * 8 + Ffs(table[number]) - 1;
      FirstList(lists, table, group, number, prio);
      thread := lists[prio][0];
    }

    /** `rt_schedule_insert_thread`. */
    method Insert(t: nat)
      requires t < |tcb| && MasksRight(tcb[t]) && Summarises(lists, table, group)
      modifies `tcb, `lists, `table, `group
      ensures Summarises(lists, table, group)
      ensures tcb == old(tcb)[t := old(tcb)[t].(stat := if t == current then Running else Ready)]
      ensures var p := old(tcb)[t].prio;
              lists == if t == current then old(lists)
                       else old(lists)[p := Joined(old(lists)[p], t, old(tcb)[t].yielding)]
    {
      if t == current {
        tcb := tcb[t := tcb[t].(stat := Running)];
        return;
      }
      tcb := tcb[t := tcb[t].(stat := Ready)];
      var c := tcb[t];
      MarkNonempty(lists, table, group, c.prio, Joined(lists[c.prio], t, c.yielding));
      lists := lists[c.prio := Joined(lists[c.prio], t, c.yielding)];
      table := table[c.number := Or(table[c.number], c.highMask)];
      group := Or(group, c.numberMask);
    }

    /** `rt_schedule_remove_thread`; the thread need not be in its list. */
    method Remove(t: nat)
      requires t < |tcb| && MasksRight(tcb[t]) && Summarises(lists, table, group)
      modifies `lists, `table, `group
      ensures Summarises(lists, table, group)
      ensures lists == old(lists)[tcb[t].prio := Without(old(lists)[tcb[t].prio], t)]
    {
      var c := tcb[t];
      Unmark(lists, table, group, c, Without(lists[c.prio], t));
      hide Summarises, Without;
      lists := lists[c.prio := Without(lists[c.prio], t)];
      if lists[c.prio] == [] {
        table := table[c.number := And(table[c.number], Not(c.highMask, 32))];
        if table[c.number] == 0 {
          group := And(group, Not(c.numberMask, 32));
        }
      }
    }

    /** `rt_schedule`. */
    method Schedule()
      requires Valid() && current >= 0
      modifies `tcb, `lists, `table, `group, `current
      ensures Valid() && current >= 0
      ensures View() == if lockNest == 0 then Scheduled(old(View())) else old(View())
    {
      ghost var before := View();
      assert Consistent(before);
      if lockNest == 0 {
        NothingReady(lists, table, group);
        if group != 0 {
          ScheduledConsistent(before);
          var to, highest := GetHighest();
          Decide(to, highest);
        }
      }
    }

    /** The part of `rt_schedule` that compares the first ready thread with the current one. */
    method Decide(first: nat, highest: nat)
      requires Valid() && current >= 0
      requires highest == FirstNonempty(lists, 0) < PRIORITIES && first == lists[highest][0]
      modifies `tcb, `lists, `table, `group, `current
      ensures current >= 0 && Summarises(lists, table, group)
      ensures View() == Scheduled(old(View()))
    {
      ghost var before := View();
      var to, insert := first, false;
      var from := current;
      assert first in lists[highest];
      assert MasksRight(tcb[first]) && tcb[first].prio == highest;
      assert tcb[from].stat == Running ==> MasksRight(tcb[from]);
      assert tcb[from].stat == Running ==> from !in lists[tcb[from].prio];
      assert |lists| == PRIORITIES;
      hide Summarises, Filed, AllMasksRight, FirstNonempty, Pow2, Bit, Distinct;
      if tcb[from].stat == Running {
        if tcb[from].prio < highest {
          to := from;
        } else if tcb[from].prio == highest && !tcb[from].yielding {
          to := from;
        } else {
          insert := true;
        }
        tcb := tcb[from := tcb[from].(yielding := false)];
      }
      if to != from {
        TakeOver(to, from, insert);
      } else {
        WithoutAbsent(lists[tcb[from].prio], from);
        Remove(from);
        tcb := tcb[from := tcb[from].(stat := Running)];
      }
    }

    /** The switch from the running thread, which is inserted again if it still runs, to a ready one. */
    method TakeOver(to: nat, from: nat, insert: bool)
      requires Summarises(lists, table, group) && from == current && from != to && from < |tcb| && to < |tcb|
      requires MasksRight(tcb[to]) && (insert ==> MasksRight(tcb[from]) && !tcb[from].yielding)
      modifies `tcb, `lists, `table, `group, `current
      ensures Summarises(lists, table, group) && current == to && |old(lists)| == PRIORITIES
      ensures View() == TakenFrom(if insert then Requeued(old(View())) else old(View()), to)
    {
      hide Summarises, Pow2, Bit, Distinct, Without;
      assert |lists| == PRIORITIES by { ListCount(lists, table, group); }
      current := to;
      if insert {
        Insert(from);
      }
      Remove(to);
      tcb := tcb[to := tcb[to].(stat := Running)];
    }

    /** `rt_system_scheduler_start`. */
    method Start()
      requires Valid() && current == -1 && group != 0
      modifies `tcb, `lists, `table, `group, `current
      ensures Valid() && 0 <= current < |old(tcb)|
      ensures exists h: nat :: IsTop(old(lists), h) && current == old(lists)[h][0]
                          && lists == old(lists)[h := old(lists)[h][1..]]
      ensures tcb == old(tcb)[current := old(tcb)[current].(stat := Running, yielding := false)]
    {
      var to, prio := GetHighest();
      assert IsTop(lists, prio) && to in lists[prio];
      HeadOut(lists[prio]);
      current := to;
      FiledWithout(tcb, lists, to);
      Remove(to);
      FiledChanged(tcb, lists, to, tcb[to].(stat := Running, yielding := false));
      tcb := tcb[to := tcb[to].(stat := Running, yielding := false)];
    }

    /** `rt_thread_yield`, and the end of a time slice in `rt_tick_increase`. */
    method Yield()
      requires Valid() && current >= 0
      modifies `tcb, `lists, `table, `group, `current
      ensures Valid() && current >= 0
      ensures var s := old(View()).(tcb := old(tcb)[old(current) := old(tcb)[old(current)].(yielding := true)]);
              View() == if lockNest == 0 then Scheduled(s) else s
    {
      FiledLoose(tcb, lists, current);
      FiledChanged(tcb, lists, current, tcb[current].(yielding := true));
      tcb := tcb[current := tcb[current].(yielding := true)];
      Schedule();
    }

    /** `rt_thread_suspend_with_flag`: only the current thread may suspend, and only while it runs. */
    method SuspendSelf() returns (ok: bool)
      requires Valid() && current >= 0
      modifies `tcb, `lists, `table, `group
      ensures Valid() && lists == old(lists)
      ensures ok == (old(tcb)[current].stat == Running)
      ensures tcb == if ok then old(tcb)[current := old(tcb)[current].(stat := Suspend)] else old(tcb)
    {
      ok := tcb[current].stat == Running;
      if ok {
        WithoutAbsent(lists[tcb[current].prio], current);
        FiledLoose(tcb, lists, current);
        FiledChanged(tcb, lists, current, tcb[current].(stat := Suspend));
        Remove(current);
        tcb := tcb[current := tcb[current].(stat := Suspend)];
      }
    }

    /** `rt_thread_resume`. */
    method Resume(t: nat) returns (ok: bool)
      requires Valid() && t < |tcb|
      modifies `tcb, `lists, `table, `group
      ensures Valid()
      ensures ok == (old(tcb)[t].stat == Suspend)
      ensures !ok ==> tcb == old(tcb) && lists == old(lists)
      ensures ok ==> tcb == old(tcb)[t := old(tcb)[t].(stat := if t == current then Running else Ready)]
      ensures var p := old(tcb)[t].prio;
              ok ==> lists == if t == current then old(lists)
                              else old(lists)[p := Joined(old(lists)[p], t, old(tcb)[t].yielding)]
    {
      ok := tcb[t].stat == Suspend;
      if ok {
        FiledLoose(tcb, lists, t);
        if t == current {
          FiledChanged(tcb, lists, t, tcb[t].(stat := Running));
        } else {
          FiledWith(tcb, lists, t, tcb[t].(stat := Ready), tcb[t].yielding);
        }
        Insert(t);
      }
    }

    /** `rt_thread_startup`: derives the masks, then resumes and schedules. */
    method Startup(t: nat)
      requires Valid() && t < |tcb| && tcb[t].stat == Init && tcb[t].prio < PRIORITIES
      modifies `tcb, `lists, `table, `group, `current
      ensures Valid()
      ensures current == -1 <==> old(current) == -1
      ensures current == -1 ==> tcb == StartedTcb(old(tcb), t) && lists == StartedLists(old(tcb), old(lists), t)
      ensures current >= 0 ==>
        View() == if lockNest == 0 then Scheduled(Started(old(View()), t)) else Started(old(View()), t)
    {
      ghost var before := tcb;
      var c := WithPriority(tcb[t], tcb[t].prio).(stat := Suspend, yielding := false);
      assert t != current && |lists| == PRIORITIES;
      FiledLoose(tcb, lists, t);
      FiledChanged(tcb, lists, t, c);
      hide Summarises, Filed;
      tcb := tcb[t := c];
      var resumed := Resume(t);
      assert tcb == StartedTcb(before, t);
      if current >= 0 {
        Schedule();
      }
    }

    /** The scheduling part of `rt_thread_detach` and `rt_thread_delete`. */
    method Detach(t: nat)
      requires Valid() && t < |tcb|
      modifies `tcb, `lists, `table, `group
      ensures Valid()
      ensures old(tcb)[t].stat == Close ==> tcb == old(tcb) && lists == old(lists)
      ensures old(tcb)[t].stat != Close ==> tcb == old(tcb)[t := old(tcb)[t].(stat := Close, yielding := false)]
      ensures old(tcb)[t].stat == Ready ==>
        lists == old(lists)[tcb[t].prio := Without(old(lists)[tcb[t].prio], t)]
      ensures old(tcb)[t].stat != Ready ==> lists == old(lists)
    {
      if tcb[t].stat == Close {
        return;
      }
      if tcb[t].stat == Init {
        FiledLoose(tcb, lists, t);
      } else {
        FiledWithout(tcb, lists, t);
        if tcb[t].stat != Ready {
          WithoutAbsent(lists[tcb[t].prio], t);
        }
        Remove(t);
      }
      FiledChanged(tcb, lists, t, tcb[t].(stat := Close, yielding := false));
      tcb := tcb[t := tcb[t].(stat := Close, yielding := false)];
    }

    /** The ready branch of `RT_THREAD_CTRL_CHANGE_PRIORITY`. */
    method Refile(t: nat, prio: nat)
      requires t < |tcb| && t != current && tcb[t].stat == Ready && MasksRight(tcb[t]) && prio < PRIORITIES
      requires Summarises(lists, table, group)
      modifies `tcb, `lists, `table, `group
      ensures Summarises(lists, table, group)
      ensures tcb == old(tcb)[t := WithPriority(old(tcb)[t], prio)]
      ensures |old(lists)| == PRIORITIES && lists == Repriorized(old(tcb), old(lists), t, prio)
    {
      ghost var before := tcb;
      assert |lists| == PRIORITIES;
      hide Summarises;
      Remove(t);
      tcb := tcb[t := WithPriority(tcb[t], prio)];
      Insert(t);
      assert tcb == before[t := WithPriority(before[t], prio)];
    }

    /** `RT_THREAD_CTRL_CHANGE_PRIORITY`: a ready thread changes lists. */
    method ChangePriority(t: nat, prio: nat)
      requires Valid() && t < |tcb| && prio < PRIORITIES
      modifies `tcb, `lists, `table, `group
      ensures Valid()
      ensures tcb == old(tcb)[t := WithPriority(old(tcb)[t], prio)]
      ensures |old(lists)| == PRIORITIES && lists == Repriorized(old(tcb), old(lists), t, prio)
    {
      assert |lists| == PRIORITIES && (tcb[t].stat == Ready ==> MasksRight(tcb[t]));
      RepriorizedFiled(tcb, lists, t, prio);
      hide Summarises, Filed, AllMasksRight;
      if tcb[t].stat == Ready {
        Refile(t, prio);
      } else {
        tcb := tcb[t := WithPriority(tcb[t], prio)];
      }
    }

    /** `rt_enter_critical`. */
    method EnterCritical()
      requires Valid()
      modifies `lockNest
      ensures Valid() && lockNest == old(lockNest) + 1
    {
      lockNest := lockNest + 1;
    }

    /** `rt_exit_critical`: one level too many is forgiven, and the last one schedules. */
    method ExitCritical()
      requires Valid()
      modifies this
      ensures Valid() && (current == -1 <==> old(current) == -1)
      ensures lockNest == if old(lockNest) > 0 then old(lockNest) - 1 else 0
      ensures current >= 0 ==> View() == if lockNest == 0 then Scheduled(old(View())) else old(View())
      ensures current == -1 ==> tcb == old(tcb) && lists == old(lists)
    {
      if lockNest <= 1 {
        lockNest := 0;
        if current >= 0 {
          Schedule();
        }
      } else {
        lockNest := lockNest - 1;
      }
    }
  }

  lemma ListCount(lists: seq<seq<nat>>, table: seq<nat>, group: nat)
    requires Summarises(lists, table, group)
    ensures |lists| == PRIORITIES
  {
  }

  /** The current thread at the head of its list. */
  function Requeued(s: State): State
    requires s.current < |s.tcb| && |s.lists| == PRIORITIES && s.tcb[s.current].prio < PRIORITIES
  {
    var c := s.tcb[s.current];
    State(s.tcb[s.current := c.(stat := Ready)], s.lists[c.prio := [s.current] + s.lists[c.prio]], s.current)
  }

  function WithPriority(c: Tcb, prio: nat): Tcb {
    c.(prio := prio, number := prio / 8, numberMask := Pow2(prio / 8), highMask := Pow2(prio % 8))
  }

  /** A thread that was initialised is now the first ready one of its priority. */
  function StartedTcb(tcb: seq<Tcb>, t: nat): seq<Tcb>
    requires t < |tcb|
  {
    tcb[t := WithPriority(tcb[t], tcb[t].prio).(stat := Ready, yielding := false)]
  }

  function StartedLists(tcb: seq<Tcb>, lists: seq<seq<nat>>, t: nat): seq<seq<nat>>
    requires t < |tcb| && tcb[t].prio < |lists|
  {
    lists[tcb[t].prio := [t] + lists[tcb[t].prio]]
  }

  ghost function Started(s: State, t: nat): (r: State)
    requires Consistent(s) && t < |s.tcb| && s.tcb[t].stat == Init && s.tcb[t].prio < PRIORITIES
    ensures Consistent(r)
  {
    FiledLoose(s.tcb, s.lists, t);
    FiledWith(s.tcb, s.lists, t, StartedTcb(s.tcb, t)[t], false);
    s.(tcb := StartedTcb(s.tcb, t), lists := StartedLists(s.tcb, s.lists, t))
  }

  /** A thread that is started stands before its equals, ready and without a yield mark, its masks set. */
  lemma StartedFiled(s: State, t: nat)
    requires Consistent(s) && t < |s.tcb| && s.tcb[t].stat == Init && s.tcb[t].prio < PRIORITIES
    ensures var r, p := Started(s, t), s.tcb[t].prio;
            && |r.tcb| == |s.tcb| && |r.lists| == |s.lists| == PRIORITIES && r.current == s.current
            && r.lists[p] == [t] + s.lists[p]
            && r.tcb[t].stat == Ready && !r.tcb[t].yielding && r.tcb[t].prio == p && MasksRight(r.tcb[t])
            && (forall q :: 0 <= q < PRIORITIES && q != p ==> r.lists[q] == s.lists[q])
            && (forall x :: 0 <= x < |s.tcb| && x != t ==> r.tcb[x] == s.tcb[x])
  {
    assert AllMasksRight(Started(s, t).tcb);
    hide Filed, MasksRight;
  }

  /** The lists after a priority change: a ready thread moves from one to another. */
  function Repriorized(tcb: seq<Tcb>, lists: seq<seq<nat>>, t: nat, prio: nat): seq<seq<nat>>
    requires t < |tcb| && (tcb[t].stat == Ready ==> tcb[t].prio < |lists|) && prio < |lists|
  {
    if tcb[t].stat != Ready then lists
    else
      var without := lists[tcb[t].prio := Without(lists[tcb[t].prio], t)];
      without[prio := Joined(without[prio], t, tcb[t].yielding)]
  }

  lemma RepriorizedFiled(tcb: seq<Tcb>, lists: seq<seq<nat>>, t: nat, prio: nat)
    requires |lists| == PRIORITIES && Filed(tcb, lists, {}) && AllMasksRight(tcb) && t < |tcb| && prio < PRIORITIES
    ensures tcb[t].stat == Ready ==> tcb[t].prio < PRIORITIES
    ensures Filed(tcb[t := WithPriority(tcb[t], prio)], Repriorized(tcb, lists, t, prio), {})
    ensures AllMasksRight(tcb[t := WithPriority(tcb[t], prio)])
  {
    var c := WithPriority(tcb[t], prio);
    if tcb[t].stat == Ready {
      FiledWithout(tcb, lists, t);
      FiledWith(tcb, lists[tcb[t].prio := Without(lists[tcb[t].prio], t)], t, c, c.yielding);
    } else {
      FiledLoose(tcb, lists, t);
      FiledChanged(tcb, lists, t, c);
    }
  }
}
