/**
 Ready lists and scheduling decisions of the multiprocessor scheduler (rt-thread/src/scheduler_mp.c)
 with up to 32 priorities: one table of lists for threads that may run anywhere and one per CPU for
 threads bound to it. Every operation holds the global CPU lock (see CpusLock), so it is one step.
 */
module SmpScheduler {
  import opened Bits
  import opened ReadyLists

  const LEVELS: nat := 32

  /** `bind` and `oncpu` equal the number of CPUs when the thread is unbound or on no CPU. */
  datatype Thread = Thread(prio: nat, numberMask: nat, stat: Stat, yielding: bool, bind: nat, oncpu: nat)

  /** Lists by place and priority; the place after the last CPU is the table for unbound threads. */
  type Lists = seq<seq<seq<nat>>>

  function Put(lists: Lists, place: nat, prio: nat, list: seq<nat>): Lists
    requires place < |lists| && prio < |lists[place]|
  {
    lists[place := lists[place][prio := list]]
  }

  lemma PutSame(lists: Lists, place: nat, prio: nat)
    requires place < |lists| && prio < |lists[place]|
    ensures Put(lists, place, prio, lists[place][prio]) == lists
  {
    assert lists[place][prio := lists[place][prio]] == lists[place];
  }

  ghost predicate Shaped(lists: Lists, cpus: nat) {
    |lists| == cpus + 1 && forall q :: 0 <= q <= cpus ==> |lists[q]| == LEVELS
  }

  // ------------------------------------------------------------------ the bitmaps

  ghost predicate Summary(lists: Lists, groups: seq<nat>, cpus: nat) {
    && Shaped(lists, cpus) && |groups| == cpus + 1
    && (forall q :: 0 <= q <= cpus ==> groups[q] < 0x1_0000_0000)
    && (forall q, p :: 0 <= q <= cpus && 0 <= p < LEVELS ==> (Bit(groups[q], p) <==> lists[q][p] != []))
  }

  /** `__rt_ffs(group) - 1` as an unsigned word: huge when the group is zero. */
  function Highest(group: nat): nat
    requires group < 0x1_0000_0000
  {
    (Ffs(group) + 0xFFFF_FFFF) % 0x1_0000_0000
  }

  lemma HighestIsFirst(lists: Lists, groups: seq<nat>, cpus: nat, q: nat)
    requires Summary(lists, groups, cpus) && q <= cpus
    ensures groups[q] == 0 <==> FirstNonempty(lists[q], 0) == LEVELS
    ensures groups[q] == 0 ==> Highest(groups[q]) > LEVELS
    ensures groups[q] != 0 ==> Highest(groups[q]) == FirstNonempty(lists[q], 0)
  {
    hide Bit, Highest, FirstNonempty;
    WordFirst(lists[q], groups[q]);
  }

  lemma WordFirst(list: seq<seq<nat>>, g: nat)
    requires |list| == LEVELS && g < 0x1_0000_0000
    requires forall p :: 0 <= p < LEVELS ==> (Bit(g, p) <==> list[p] != [])
    ensures g == 0 <==> FirstNonempty(list, 0) == LEVELS
    ensures g == 0 ==> Highest(g) > LEVELS
    ensures g != 0 ==> Highest(g) == FirstNonempty(list, 0)
  {
    hide Bit, Pow2, FirstNonempty;
    var first := FirstNonempty(list, 0);
    ByteSize();
    ZeroWord(g, 32);
    if g != 0 {
      var k := Ffs(g) - 1;
      assert IsLeast(g, k);
      SmallBit(g, 32, k);
      assert list[k] != [];
      assert Bit(g, first);
      assert k == first;
    }
  }

  lemma MarkGroup(lists: Lists, groups: seq<nat>, cpus: nat, q: nat, p: nat, list: seq<nat>)
    requires Summary(lists, groups, cpus) && q <= cpus && p < LEVELS && list != []
    ensures Summary(Put(lists, q, p, list), groups[q := Or(groups[q], Pow2(p))], cpus)
  {
    hide Bit, Or, Pow2;
    ByteSize();
    SetBit(groups[q], p, 32);
  }

  lemma UnmarkGroup(lists: Lists, groups: seq<nat>, cpus: nat, q: nat, p: nat, list: seq<nat>)
    requires Summary(lists, groups, cpus) && q <= cpus && p < LEVELS && (list != [] ==> lists[q][p] != [])
    ensures list != [] ==> Summary(Put(lists, q, p, list), groups, cpus)
    ensures list == [] ==> Summary(Put(lists, q, p, list), groups[q := And(groups[q], Not(Pow2(p), 32))], cpus)
  {
    hide Bit, And, Not, Pow2;
    ClearBit(groups[q], p);
  }

  // ------------------------------------------------------------------ where threads are

  ghost predicate MaskRight(c: Thread, cpus: nat) {
    c.prio < LEVELS && c.bind <= cpus && c.numberMask == Pow2(c.prio)
  }

  ghost predicate AllMasks(tcb: seq<Thread>, cpus: nat) {
    forall t :: 0 <= t < |tcb| && tcb[t].stat !in {Init, Close} ==> MaskRight(tcb[t], cpus)
  }

  /** Every list holds only ready threads of its place and priority, each once, and every ready
      thread that is not in `loose` is in a list. */
  ghost predicate Queued(tcb: seq<Thread>, lists: Lists, cpus: nat, loose: set<nat>)
    requires Shaped(lists, cpus)
  {
    && (forall q, p, t {:trigger t in lists[q][p]} :: 0 <= q <= cpus && 0 <= p < LEVELS && t in lists[q][p] ==>
          t < |tcb| && tcb[t].bind == q && tcb[t].prio == p && tcb[t].stat == Ready && t !in loose)
    && (forall t :: 0 <= t < |tcb| && tcb[t].stat == Ready && t !in loose ==>
          tcb[t].bind <= cpus && tcb[t].prio < LEVELS && t in lists[tcb[t].bind][tcb[t].prio])
    && (forall q, p :: 0 <= q <= cpus && 0 <= p < LEVELS ==> Distinct(lists[q][p]))
  }

  /** The current threads of the CPUs, -1 before a CPU is started, agree with `oncpu`; only they run. */
  ghost predicate Seated(tcb: seq<Thread>, current: seq<int>, cpus: nat) {
    && |current| == cpus
    && (forall c :: 0 <= c < cpus ==> -1 <= current[c] < |tcb|)
    && (forall c :: 0 <= c < cpus && current[c] >= 0 ==>
          tcb[current[c]].oncpu == c && tcb[current[c]].stat !in {Init, Ready})
    && (forall t :: 0 <= t < |tcb| ==> tcb[t].oncpu <= cpus)
    && (forall t :: 0 <= t < |tcb| && tcb[t].oncpu < cpus ==> current[tcb[t].oncpu] == t)
    && (forall t :: 0 <= t < |tcb| && tcb[t].stat == Running ==> tcb[t].oncpu < cpus)
  }

  datatype World = World(tcb: seq<Thread>, lists: Lists, current: seq<int>)

  ghost predicate Consistent(s: World, cpus: nat) {
    && Shaped(s.lists, cpus) && Queued(s.tcb, s.lists, cpus, {}) && AllMasks(s.tcb, cpus)
    && Seated(s.tcb, s.current, cpus)
  }

  /** A started thread that is not suspended is in exactly one place: current on one CPU and in no
      list, or current nowhere and once in the list of its binding and priority. */
  lemma OnePlace(s: World, cpus: nat, t: nat)
    requires Consistent(s, cpus) && t < |s.tcb| && s.tcb[t].stat in {Ready, Running}
    ensures s.tcb[t].stat == Running ==>
      && (exists c :: 0 <= c < cpus && s.current[c] == t)
      && (forall c, d :: 0 <= c < cpus && 0 <= d < cpus && s.current[c] == t && s.current[d] == t ==> c == d)
      && (forall q, p :: 0 <= q <= cpus && 0 <= p < LEVELS ==> t !in s.lists[q][p])
    ensures s.tcb[t].stat == Ready ==>
      && (forall c :: 0 <= c < cpus ==> s.current[c] != t)
      && s.tcb[t].bind <= cpus && s.tcb[t].prio < LEVELS && t in s.lists[s.tcb[t].bind][s.tcb[t].prio]
      && (forall q, p :: 0 <= q <= cpus && 0 <= p < LEVELS && t in s.lists[q][p] ==>
            q == s.tcb[t].bind && p == s.tcb[t].prio)
      && (forall q, p, i, j :: 0 <= q <= cpus && 0 <= p < LEVELS && 0 <= i < j < |s.lists[q][p]|
            ==> !(s.lists[q][p][i] == t == s.lists[q][p][j]))
  {
    if s.tcb[t].stat == Running {
      assert s.current[s.tcb[t].oncpu] == t;
    } else {
      forall q, p, i, j | 0 <= q <= cpus && 0 <= p < LEVELS && 0 <= i < j < |s.lists[q][p]|
        ensures !(s.lists[q][p][i] == t == s.lists[q][p][j])
      {
        assert Distinct(s.lists[q][p]);
      }
    }
  }

  lemma QueuedWithout(tcb: seq<Thread>, lists: Lists, cpus: nat, t: nat)
    requires Shaped(lists, cpus) && Queued(tcb, lists, cpus, {})
    requires t < |tcb| && tcb[t].prio < LEVELS && tcb[t].bind <= cpus
    ensures var c := tcb[t];
            Queued(tcb, Put(lists, c.bind, c.prio, Without(lists[c.bind][c.prio], t)), cpus, {t})
  {
    hide Distinct;
    var c := tcb[t];
    assert Distinct(lists[c.bind][c.prio]);
    WithoutMembers(lists[c.bind][c.prio], t);
  }

  lemma QueuedWith(tcb: seq<Thread>, lists: Lists, cpus: nat, t: nat, c: Thread, tail: bool)
    requires Shaped(lists, cpus) && Queued(tcb, lists, cpus, {t})
    requires t < |tcb| && c.prio < LEVELS && c.bind <= cpus && c.stat == Ready
    ensures Queued(tcb[t := c], Put(lists, c.bind, c.prio, Joined(lists[c.bind][c.prio], t, tail)), cpus, {})
  {
    hide Distinct;
    var list := lists[c.bind][c.prio];
    assert Distinct(list) && t !in list;
    DistinctWith(list, t);
    assert forall x :: x in Joined(list, t, tail) <==> x in list || x == t;
    assert Distinct(Joined(list, t, tail));
    hide Joined;
  }

  lemma QueuedChanged(tcb: seq<Thread>, lists: Lists, cpus: nat, t: nat, c: Thread)
    requires Shaped(lists, cpus) && Queued(tcb, lists, cpus, {t}) && t < |tcb| && c.stat != Ready
    ensures Queued(tcb[t := c], lists, cpus, {})
  {
    hide Distinct;
  }

  lemma QueuedLoose(tcb: seq<Thread>, lists: Lists, cpus: nat, t: nat)
    requires Shaped(lists, cpus) && Queued(tcb, lists, cpus, {}) && t < |tcb| && tcb[t].stat != Ready
    ensures Queued(tcb, lists, cpus, {t})
  {
    hide Distinct;
  }

  // ------------------------------------------------------------------ one scheduling decision

  /** The most urgent priority among the unbound threads and those bound to `cpu`, and its place;
      on a tie the bound threads go first. */
  function Top(lists: Lists, cpus: nat, cpu: nat): (nat, nat)
    requires |lists| == cpus + 1 && cpu < cpus
  {
    var g, l := FirstNonempty(lists[cpus], 0), FirstNonempty(lists[cpu], 0);
    if g < l then (cpus, g) else (cpu, l)
  }

  predicate Stays(c: Thread, cpus: nat, cpu: nat, highest: nat) {
    c.stat == Running && (c.bind == cpus || c.bind == cpu) &&
    (c.prio < highest || (c.prio == highest && !c.yielding))
  }

  /** What `rt_schedule` does on `cpu` when the scheduler is not locked. */
  ghost function Scheduled(s: World, cpus: nat, cpu: nat): (r: World)
    requires Consistent(s, cpus) && cpu < cpus && s.current[cpu] >= 0
  {
    var (place, h) := Top(s.lists, cpus, cpu);
    var t := s.current[cpu];
    if h == LEVELS then s
    else if Stays(s.tcb[t], cpus, cpu, h) then s.(tcb := s.tcb[t := s.tcb[t].(yielding := false)])
    else
      assert s.lists[place][h][0] in s.lists[place][h];
      TakenFrom(Displaced(s, cpus, cpu), cpus, cpu, s.lists[place][h][0])
  }

  /** The current thread leaves the CPU; if it still runs it is queued, at the tail if it yields. */
  ghost function Displaced(s: World, cpus: nat, cpu: nat): World
    requires Consistent(s, cpus) && cpu < cpus && s.current[cpu] >= 0
  {
    var t := s.current[cpu];
    var c := s.tcb[t];
    if c.stat != Running then s.(tcb := s.tcb[t := c.(oncpu := cpus)])
    else
      assert MaskRight(c, cpus);
      World(s.tcb[t := c.(oncpu := cpus, stat := Ready, yielding := false)],
            Put(s.lists, c.bind, c.prio, Joined(s.lists[c.bind][c.prio], t, c.yielding)), s.current)
  }

  ghost function TakenFrom(s: World, cpus: nat, cpu: nat, to: nat): World
    requires Shaped(s.lists, cpus) && cpu < |s.current| && to < |s.tcb|
    requires s.tcb[to].prio < LEVELS && s.tcb[to].bind <= cpus
  {
    var c := s.tcb[to];
    World(s.tcb[to := c.(stat := Running, oncpu := cpu)],
          Put(s.lists, c.bind, c.prio, Without(s.lists[c.bind][c.prio], to)), s.current[cpu := to])
  }

  lemma DisplacedQueued(s: World, cpus: nat, cpu: nat)
    requires Consistent(s, cpus) && cpu < cpus && s.current[cpu] >= 0
    ensures var d := Displaced(s, cpus, cpu);
            Shaped(d.lists, cpus) && Queued(d.tcb, d.lists, cpus, {}) && AllMasks(d.tcb, cpus)
  {
    hide Queued;
    var t := s.current[cpu];
    var c := s.tcb[t];
    QueuedLoose(s.tcb, s.lists, cpus, t);
    if c.stat == Running {
      QueuedWith(s.tcb, s.lists, cpus, t, c.(oncpu := cpus, stat := Ready, yielding := false), c.yielding);
    } else {
      QueuedChanged(s.tcb, s.lists, cpus, t, c.(oncpu := cpus));
    }
  }

  /** Scheduling on one CPU keeps lists, states and CPUs in step. */
  lemma ScheduledConsistent(s: World, cpus: nat, cpu: nat)
    requires Consistent(s, cpus) && cpu < cpus && s.current[cpu] >= 0
    ensures Consistent(Scheduled(s, cpus, cpu), cpus)
  {
    var (place, h) := Top(s.lists, cpus, cpu);
    var t := s.current[cpu];
    var c := s.tcb[t];
    if h == LEVELS {
    } else if Stays(c, cpus, cpu, h) {
      QueuedLoose(s.tcb, s.lists, cpus, t);
      hide Queued;
      QueuedChanged(s.tcb, s.lists, cpus, t, c.(yielding := false));
    } else {
      var to := s.lists[place][h][0];
      assert to in s.lists[place][h];
      assert to != t && s.tcb[to].stat == Ready && MaskRight(s.tcb[to], cpus);
      hide Queued;
      DisplacedQueued(s, cpus, cpu);
      TakenQueued(Displaced(s, cpus, cpu), cpus, cpu, to);
      SwitchSeated(s, cpus, cpu, to);
    }
  }

  lemma TakenQueued(d: World, cpus: nat, cpu: nat, to: nat)
    requires Shaped(d.lists, cpus) && Queued(d.tcb, d.lists, cpus, {}) && AllMasks(d.tcb, cpus)
    requires cpu < |d.current| && to < |d.tcb| && MaskRight(d.tcb[to], cpus)
    ensures var r := TakenFrom(d, cpus, cpu, to);
            Shaped(r.lists, cpus) && Queued(r.tcb, r.lists, cpus, {}) && AllMasks(r.tcb, cpus)
  {
    hide Queued;
    var c := d.tcb[to];
    QueuedWithout(d.tcb, d.lists, cpus, to);
    QueuedChanged(d.tcb, Put(d.lists, c.bind, c.prio, Without(d.lists[c.bind][c.prio], to)), cpus, to,
                  c.(stat := Running, oncpu := cpu));
  }

  lemma SwitchSeated(s: World, cpus: nat, cpu: nat, to: nat)
    requires Consistent(s, cpus) && cpu < cpus && s.current[cpu] >= 0
    requires to < |s.tcb| && s.tcb[to].stat == Ready && MaskRight(s.tcb[to], cpus)
    ensures to != s.current[cpu]
    ensures var r := TakenFrom(Displaced(s, cpus, cpu), cpus, cpu, to); Seated(r.tcb, r.current, cpus)
  {
    hide Queued, AllMasks;
  }

  /** After a scheduling decision on a CPU nothing it may pick is more urgent than its current thread,
      which runs, unless there was nothing to run. */
  lemma MostUrgentRuns(s: World, cpus: nat, cpu: nat)
    requires Consistent(s, cpus) && cpu < cpus && s.current[cpu] >= 0
    requires s.tcb[s.current[cpu]].stat == Running || Top(s.lists, cpus, cpu).1 < LEVELS
    ensures var r := Scheduled(s, cpus, cpu);
            && |r.current| == cpus && 0 <= r.current[cpu] < |r.tcb| && |r.lists| == cpus + 1
            && r.tcb[r.current[cpu]].stat == Running
            && forall q, p, t :: q in {cpu, cpus} && 0 <= p < |r.lists[q]| && t in r.lists[q][p] ==>
                 r.tcb[r.current[cpu]].prio <= p
  {
    var (place, h) := Top(s.lists, cpus, cpu);
    var t0 := s.current[cpu];
    var r := Scheduled(s, cpus, cpu);
    assert forall q, p :: q in {cpu, cpus} && 0 <= p < h ==> s.lists[q][p] == [];
    if h < LEVELS && !Stays(s.tcb[t0], cpus, cpu, h) {
      var to := s.lists[place][h][0];
      assert to in s.lists[place][h];
      forall q, p, t | q in {cpu, cpus} && 0 <= p < LEVELS && t in r.lists[q][p] ensures h <= p {
        DisplacedTaken(s, cpus, cpu, to, q, p, t);
      }
    }
  }

  lemma DisplacedTaken(s: World, cpus: nat, cpu: nat, to: nat, q: nat, p: nat, t: nat)
    requires Consistent(s, cpus) && cpu < cpus && s.current[cpu] >= 0 && q <= cpus && p < LEVELS
    requires to < |s.tcb| && s.tcb[to].stat == Ready && MaskRight(s.tcb[to], cpus)
    requires t in TakenFrom(Displaced(s, cpus, cpu), cpus, cpu, to).lists[q][p]
    ensures var k := s.current[cpu];
            t in s.lists[q][p] || (t == k && s.tcb[k].stat == Running && p == s.tcb[k].prio && q == s.tcb[k].bind)
  {
    DisplacedQueued(s, cpus, cpu);
    var d := Displaced(s, cpus, cpu);
    WithoutMembers(d.lists[d.tcb[to].bind][d.tcb[to].prio], to);
  }

  /** No thread `cpu` may pick is more urgent than `h`, and one is as urgent. */
  ghost predicate IsTop(lists: Lists, cpus: nat, cpu: nat, h: nat) {
    && Shaped(lists, cpus) && cpu < cpus && h < LEVELS && (lists[cpu][h] != [] || lists[cpus][h] != [])
    && forall q, p :: q in {cpu, cpus} && 0 <= p < h ==> lists[q][p] == []
  }

  /** Where the next thread comes from: the CPU's own list goes before the shared one. */
  ghost function Served(lists: Lists, cpus: nat, cpu: nat, h: nat): nat
    requires IsTop(lists, cpus, cpu, h)
  {
    if lists[cpu][h] != [] then cpu else cpus
  }

  /** The current thread may run on `cpu`, nothing is more urgent and, if it yields, nothing as urgent. */
  ghost predicate RunsOn(s: World, cpus: nat, cpu: nat)
    requires Consistent(s, cpus) && cpu < cpus && s.current[cpu] >= 0
  {
    var c := s.tcb[s.current[cpu]];
    c.bind in {cpu, cpus} && forall q, p :: q in {cpu, cpus} && 0 <= p < LEVELS && s.lists[q][p] != [] ==>
      c.prio < p || (c.prio == p && !c.yielding)
  }

  /**
   One decision with the current thread running and another one ready. It runs on exactly as `RunsOn`
   says. If not, the head of the list that is served takes over, and the thread displaced is queued where
   it is bound: behind its equals if it has yielded, before them if it was preempted.
   */
  lemma Decision(s: World, cpus: nat, cpu: nat, h: nat)
    requires Consistent(s, cpus) && cpu < cpus && s.current[cpu] >= 0
    requires s.tcb[s.current[cpu]].stat == Running && IsTop(s.lists, cpus, cpu, h)
    ensures var k, r, place := s.current[cpu], Scheduled(s, cpus, cpu), Served(s.lists, cpus, cpu, h);
            var c := s.tcb[k];
            && c.bind <= cpus && c.prio < LEVELS && Shaped(r.lists, cpus) && |r.current| == cpus && |r.tcb| == |s.tcb|
            && (r.current[cpu] == k <==> RunsOn(s, cpus, cpu))
            && (r.current[cpu] == k ==>
                  r.lists == s.lists && r.current == s.current && r.tcb[k] == c.(yielding := false))
            && (r.current[cpu] != k ==>
                  var former := s.lists[c.bind][c.prio];
                  var others := if place == c.bind && h == c.prio then former[1..] else former;
                  && r.current == s.current[cpu := s.lists[place][h][0]] && r.current[cpu] < |s.tcb|
                  && r.lists[c.bind][c.prio] == (if c.yielding then others + [k] else [k] + others)
                  && (place != c.bind || h != c.prio ==> r.lists[place][h] == s.lists[place][h][1..])
                  && r.tcb[k] == c.(stat := Ready, yielding := false, oncpu := cpus)
                  && r.tcb[r.current[cpu]] == s.tcb[r.current[cpu]].(stat := Running, oncpu := cpu))
            && (forall q, p :: 0 <= q <= cpus && 0 <= p < LEVELS
                               && (q != place || p != h) && (q != c.bind || p != c.prio)
                  ==> r.lists[q][p] == s.lists[q][p])
            && (forall x :: 0 <= x < |s.tcb| && x != k && x != r.current[cpu] ==> r.tcb[x] == s.tcb[x])
  {
    var k, place := s.current[cpu], Served(s.lists, cpus, cpu, h);
    assert MaskRight(s.tcb[k], cpus);
    TopIs(s.lists, cpus, cpu, h);
    HeadReady(s, cpus, cpu, h);
    var list := s.lists[place][h];
    hide Queued, AllMasks, Seated, IsTop;
    WithoutHead(list, k);
    StaysIs(s, cpus, cpu, h);
  }

  /** With nothing ready that the CPU may run, a decision changes nothing, not even the yield mark. */
  lemma NobodyElse(s: World, cpus: nat, cpu: nat)
    requires Consistent(s, cpus) && cpu < cpus && s.current[cpu] >= 0
    requires forall q, p :: q in {cpu, cpus} && 0 <= p < LEVELS ==> s.lists[q][p] == []
    ensures Scheduled(s, cpus, cpu) == s
  {
    assert Top(s.lists, cpus, cpu).1 == LEVELS;
  }

  /** The decision to go on is taken on the most urgent list alone. */
  lemma StaysIs(s: World, cpus: nat, cpu: nat, h: nat)
    requires Consistent(s, cpus) && cpu < cpus && s.current[cpu] >= 0
    requires s.tcb[s.current[cpu]].stat == Running && IsTop(s.lists, cpus, cpu, h)
    ensures Stays(s.tcb[s.current[cpu]], cpus, cpu, h) <==> RunsOn(s, cpus, cpu)
  {
    hide Queued, AllMasks, Seated;
  }

  lemma WithoutHead(list: seq<nat>, k: nat)
    requires list != []
    ensures Without(list, list[0]) == list[1..]
    ensures Without(list + [k], list[0]) == list[1..] + [k]
  {
    assert (list + [k])[1..] == list[1..] + [k];
  }

  /** The thread that is served is ready there, and not the current one. */
  lemma HeadReady(s: World, cpus: nat, cpu: nat, h: nat)
    requires Consistent(s, cpus) && cpu < cpus && IsTop(s.lists, cpus, cpu, h)
    ensures var place := Served(s.lists, cpus, cpu, h);
            && s.lists[place][h] != []
            && var to := s.lists[place][h][0];
               to < |s.tcb| && to != s.current[cpu]
               && s.tcb[to].prio == h && s.tcb[to].bind == place && s.tcb[to].stat == Ready
  {
    var place := Served(s.lists, cpus, cpu, h);
    assert s.lists[place][h][0] in s.lists[place][h];
  }

  /** With the current thread off the processor, the head of the list that is served runs next. */
  lemma HeadRuns(s: World, cpus: nat, cpu: nat, h: nat)
    requires Consistent(s, cpus) && cpu < cpus && s.current[cpu] >= 0
    requires s.tcb[s.current[cpu]].stat != Running && IsTop(s.lists, cpus, cpu, h)
    ensures var r, place := Scheduled(s, cpus, cpu), Served(s.lists, cpus, cpu, h);
            && |r.current| == cpus && r.current[cpu] == s.lists[place][h][0]
            && Shaped(r.lists, cpus) && r.lists[place][h] == s.lists[place][h][1..]
  {
    var place := Served(s.lists, cpus, cpu, h);
    TopIs(s.lists, cpus, cpu, h);
    HeadReady(s, cpus, cpu, h);
    hide Queued, AllMasks, Seated, IsTop;
    WithoutHead(s.lists[place][h], 0);
  }

  /** A thread preempted without having yielded stands before its waiting equals. */
  lemma PreemptedFirst(s: World, cpus: nat, cpu: nat)
    requires Consistent(s, cpus) && cpu < cpus && s.current[cpu] >= 0
    requires s.tcb[s.current[cpu]].stat == Running && !s.tcb[s.current[cpu]].yielding
    requires |Scheduled(s, cpus, cpu).current| == cpus && Scheduled(s, cpus, cpu).current[cpu] != s.current[cpu]
    ensures var r, c := Scheduled(s, cpus, cpu), s.tcb[s.current[cpu]];
            && Consistent(r, cpus) && 0 <= r.current[cpu] < |r.tcb| && r.tcb[r.current[cpu]].stat == Running
            && c.bind <= cpus && c.prio < LEVELS
            && (c.bind in {cpu, cpus}
                && (forall q, p :: q in {cpu, cpus} && 0 <= p < c.prio ==> r.lists[q][p] == []) ==>
                  r.lists[c.bind][c.prio] == [s.current[cpu]] + s.lists[c.bind][c.prio])
  {
    var c, h := s.tcb[s.current[cpu]], Top(s.lists, cpus, cpu).1;
    ScheduledConsistent(s, cpus, cpu);
    assert IsTop(s.lists, cpus, cpu, h);
    Decision(s, cpus, cpu, h);
    SwitchKeepsCpu(s, cpus, cpu);
    hide Scheduled, Queued, AllMasks, Seated, Served;
  }

  /**
   A thread preempted without having yielded is back before any of its waiting equals of the same
   table, once what preempted it has gone to sleep and nothing else that is served is as urgent.
   */
  lemma PreemptedReturns(s: World, cpus: nat, cpu: nat)
    requires Consistent(s, cpus) && cpu < cpus && s.current[cpu] >= 0
    requires var c := s.tcb[s.current[cpu]];
             c.stat == Running && !c.yielding && c.bind in {cpu, cpus} && c.prio < LEVELS
    requires |Scheduled(s, cpus, cpu).current| == cpus && Scheduled(s, cpus, cpu).current[cpu] != s.current[cpu]
    requires var c, r := s.tcb[s.current[cpu]], Scheduled(s, cpus, cpu);
             && Shaped(r.lists, cpus) && (forall q, p :: q in {cpu, cpus} && 0 <= p < c.prio ==> r.lists[q][p] == [])
             && (c.bind == cpus ==> r.lists[cpu][c.prio] == [])
    ensures Consistent(Scheduled(s, cpus, cpu), cpus)
    ensures var r := Scheduled(s, cpus, cpu); 0 <= r.current[cpu] < |r.tcb| && r.tcb[r.current[cpu]].stat == Running
    ensures var c, r := s.tcb[s.current[cpu]], Scheduled(Suspended(Scheduled(s, cpus, cpu), cpus, cpu), cpus, cpu);
            && |r.current| == cpus && r.current[cpu] == s.current[cpu]
            && Shaped(r.lists, cpus) && r.lists[c.bind][c.prio] == s.lists[c.bind][c.prio]
  {
    var k, r := s.current[cpu], Scheduled(s, cpus, cpu);
    PreemptedFirst(s, cpus, cpu);
    hide Scheduled, Queued, AllMasks, Seated;
    HeadRuns(Suspended(r, cpus, cpu), cpus, cpu, s.tcb[k].prio);
  }

  // ------------------------------------------------------------------ yielding

  /** The world in which the current thread of `cpu` has asked to yield. */
  ghost function Asking(s: World, cpus: nat, cpu: nat): (r: World)
    requires Consistent(s, cpus) && cpu < cpus && s.current[cpu] >= 0
    ensures Consistent(r, cpus)
  {
    var t := s.current[cpu];
    QueuedLoose(s.tcb, s.lists, cpus, t);
    QueuedChanged(s.tcb, s.lists, cpus, t, s.tcb[t].(yielding := true));
    s.(tcb := s.tcb[t := s.tcb[t].(yielding := true)])
  }

  /** One yield among equals that wait in one place. */
  function Rotated(running: nat, peers: seq<nat>): (nat, seq<nat>) {
    if peers == [] then (running, []) else (peers[0], peers[1..] + [running])
  }

  /** A thread that yields goes behind all its equals waiting in the same place; the one that takes
      over comes from the head of the list of equals in the place that is served first. */
  lemma YieldBehind(s: World, cpus: nat, cpu: nat)
    requires Consistent(s, cpus) && cpu < cpus && s.current[cpu] >= 0
    requires var c := s.tcb[s.current[cpu]]; c.stat == Running && c.yielding && c.bind in {cpu, cpus}
    requires Top(s.lists, cpus, cpu).1 == s.tcb[s.current[cpu]].prio
    ensures var k, r, place := s.current[cpu], Scheduled(s, cpus, cpu), Top(s.lists, cpus, cpu).0;
            var p, home := s.tcb[k].prio, s.tcb[k].bind;
            && p < LEVELS && Shaped(r.lists, cpus) && |r.current| == cpus && s.lists[place][p] != []
            && r.current[cpu] == s.lists[place][p][0]
            && (place == home ==> (r.current[cpu], r.lists[home][p]) == Rotated(k, s.lists[home][p]))
            && (place != home ==> r.lists[home][p] == s.lists[home][p] + [k])
            && (place != home ==> r.lists[place][p] == s.lists[place][p][1..])
            && (forall q, x :: 0 <= q <= cpus && 0 <= x < LEVELS && (x != p || q !in {home, place}) ==>
                  r.lists[q][x] == s.lists[q][x])
  {
    var k, place := s.current[cpu], Top(s.lists, cpus, cpu).0;
    var p := s.tcb[k].prio;
    assert MaskRight(s.tcb[k], cpus);
    var list := s.lists[place][p];
    var to := list[0];
    assert to in list && s.tcb[to].prio == p && s.tcb[to].bind == place && to != k;
    assert Without(list, to) == list[1..];
    assert Without(list + [k], to) == list[1..] + [k];
  }

  function RotatedBy(running: nat, peers: seq<nat>, n: nat): (nat, seq<nat>)
    decreases n
  {
    if n == 0 then (running, peers)
    else var next := Rotated(running, peers); RotatedBy(next.0, next.1, n - 1)
  }

  /** Rotation in a circle. */
  lemma {:induction false} Circle(running: nat, peers: seq<nat>, n: nat)
    requires n <= |peers|
    ensures var all := [running] + peers;
            RotatedBy(running, peers, n).0 == all[n] && RotatedBy(running, peers, n).1 == all[n + 1..] + all[..n]
    decreases n
  {
    if n == 0 {
      assert ([running] + peers)[1..] + [] == peers;
      return;
    }
    var all, next := [running] + peers, Rotated(running, peers);
    var turned := [next.0] + next.1;
    assert turned == all[1..] + [all[0]];
    Circle(next.0, next.1, n - 1);
    assert turned[n - 1] == all[n];
    assert turned[n..] + turned[..n - 1] == all[n + 1..] + all[..n];
  }

  /** One yield of the current thread of a CPU, and `n` of them in a row. */
  ghost function YieldStep(s: World, cpus: nat, cpu: nat): World {
    if Consistent(s, cpus) && cpu < cpus && s.current[cpu] >= 0
    then Scheduled(Asking(s, cpus, cpu), cpus, cpu) else s
  }

  ghost function YieldRun(s: World, cpus: nat, cpu: nat, n: nat): World
    decreases n
  {
    if n == 0 then s else YieldRun(YieldStep(s, cpus, cpu), cpus, cpu, n - 1)
  }

  lemma SwitchKeepsCpu(s: World, cpus: nat, cpu: nat)
    requires Consistent(s, cpus) && cpu < cpus && s.current[cpu] >= 0
    ensures |Scheduled(s, cpus, cpu).current| == cpus && Scheduled(s, cpus, cpu).current[cpu] >= 0
  {
  }

  /** The current thread is bound to its CPU, runs, and has an equal that is bound there too; nothing
      is more urgent. */
  ghost predicate BoundPair(s: World, cpus: nat, cpu: nat) {
    && Consistent(s, cpus) && cpu < cpus && s.current[cpu] >= 0
    && var c := s.tcb[s.current[cpu]];
       c.stat == Running && c.bind == cpu && c.prio < LEVELS && s.lists[cpu][c.prio] != []
       && Top(s.lists, cpus, cpu).1 == c.prio
  }

  /** Unbound threads are shut out: while threads bound to a CPU yield to each other and nothing is
      more urgent, no number of yields takes an unbound thread of their priority from its list. */
  lemma {:induction false} BoundShutOutUnbound(s: World, cpus: nat, cpu: nat, n: nat)
    requires BoundPair(s, cpus, cpu)
    ensures var r := YieldRun(s, cpus, cpu, n);
            BoundPair(r, cpus, cpu) && r.lists[cpus] == s.lists[cpus]
    decreases n
  {
    hide BoundPair, YieldStep;
    if n > 0 {
      BoundYield(s, cpus, cpu);
      BoundShutOutUnbound(YieldStep(s, cpus, cpu), cpus, cpu, n - 1);
    }
  }

  lemma BoundYield(s: World, cpus: nat, cpu: nat)
    requires BoundPair(s, cpus, cpu)
    ensures var r := YieldStep(s, cpus, cpu);
            BoundPair(r, cpus, cpu) && r.lists[cpus] == s.lists[cpus]
  {
    var asking := Asking(s, cpus, cpu);
    ScheduledConsistent(asking, cpus, cpu);
    BoundYieldAgain(s, cpus, cpu);
  }

  lemma BoundYieldAgain(s: World, cpus: nat, cpu: nat)
    requires BoundPair(s, cpus, cpu)
    ensures var r := Scheduled(Asking(s, cpus, cpu), cpus, cpu); var p := s.tcb[s.current[cpu]].prio;
            && Shaped(r.lists, cpus) && |r.current| == cpus && 0 <= r.current[cpu] < |r.tcb|
            && r.lists[cpus] == s.lists[cpus]
            && r.tcb[r.current[cpu]].stat == Running && r.tcb[r.current[cpu]].bind == cpu
            && r.tcb[r.current[cpu]].prio == p
            && Top(r.lists, cpus, cpu).1 == p && r.lists[cpu][p] != []
  {
    var asking := Asking(s, cpus, cpu);
    var k := s.current[cpu];
    var p := s.tcb[k].prio;
    YieldBehind(asking, cpus, cpu);
    var to := s.lists[cpu][p][0];
    assert to in s.lists[cpu][p];
    var r := Scheduled(asking, cpus, cpu);
    assert r.lists[cpus] == s.lists[cpus];
    assert forall x :: 0 <= x < p ==> r.lists[cpu][x] == s.lists[cpu][x] == [];
  }

  /** A running thread whose equals a CPU may pick wait in two tables, its own and the shared one. */
  datatype Equals = Equals(running: nat, bound: bool, own: seq<nat>, shared: seq<nat>)

  /** One yield: the own table is served first, and the running thread goes to the tail where it belongs. */
  function Next(e: Equals): Equals {
    if e.own != [] then
      Equals(e.own[0], true, e.own[1..] + (if e.bound then [e.running] else []),
             e.shared + (if e.bound then [] else [e.running]))
    else if e.shared != [] then
      Equals(e.shared[0], false, if e.bound then [e.running] else [],
             e.shared[1..] + (if e.bound then [] else [e.running]))
    else e
  }

  function NextBy(e: Equals, n: nat): Equals
    decreases n
  {
    if n == 0 then e else NextBy(Next(e), n - 1)
  }

  /** How many of the equals are bound to the CPU, the running one counted. */
  function BoundOnes(e: Equals): nat {
    |e.own| + if e.bound then 1 else 0
  }

  /** The current thread of the CPU runs where it may, and nothing the CPU may pick is more urgent. */
  ghost predicate Level(s: World, cpus: nat, cpu: nat) {
    && Consistent(s, cpus) && cpu < cpus && s.current[cpu] >= 0
    && var c := s.tcb[s.current[cpu]];
       && c.stat == Running && c.bind in {cpu, cpus} && c.prio < LEVELS
       && forall q, p :: q in {cpu, cpus} && 0 <= p < c.prio ==> s.lists[q][p] == []
  }

  ghost function EqualsOf(s: World, cpus: nat, cpu: nat): Equals
    requires Level(s, cpus, cpu)
  {
    var k := s.current[cpu];
    var p := s.tcb[k].prio;
    Equals(k, s.tcb[k].bind == cpu, s.lists[cpu][p], s.lists[cpus][p])
  }

  /** A yield of the scheduler is one step among the equals, and leaves nothing more urgent. */
  lemma LevelOn(s: World, cpus: nat, cpu: nat)
    requires Level(s, cpus, cpu)
    ensures var r := YieldStep(s, cpus, cpu);
            Level(r, cpus, cpu) && EqualsOf(r, cpus, cpu) == Next(EqualsOf(s, cpus, cpu))
  {
    var asking := Asking(s, cpus, cpu);
    ScheduledConsistent(asking, cpus, cpu);
    var p := s.tcb[s.current[cpu]].prio;
    if s.lists[cpu][p] == [] && s.lists[cpus][p] == [] {
      AloneStays(s, cpus, cpu);
    } else {
      EqualTakesOver(s, cpus, cpu);
    }
  }

  lemma AloneStays(s: World, cpus: nat, cpu: nat)
    requires Level(s, cpus, cpu)
    requires var p := s.tcb[s.current[cpu]].prio; s.lists[cpu][p] == [] && s.lists[cpus][p] == []
    ensures var r := Scheduled(Asking(s, cpus, cpu), cpus, cpu);
            r.lists == s.lists && r.current == s.current && |r.tcb| == |s.tcb|
            && r.tcb[s.current[cpu]].(yielding := false) == s.tcb[s.current[cpu]].(yielding := false)
  {
    hide Queued, AllMasks;
    var h := Top(s.lists, cpus, cpu).1;
    assert h > s.tcb[s.current[cpu]].prio;
  }

  lemma EqualTakesOver(s: World, cpus: nat, cpu: nat)
    requires Level(s, cpus, cpu)
    requires var p := s.tcb[s.current[cpu]].prio; s.lists[cpu][p] != [] || s.lists[cpus][p] != []
    ensures var r, e := Scheduled(Asking(s, cpus, cpu), cpus, cpu), Next(EqualsOf(s, cpus, cpu));
            var p := s.tcb[s.current[cpu]].prio;
            && Shaped(r.lists, cpus) && |r.current| == cpus && r.current[cpu] == e.running < |r.tcb|
            && r.tcb[e.running].stat == Running && r.tcb[e.running].prio == p
            && r.tcb[e.running].bind == (if e.bound then cpu else cpus)
            && r.lists[cpu][p] == e.own && r.lists[cpus][p] == e.shared
            && forall q, x :: q in {cpu, cpus} && 0 <= x < p ==> r.lists[q][x] == []
  {
    var asking, k := Asking(s, cpus, cpu), s.current[cpu];
    var p := s.tcb[k].prio;
    TopIs(s.lists, cpus, cpu, p);
    YieldBehind(asking, cpus, cpu);
    var place := if s.lists[cpu][p] != [] then cpu else cpus;
    var to := s.lists[place][p][0];
    assert to in s.lists[place][p];
    assert s.tcb[to].bind == place && s.tcb[to].prio == p;
  }

  lemma TopIs(lists: Lists, cpus: nat, cpu: nat, p: nat)
    requires Shaped(lists, cpus) && cpu < cpus && p < LEVELS
    requires forall q, x :: q in {cpu, cpus} && 0 <= x < p ==> lists[q][x] == []
    requires lists[cpu][p] != [] || lists[cpus][p] != []
    ensures Top(lists, cpus, cpu) == (if lists[cpu][p] != [] then cpu else cpus, p)
  {
  }

  /** Any number of yields of the scheduler. */
  lemma {:induction false} YieldRunIs(s: World, cpus: nat, cpu: nat, n: nat)
    requires Level(s, cpus, cpu)
    ensures var r := YieldRun(s, cpus, cpu, n);
            Level(r, cpus, cpu) && EqualsOf(r, cpus, cpu) == NextBy(EqualsOf(s, cpus, cpu), n)
    decreases n
  {
    hide Level, YieldStep, Next, EqualsOf;
    if n > 0 {
      LevelOn(s, cpus, cpu);
      YieldRunIs(YieldStep(s, cpus, cpu), cpus, cpu, n - 1);
    }
  }

  lemma RunningIs(s: World, cpus: nat, cpu: nat, n: nat)
    requires Level(s, cpus, cpu)
    ensures var r := YieldRun(s, cpus, cpu, n);
            cpu < |r.current| && r.current[cpu] == NextBy(EqualsOf(s, cpus, cpu), n).running
  {
    YieldRunIs(s, cpus, cpu, n);
    hide NextBy, YieldRun;
  }

  // ---------------------------------------------------------------- who gets a turn

  /** With equals in one table only, yields rotate that table. */
  lemma {:induction false} OneTable(e: Equals, n: nat)
    requires if e.bound then e.shared == [] else e.own == []
    ensures var r, peers := NextBy(e, n), RotatedBy(e.running, if e.bound then e.own else e.shared, n);
            r == if e.bound then e.(running := peers.0, own := peers.1) else e.(running := peers.0, shared := peers.1)
    decreases n
  {
    if n > 0 {
      OneTable(Next(e), n - 1);
    }
  }

  /** After `n` yields the `n`-th of the circle runs and the others wait in circular order. */
  lemma TakesTurns(s: World, cpus: nat, cpu: nat, n: nat)
    requires Level(s, cpus, cpu)
    requires var e := EqualsOf(s, cpus, cpu); if e.bound then e.shared == [] else e.own == []
    requires var e := EqualsOf(s, cpus, cpu); n <= |if e.bound then e.own else e.shared|
    ensures Level(YieldRun(s, cpus, cpu, n), cpus, cpu)
    ensures var e, r := EqualsOf(s, cpus, cpu), EqualsOf(YieldRun(s, cpus, cpu, n), cpus, cpu);
            var all := [e.running] + if e.bound then e.own else e.shared;
            r.running == all[n] && (if e.bound then r.own else r.shared) == all[n + 1..] + all[..n]
  {
    hide Level, YieldRun, NextBy, EqualsOf;
    var e := EqualsOf(s, cpus, cpu);
    YieldRunIs(s, cpus, cpu, n);
    OneTable(e, n);
    Circle(e.running, if e.bound then e.own else e.shared, n);
  }

  /** Every bound equal that waits runs within as many yields as its place in the list. */
  lemma {:induction false} OwnTurn(e: Equals, i: nat) returns (n: nat)
    requires i < |e.own|
    ensures n <= i + 1 && NextBy(e, n).running == e.own[i]
    decreases i
  {
    if i == 0 {
      assert NextBy(Next(e), 0) == Next(e);
      n := 1;
    } else {
      assert Next(e).own[i - 1] == e.own[i];
      n := OwnTurn(Next(e), i - 1);
      n := n + 1;
    }
  }

  /** With one bound thread at most, it alternates with the shared table, which so moves on. */
  lemma {:induction false} SharedTurn(e: Equals, i: nat) returns (n: nat)
    requires i < |e.shared| && BoundOnes(e) <= 1
    ensures n <= 2 * i + 1 + |e.own| && NextBy(e, n).running == e.shared[i]
    decreases i, |e.own|
  {
    var next := Next(e);
    if e.own != [] {
      assert next.shared[i] == e.shared[i];
      n := SharedTurn(next, i);
      n := n + 1;
    } else if i == 0 {
      assert NextBy(next, 0) == next;
      n := 1;
    } else {
      assert next.shared[i - 1] == e.shared[i];
      n := SharedTurn(next, i - 1);
      n := n + 1;
    }
  }

  /** With two bound threads or more, only bound ones ever run again. */
  lemma {:induction false} NeverRuns(e: Equals, x: nat, n: nat)
    requires BoundOnes(e) >= 2 && x != e.running && x !in e.own
    ensures NextBy(e, n).running != x
    decreases n
  {
    if n > 0 {
      var next := Next(e);
      assert e.own == [e.own[0]] + e.own[1..];
      assert next.running != x && x !in next.own && next.bound;
      if BoundOnes(next) >= 2 {
        NeverRuns(next, x, n - 1);
      }
    }
  }

  ghost predicate GetsTurn(s: World, cpus: nat, cpu: nat, x: nat) {
    exists n: nat :: TurnAt(s, cpus, cpu, x, n)
  }

  ghost predicate TurnAt(s: World, cpus: nat, cpu: nat, x: nat, n: nat) {
    var r := YieldRun(s, cpus, cpu, n); cpu < |r.current| && r.current[cpu] == x
  }

  /**
   While nothing more urgent appears, every equal that waits for a CPU gets its turn by yielding,
   exactly if no unbound one waits or at most one is bound to the CPU; and then it does so within
   twice as many yields as there are equals.
   */
  lemma FairTurns(s: World, cpus: nat, cpu: nat)
    requires Level(s, cpus, cpu)
    ensures var e := EqualsOf(s, cpus, cpu);
            (forall x :: x in e.own + e.shared ==> GetsTurn(s, cpus, cpu, x)) <==> e.shared == [] || BoundOnes(e) <= 1
    ensures var e := EqualsOf(s, cpus, cpu);
            e.shared == [] || BoundOnes(e) <= 1 ==>
              forall x :: x in e.own + e.shared ==>
                exists n: nat :: n <= 2 * |e.own + e.shared| && TurnAt(s, cpus, cpu, x, n)
  {
    hide Level, YieldRun, NextBy, EqualsOf, TurnAt;
    var e := EqualsOf(s, cpus, cpu);
    if e.shared == [] || BoundOnes(e) <= 1 {
      forall x | x in e.own + e.shared
        ensures exists n: nat :: n <= 2 * |e.own + e.shared| && TurnAt(s, cpus, cpu, x, n)
      {
        var n := TurnOf(s, cpus, cpu, x);
        assert TurnAt(s, cpus, cpu, x, n);
      }
    } else {
      ShutOut(s, cpus, cpu, e.shared[0]);
      assert e.shared[0] in e.shared;
    }
  }

  lemma TurnOf(s: World, cpus: nat, cpu: nat, x: nat) returns (n: nat)
    requires Level(s, cpus, cpu)
    requires var e := EqualsOf(s, cpus, cpu); x in e.own + e.shared && (e.shared == [] || BoundOnes(e) <= 1)
    ensures var e := EqualsOf(s, cpus, cpu); n <= 2 * |e.own + e.shared| && TurnAt(s, cpus, cpu, x, n)
  {
    hide Level, YieldRun, NextBy, EqualsOf;
    var e := EqualsOf(s, cpus, cpu);
    if x in e.own {
      var i :| 0 <= i < |e.own| && e.own[i] == x;
      n := OwnTurn(e, i);
    } else {
      var i :| 0 <= i < |e.shared| && e.shared[i] == x;
      n := SharedTurn(e, i);
    }
    RunningIs(s, cpus, cpu, n);
  }

  /** Two equals bound to the CPU shut every unbound one out for ever. */
  lemma ShutOut(s: World, cpus: nat, cpu: nat, x: nat)
    requires Level(s, cpus, cpu)
    requires var e := EqualsOf(s, cpus, cpu); BoundOnes(e) >= 2 && x in e.shared
    ensures !GetsTurn(s, cpus, cpu, x)
  {
    var e := EqualsOf(s, cpus, cpu);
    assert x != e.running && x !in e.own;
    hide Level, YieldRun, NextBy, EqualsOf;
    forall n: nat
      ensures !TurnAt(s, cpus, cpu, x, n)
    {
      NeverRuns(e, x, n);
      RunningIs(s, cpus, cpu, n);
    }
  }

  /** One CPU, three threads of priority 0: the running one and the next are bound to it, the third is not. */
  function Crowded(): World {
    var one := Thread(0, 1, Ready, false, 0, 1);
    World([one.(stat := Running, oncpu := 0), one, one.(bind := 1)],
          [seq(LEVELS, p requires 0 <= p < LEVELS => if p == 0 then [1] else []),
           seq(LEVELS, p requires 0 <= p < LEVELS => if p == 0 then [2] else [])], [0])
  }

  /** In such a world the third thread never runs. */
  lemma CrowdedOut()
    ensures var s := Crowded();
            BoundPair(s, 1, 0) && Level(s, 1, 0) && EqualsOf(s, 1, 0).shared == [2] && !GetsTurn(s, 1, 0, 2)
  {
    var s := Crowded();
    CrowdedConsistent();
    TopIs(s.lists, 1, 0, 0);
    assert 2 in EqualsOf(s, 1, 0).shared;
    ShutOut(s, 1, 0, 2);
  }

  lemma CrowdedConsistent()
    ensures Consistent(Crowded(), 1)
  {
    hide Queued;
    var s := Crowded();
    assert Pow2(0) == 1;
    CrowdedQueued();
    assert forall t :: 0 <= t < 3 ==> MaskRight(s.tcb[t], 1);
  }

  lemma CrowdedQueued()
    ensures var s := Crowded(); Shaped(s.lists, 1) && Queued(s.tcb, s.lists, 1, {})
  {
    var s := Crowded();
    assert forall q, p :: 0 <= q <= 1 && 0 <= p < LEVELS ==> s.lists[q][p] == if p == 0 then [q + 1] else [];
  }

  // ------------------------------------------------------------------ other changes of a thread

  /** The lists after `rt_schedule_insert_thread` and `rt_schedule_remove_thread`. */
  function Inserted(c: Thread, lists: Lists, cpus: nat, t: nat): Lists
    requires Shaped(lists, cpus) && c.bind <= cpus && c.prio < LEVELS
  {
    if c.oncpu != cpus then lists else Put(lists, c.bind, c.prio, Joined(lists[c.bind][c.prio], t, c.yielding))
  }

  function Removed(c: Thread, lists: Lists, cpus: nat, t: nat): Lists
    requires Shaped(lists, cpus) && c.bind <= cpus && c.prio < LEVELS
  {
    Put(lists, c.bind, c.prio, Without(lists[c.bind][c.prio], t))
  }

  /** A suspended thread comes back: it runs on if it has not left its CPU yet, else it is queued. */
  ghost function Resumed(s: World, cpus: nat, t: nat): (r: World)
    requires Consistent(s, cpus) && t < |s.tcb| && s.tcb[t].stat == Suspend
    ensures Consistent(r, cpus) && |r.tcb| == |s.tcb| && r.current == s.current
    ensures s.tcb[t].oncpu != cpus ==> r.tcb[t].stat == Running && r.lists == s.lists
    ensures var c := s.tcb[t];
            c.oncpu == cpus ==>
              && r.tcb[t].stat == Ready && c.bind <= cpus && c.prio < LEVELS
              && r.lists[c.bind][c.prio] ==
                 if c.yielding then s.lists[c.bind][c.prio] + [t] else [t] + s.lists[c.bind][c.prio]
  {
    var c := s.tcb[t].(stat := if s.tcb[t].oncpu != cpus then Running else Ready);
    assert MaskRight(c, cpus);
    QueuedLoose(s.tcb, s.lists, cpus, t);
    if c.stat == Running then
      QueuedChanged(s.tcb, s.lists, cpus, t, c);
      s.(tcb := s.tcb[t := c])
    else
      QueuedWith(s.tcb, s.lists, cpus, t, c, c.yielding);
      s.(tcb := s.tcb[t := c], lists := Inserted(c, s.lists, cpus, t))
  }

  /** A thread gets another priority or binding; if it is ready it changes lists. */
  ghost function Refiled(s: World, cpus: nat, t: nat, c: Thread): (r: World)
    requires Consistent(s, cpus) && t < |s.tcb| && MaskRight(c, cpus)
    requires c.stat == s.tcb[t].stat && c.oncpu == s.tcb[t].oncpu
    ensures Consistent(r, cpus)
  {
    if c.stat == Ready then
      QueuedWithout(s.tcb, s.lists, cpus, t);
      QueuedWith(s.tcb, Removed(s.tcb[t], s.lists, cpus, t), cpus, t, c, c.yielding);
      s.(tcb := s.tcb[t := c], lists := Inserted(c, Removed(s.tcb[t], s.lists, cpus, t), cpus, t))
    else
      QueuedLoose(s.tcb, s.lists, cpus, t);
      QueuedChanged(s.tcb, s.lists, cpus, t, c);
      s.(tcb := s.tcb[t := c])
  }

  /** A ready thread leaves its list and stands first in the one it goes to, or last if it has yielded. */
  lemma RefiledAt(s: World, cpus: nat, t: nat, c: Thread)
    requires Consistent(s, cpus) && t < |s.tcb| && MaskRight(c, cpus)
    requires c.stat == s.tcb[t].stat && c.oncpu == s.tcb[t].oncpu
    ensures var r := Refiled(s, cpus, t, c);
            && r.tcb == s.tcb[t := c] && r.current == s.current && (c.stat != Ready ==> r.lists == s.lists)
            && (c.stat == Ready ==>
                  forall q, p :: 0 <= q <= cpus && 0 <= p < LEVELS ==>
                    var home := q == s.tcb[t].bind && p == s.tcb[t].prio;
                    var rest := if home then Without(s.lists[q][p], t) else s.lists[q][p];
                    r.lists[q][p] ==
                      if q != c.bind || p != c.prio then rest else if c.yielding then rest + [t] else [t] + rest)
  {
    assert c.stat == Ready ==> c.oncpu == cpus;
    hide Queued, AllMasks, Seated, Without;
  }

  /** A thread that was initialised is started: its mask is derived and it is queued. */
  ghost function Started(s: World, cpus: nat, t: nat): (r: World)
    requires Consistent(s, cpus) && t < |s.tcb| && s.tcb[t].stat == Init
    requires s.tcb[t].prio < LEVELS && s.tcb[t].bind <= cpus
    ensures Consistent(r, cpus)
  {
    Resumed(Awaiting(s, cpus, t), cpus, t)
  }

  /** A thread that is started stands where it is bound before its equals, without a yield mark, its mask set. */
  lemma StartedFiled(s: World, cpus: nat, t: nat)
    requires Consistent(s, cpus) && t < |s.tcb| && s.tcb[t].stat == Init
    requires s.tcb[t].prio < LEVELS && s.tcb[t].bind <= cpus
    ensures var r, c := Started(s, cpus, t), s.tcb[t];
            && r.current == s.current
            && r.lists == Put(s.lists, c.bind, c.prio, [t] + s.lists[c.bind][c.prio])
            && r.tcb == s.tcb[t := c.(numberMask := Pow2(c.prio), stat := Ready, yielding := false, oncpu := cpus)]
  {
    hide Queued, AllMasks, Pow2;
  }

  ghost function Awaiting(s: World, cpus: nat, t: nat): (r: World)
    requires Consistent(s, cpus) && t < |s.tcb| && s.tcb[t].stat == Init
    requires s.tcb[t].prio < LEVELS && s.tcb[t].bind <= cpus
    ensures Consistent(r, cpus)
  {
    var c := s.tcb[t].(numberMask := Pow2(s.tcb[t].prio), stat := Suspend, yielding := false);
    QueuedLoose(s.tcb, s.lists, cpus, t);
    QueuedChanged(s.tcb, s.lists, cpus, t, c);
    s.(tcb := s.tcb[t := c])
  }

  /** The current thread of a CPU suspends itself; it stays current until the next decision. */
  ghost function Suspended(s: World, cpus: nat, cpu: nat): (r: World)
    requires Consistent(s, cpus) && cpu < cpus && s.current[cpu] >= 0 && s.tcb[s.current[cpu]].stat == Running
    ensures Consistent(r, cpus)
  {
    var t := s.current[cpu];
    QueuedLoose(s.tcb, s.lists, cpus, t);
    QueuedChanged(s.tcb, s.lists, cpus, t, s.tcb[t].(stat := Suspend));
    s.(tcb := s.tcb[t := s.tcb[t].(stat := Suspend)])
  }

  // ------------------------------------------------------------------ the scheduler

  class Scheduler {
    const cpus: nat
    var tcb: seq<Thread>
    var lists: Lists
    var groups: seq<nat>
    var current: seq<int>
    /** Per CPU: interrupt depth, and whether a switch was put off to the end of the interrupt. */
    var irqNest: seq<nat>
    var irqSwitch: seq<bool>

    ghost predicate Valid()
      reads this
    {
      && cpus > 0 && |irqNest| == cpus && |irqSwitch| == cpus
      && Summary(lists, groups, cpus)
      && Consistent(View(), cpus)
    }

    ghost function View(): World
      reads this
    {
      World(tcb, lists, current)
    }

    /** `rt_system_scheduler_init`, with threads that have been initialised but not started. */
    constructor (n: nat, priorities: seq<nat>)
      requires n > 0 && forall t :: 0 <= t < |priorities| ==> priorities[t] < LEVELS
      ensures Valid() && cpus == n && |tcb| == |priorities|
      ensures forall t :: 0 <= t < |tcb| ==>
        tcb[t].prio == priorities[t] && tcb[t].stat == Init && tcb[t].bind == n && !tcb[t].yielding
      ensures forall c :: 0 <= c < n ==> current[c] == -1 && irqNest[c] == 0 && !irqSwitch[c]
      ensures forall q, p :: 0 <= q <= n && 0 <= p < LEVELS ==> lists[q][p] == []
    {
      cpus := n;
      tcb := seq(|priorities|, t requires 0 <= t < |priorities| => Thread(priorities[t], 0, Init, false, n, n));
      lists := seq(n + 1, q => seq(LEVELS, p => []));
      groups := seq(n + 1, q => 0);
      current := seq(n, c => -1);
      irqNest := seq(n, c => 0);
      irqSwitch := seq(n, c => false);
      new;
      forall i: nat ensures !Bit(0, i) { ZeroBits(i); }
    }

    /** `_scheduler_get_highest_priority_thread`, when one of the two words is not zero. */
    method GetHighest(cpu: nat) returns (thread: nat, prio: nat)
      requires Summary(lists, groups, cpus) && cpu < cpus
      requires groups[cpus] != 0 || groups[cpu] != 0
      ensures prio == Top(lists, cpus, cpu).1 < LEVELS
      ensures var list := lists[Top(lists, cpus, cpu).0][prio]; list != [] && thread == list[0]
    {
      HighestIsFirst(lists, groups, cpus, cpu);
      HighestIsFirst(lists, groups, cpus, cpus);
      hide FirstNonempty, Highest;
      var global, local := Highest(groups[cpus]), Highest(groups[cpu]);
      if global < local {
        prio := global;
        thread := lists[cpus][prio][0];
      } else {
        prio := local;
        thread := lists[cpu][prio][0];
      }
    }

    /** `rt_schedule_insert_thread`; a thread that is still on a CPU just goes on running. */
    method Insert(t: nat)
      requires t < |tcb| && MaskRight(tcb[t], cpus) && Summary(lists, groups, cpus)
      modifies `tcb, `lists, `groups
      ensures Summary(lists, groups, cpus) && Shaped(old(lists), cpus)
      ensures tcb == old(tcb)[t := old(tcb)[t].(stat := if old(tcb)[t].oncpu != cpus then Running else Ready)]
      ensures lists == Inserted(old(tcb)[t], old(lists), cpus, t)
    {
      var c := tcb[t];
      if c.oncpu != cpus {
        tcb := tcb[t := c.(stat := Running)];
        return;
      }
      tcb := tcb[t := c.(stat := Ready)];
      MarkGroup(lists, groups, cpus, c.bind, c.prio, Joined(lists[c.bind][c.prio], t, c.yielding));
      groups := groups[c.bind := Or(groups[c.bind], c.numberMask)];
      lists := Put(lists, c.bind, c.prio, Joined(lists[c.bind][c.prio], t, c.yielding));
    }

    /** `rt_schedule_remove_thread`; the thread need not be in its list. */
    method Remove(t: nat)
      requires t < |tcb| && MaskRight(tcb[t], cpus) && Summary(lists, groups, cpus)
      modifies `lists, `groups
      ensures Summary(lists, groups, cpus) && Shaped(old(lists), cpus)
      ensures lists == Removed(tcb[t], old(lists), cpus, t)
    {
      var c := tcb[t];
      UnmarkGroup(lists, groups, cpus, c.bind, c.prio, Without(lists[c.bind][c.prio], t));
      lists := Put(lists, c.bind, c.prio, Without(lists[c.bind][c.prio], t));
      hide Summary, Without;
      if lists[c.bind][c.prio] == [] {
        groups := groups[c.bind := And(groups[c.bind], Not(c.numberMask, 32))];
      }
    }

    /** `rt_schedule` on `cpu`; `unlocked` is its test of the thread's scheduler lock count. */
    method Schedule(cpu: nat, unlocked: bool)
      requires Valid() && cpu < cpus && current[cpu] >= 0
      modifies `tcb, `lists, `groups, `current, `irqSwitch
      ensures Valid() && current[cpu] >= 0 && Consistent(old(View()), cpus)
      ensures View() == if unlocked && irqNest[cpu] == 0 then Scheduled(old(View()), cpus, cpu) else old(View())
      ensures irqSwitch == if irqNest[cpu] == 0 then old(irqSwitch) else old(irqSwitch)[cpu := true]
    {
      if irqNest[cpu] != 0 {
        irqSwitch := irqSwitch[cpu := true];
      } else if unlocked {
        SwitchIfNeeded(cpu);
      }
    }

    /** `rt_interrupt_enter` on `cpu`. */
    method EnterInterrupt(cpu: nat)
      requires Valid() && cpu < cpus
      modifies `irqNest
      ensures Valid() && irqNest == old(irqNest)[cpu := old(irqNest)[cpu] + 1]
    {
      irqNest := irqNest[cpu := irqNest[cpu] + 1];
    }

    /** `rt_interrupt_leave` on `cpu`. */
    method LeaveInterrupt(cpu: nat)
      requires Valid() && cpu < cpus && irqNest[cpu] > 0
      modifies `irqNest
      ensures Valid() && irqNest == old(irqNest)[cpu := old(irqNest)[cpu] - 1]
    {
      irqNest := irqNest[cpu := irqNest[cpu] - 1];
    }

    /** `rt_scheduler_do_irq_switch` on `cpu`. */
    method DoIrqSwitch(cpu: nat, unlocked: bool)
      requires Valid() && cpu < cpus && current[cpu] >= 0
      modifies `tcb, `lists, `groups, `current, `irqSwitch
      ensures Valid() && current[cpu] >= 0 && Consistent(old(View()), cpus)
      ensures var go := old(irqSwitch)[cpu] && unlocked && irqNest[cpu] == 0;
              && View() == (if go then Scheduled(old(View()), cpus, cpu) else old(View()))
              && irqSwitch == if go then old(irqSwitch)[cpu := false] else old(irqSwitch)
    {
      if irqSwitch[cpu] && unlocked && irqNest[cpu] == 0 {
        irqSwitch := irqSwitch[cpu := false];
        SwitchIfNeeded(cpu);
      }
    }

    /** The common part of both: look for a ready thread, and decide if there is one. */
    method SwitchIfNeeded(cpu: nat)
      requires Valid() && cpu < cpus && current[cpu] >= 0
      modifies `tcb, `lists, `groups, `current
      ensures Valid() && current[cpu] >= 0 && Consistent(old(View()), cpus)
      ensures View() == Scheduled(old(View()), cpus, cpu)
    {
      HighestIsFirst(lists, groups, cpus, cpu);
      HighestIsFirst(lists, groups, cpus, cpus);
      if groups[cpus] != 0 || groups[cpu] != 0 {
        ScheduledConsistent(View(), cpus, cpu);
        SwitchKeepsCpu(View(), cpus, cpu);
        hide Queued, AllMasks, FirstNonempty;
        var to, highest := GetHighest(cpu);
        Decide(cpu, to, highest);
      }
    }

    /** Compares the first ready thread with the current one and switches if it has to. */
    method Decide(cpu: nat, first: nat, highest: nat)
      requires Valid() && cpu < cpus && current[cpu] >= 0
      requires highest == Top(lists, cpus, cpu).1 < LEVELS
      requires lists[Top(lists, cpus, cpu).0][highest] != [] && first == lists[Top(lists, cpus, cpu).0][highest][0]
      modifies `tcb, `lists, `groups, `current
      ensures Summary(lists, groups, cpus) && Consistent(old(View()), cpus)
      ensures View() == Scheduled(old(View()), cpus, cpu)
    {
      ghost var before := View();
      var to, from := first, current[cpu];
      assert first in lists[Top(lists, cpus, cpu).0][highest];
      assert MaskRight(tcb[first], cpus) && first != from;
      assert tcb[from].stat == Running ==> MaskRight(tcb[from], cpus);
      assert Shaped(lists, cpus) && tcb[from].oncpu == cpu;
      hide Queued, AllMasks, Seated, Summary, Top;
      tcb := tcb[from := tcb[from].(oncpu := cpus)];
      if tcb[from].stat == Running {
        var c := tcb[from];
        if c.bind == cpus || c.bind == cpu {
          if c.prio < highest {
            to := from;
          } else if c.prio == highest && !c.yielding {
            to := from;
          } else {
            Requeue(from);
          }
        } else {
          Requeue(from);
        }
      }
      if to != from {
        assert tcb == Displaced(before, cpus, cpu).tcb;
        hide Displaced;
        TakeOver(cpu, to);
      } else {
        tcb := tcb[to := tcb[to].(oncpu := cpu, yielding := false)];
        assert tcb == before.tcb[from := before.tcb[from].(yielding := false)];
      }
    }

    /** A running thread that has left its CPU is inserted; its yield mark is cleared after that. */
    method Requeue(t: nat)
      requires Summary(lists, groups, cpus) && t < |tcb| && MaskRight(tcb[t], cpus) && tcb[t].oncpu == cpus
      modifies `tcb, `lists, `groups
      ensures Summary(lists, groups, cpus) && Shaped(old(lists), cpus)
      ensures tcb == old(tcb)[t := old(tcb)[t].(stat := Ready, yielding := false)]
      ensures lists == Inserted(old(tcb)[t], old(lists), cpus, t)
    {
      ghost var before := tcb;
      hide Summary;
      Insert(t);
      tcb := tcb[t := tcb[t].(yielding := false)];
      assert tcb == before[t := before[t].(stat := Ready, yielding := false)];
    }

    /** The end of the switch: the ready thread `to` becomes current on `cpu`. */
    method TakeOver(cpu: nat, to: nat)
      requires Summary(lists, groups, cpus) && cpu < |current| && to < |tcb| && MaskRight(tcb[to], cpus)
      modifies `tcb, `lists, `groups, `current
      ensures Summary(lists, groups, cpus) && Shaped(old(lists), cpus)
      ensures View() == TakenFrom(old(View()), cpus, cpu, to)
    {
      hide Summary;
      tcb := tcb[to := tcb[to].(oncpu := cpu)];
      Remove(to);
      tcb := tcb[to := tcb[to].(stat := Running)];
      current := current[cpu := to];
    }

    /** `rt_thread_yield`, and the end of a time slice, on `cpu`. */
    method Yield(cpu: nat, unlocked: bool)
      requires Valid() && cpu < cpus && current[cpu] >= 0
      modifies `tcb, `lists, `groups, `current, `irqSwitch
      ensures Valid() && current[cpu] >= 0 && Consistent(old(View()), cpus)
      ensures var asking := Asking(old(View()), cpus, cpu);
              View() == if unlocked && irqNest[cpu] == 0 then Scheduled(asking, cpus, cpu) else asking
    {
      ghost var asking := Asking(View(), cpus, cpu);
      tcb := tcb[current[cpu] := tcb[current[cpu]].(yielding := true)];
      assert View() == asking;
      Schedule(cpu, unlocked);
    }

    /** `rt_thread_suspend_with_flag` by the current thread of `cpu`. */
    method SuspendSelf(cpu: nat) returns (ok: bool)
      requires Valid() && cpu < cpus && current[cpu] >= 0
      modifies `tcb, `lists, `groups
      ensures Valid() && Consistent(old(View()), cpus)
      ensures ok == (old(tcb)[current[cpu]].stat == Running)
      ensures View() == if ok then Suspended(old(View()), cpus, cpu) else old(View())
    {
      var t := current[cpu];
      ok := tcb[t].stat == Running;
      if ok {
        ghost var after := Suspended(View(), cpus, cpu);
        assert MaskRight(tcb[t], cpus) && t !in lists[tcb[t].bind][tcb[t].prio];
        WithoutAbsent(lists[tcb[t].bind][tcb[t].prio], t);
        hide Summary, Queued, AllMasks, Seated;
        ghost var before := lists;
        Remove(t);
        PutSame(before, tcb[t].bind, tcb[t].prio);
        tcb := tcb[t := tcb[t].(stat := Suspend)];
        assert View() == after;
      }
    }

    /** `rt_thread_resume`. */
    method Resume(t: nat) returns (ok: bool)
      requires Valid() && t < |tcb|
      modifies `tcb, `lists, `groups
      ensures Valid() && Consistent(old(View()), cpus)
      ensures ok == (old(tcb)[t].stat == Suspend)
      ensures View() == if ok then Resumed(old(View()), cpus, t) else old(View())
    {
      ok := tcb[t].stat == Suspend;
      if ok {
        ghost var after := Resumed(View(), cpus, t);
        assert MaskRight(tcb[t], cpus);
        hide Summary, Queued, AllMasks, Seated;
        Insert(t);
        assert View() == after;
      }
    }

    /** `rt_thread_startup`, called on `cpu`. */
    method Startup(cpu: nat, unlocked: bool, t: nat)
      requires Valid() && cpu < cpus && t < |tcb| && tcb[t].stat == Init
      requires tcb[t].prio < LEVELS && tcb[t].bind <= cpus
      modifies `tcb, `lists, `groups, `current, `irqSwitch
      ensures Valid() && Consistent(old(View()), cpus)
      ensures var s := Started(old(View()), cpus, t);
              View() == if s.current[cpu] >= 0 && unlocked && irqNest[cpu] == 0 then Scheduled(s, cpus, cpu) else s
    {
      ghost var after := Awaiting(View(), cpus, t);
      tcb := tcb[t := tcb[t].(numberMask := Pow2(tcb[t].prio), stat := Suspend, yielding := false)];
      assert View() == after;
      var ok := Resume(t);
      if current[cpu] >= 0 {
        Schedule(cpu, unlocked);
      }
    }

    /** `rt_thread_cpu_bind`, called on `cpu`: a CPU number out of range means unbound. */
    method BindCpu(cpu: nat, unlocked: bool, t: nat, target: nat)
      requires Valid() && cpu < cpus && current[cpu] >= 0
      requires t < |tcb| && tcb[t].stat !in {Init, Close}
      modifies `tcb, `lists, `groups, `current, `irqSwitch
      ensures Valid() && current[cpu] >= 0 && Consistent(old(View()), cpus) && MaskRight(old(tcb)[t], cpus)
      ensures var to := if target >= cpus then cpus else target;
              var was := old(tcb)[t];
              var bound := Refiled(old(View()), cpus, t, was.(bind := to));
              var go := was.stat == Ready || (was.stat == Running && was.oncpu == cpu && to != cpus && to != cpu);
              View() == if go && unlocked && irqNest[cpu] == 0 then Scheduled(bound, cpus, cpu) else bound
    {
      var to := if target >= cpus then cpus else target;
      var c := tcb[t].(bind := to);
      assert MaskRight(tcb[t], cpus);
      Refile(t, c);
      if c.stat == Ready {
        Schedule(cpu, unlocked);
      } else if c.stat == Running && to != cpus && c.oncpu == cpu && to != cpu {
        Schedule(cpu, unlocked);
      }
    }

    /** `RT_THREAD_CTRL_CHANGE_PRIORITY`. */
    method ChangePriority(t: nat, prio: nat)
      requires Valid() && t < |tcb| && tcb[t].stat !in {Init, Close} && prio < LEVELS
      modifies `tcb, `lists, `groups
      ensures Valid() && Consistent(old(View()), cpus) && MaskRight(old(tcb)[t], cpus)
      ensures View() == Refiled(old(View()), cpus, t, old(tcb)[t].(prio := prio, numberMask := Pow2(prio)))
    {
      assert MaskRight(tcb[t], cpus);
      Refile(t, tcb[t].(prio := prio, numberMask := Pow2(prio)));
    }

    /** What both do with a ready thread: remove it, change it, insert it again. */
    method Refile(t: nat, c: Thread)
      requires Valid() && t < |tcb| && MaskRight(tcb[t], cpus) && MaskRight(c, cpus)
      requires c.stat == tcb[t].stat && c.oncpu == tcb[t].oncpu && c.yielding == tcb[t].yielding
      modifies `tcb, `lists, `groups
      ensures Valid() && Consistent(old(View()), cpus)
      ensures View() == Refiled(old(View()), cpus, t, c)
    {
      ghost var after := Refiled(View(), cpus, t, c);
      assert tcb[t].stat == Ready ==> tcb[t].oncpu == cpus;
      hide Summary, Queued, AllMasks, Seated, Without;
      if tcb[t].stat == Ready {
        Remove(t);
        tcb := tcb[t := c];
        Insert(t);
      } else {
        tcb := tcb[t := c];
      }
      assert tcb == after.tcb && lists == after.lists;
    }

    /** `rt_system_scheduler_start` on `cpu`: the head of the list that is served runs, with no yield mark. */
    method Start(cpu: nat)
      requires Valid() && cpu < cpus && current[cpu] == -1 && (groups[cpu] != 0 || groups[cpus] != 0)
      modifies `tcb, `lists, `groups, `current
      ensures Valid() && current[cpu] >= 0
      ensures exists h :: IsTop(old(lists), cpus, cpu, h) && Begun(old(View()), View(), cpus, cpu, h)
    {
      ghost var s := View();
      var to, prio := GetHighest(cpu);
      TopOf(lists, cpus, cpu);
      StartTaken(s, cpus, cpu, prio);
      hide Summary, Queued, AllMasks, Seated, Without, IsTop;
      TakeOver(cpu, to);
      MarkCleared(View(), cpus, to);
      tcb := tcb[to := tcb[to].(yielding := false)];
      assert View().tcb == s.tcb[to := s.tcb[to].(stat := Running, oncpu := cpu, yielding := false)];
    }
  }

  /** `r` is `s` with the head of the list that is served on `cpu` running there. */
  ghost predicate Begun(s: World, r: World, cpus: nat, cpu: nat, h: nat)
    requires IsTop(s.lists, cpus, cpu, h)
  {
    var place := Served(s.lists, cpus, cpu, h);
    var list := s.lists[place][h];
    && list != [] && list[0] < |s.tcb| && cpu < |s.current|
    && r.current == s.current[cpu := list[0]] && r.lists == Put(s.lists, place, h, list[1..])
    && r.tcb == s.tcb[list[0] := s.tcb[list[0]].(stat := Running, oncpu := cpu, yielding := false)]
  }

  lemma TopOf(lists: Lists, cpus: nat, cpu: nat)
    requires Shaped(lists, cpus) && cpu < cpus && Top(lists, cpus, cpu).1 < LEVELS
    ensures var (place, h) := Top(lists, cpus, cpu);
            IsTop(lists, cpus, cpu, h) && place == Served(lists, cpus, cpu, h)
  {
  }

  /** The yield mark of a thread that is not ready plays no part in where threads are. */
  lemma MarkCleared(s: World, cpus: nat, t: nat)
    requires Consistent(s, cpus) && t < |s.tcb| && s.tcb[t].stat != Ready
    ensures Consistent(s.(tcb := s.tcb[t := s.tcb[t].(yielding := false)]), cpus)
  {
    QueuedLoose(s.tcb, s.lists, cpus, t);
    QueuedChanged(s.tcb, s.lists, cpus, t, s.tcb[t].(yielding := false));
    hide Queued;
  }

  lemma StartTaken(s: World, cpus: nat, cpu: nat, h: nat)
    requires Consistent(s, cpus) && cpu < cpus && s.current[cpu] == -1 && IsTop(s.lists, cpus, cpu, h)
    ensures var place := Served(s.lists, cpus, cpu, h);
            && s.lists[place][h] != []
            && var to := s.lists[place][h][0];
               && to < |s.tcb| && s.tcb[to].stat == Ready && MaskRight(s.tcb[to], cpus)
               && Consistent(TakenFrom(s, cpus, cpu, to), cpus)
               && TakenFrom(s, cpus, cpu, to).lists == Put(s.lists, place, h, s.lists[place][h][1..])
  {
    HeadReady(s, cpus, cpu, h);
    var list := s.lists[Served(s.lists, cpus, cpu, h)][h];
    assert MaskRight(s.tcb[list[0]], cpus);
    hide Queued, AllMasks, Seated, Served, IsTop;
    StartSeated(s, cpus, cpu, list[0]);
    TakenQueued(s, cpus, cpu, list[0]);
    WithoutHead(list, 0);
  }

  lemma StartSeated(s: World, cpus: nat, cpu: nat, to: nat)
    requires Consistent(s, cpus) && cpu < cpus && s.current[cpu] == -1
    requires to < |s.tcb| && s.tcb[to].stat == Ready && MaskRight(s.tcb[to], cpus)
    ensures var r := TakenFrom(s, cpus, cpu, to); Seated(r.tcb, r.current, cpus)
  {
    hide Queued, AllMasks;
  }
}
