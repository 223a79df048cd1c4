/**
 Mutexes with transitive priority inheritance and priority ceilings
 (rt-thread/src/ipc.c, rt-thread/src/thread.c).

 A smaller number is a more urgent priority.  A mutex caches the priority of its most urgent
 waiter; a thread runs at a priority that lies between two bounds computed from the mutexes it
 holds:

   - `UrgentEnough`: no less urgent than its own priority and than every waiter of a mutex it holds;
   - `Justified`:    no more urgent than the most urgent of its own priority, those waiters and the
                     ceilings of the mutexes it holds.

 Every operation runs with interrupts disabled, so each method below is one step of a run.
 */
module MutexInheritance {

  /** `rt_uint8_t` priorities. */
  type Priority = p: nat | p <= 0xFF

  const NO_PRIORITY: Priority := 0xFF
  const HOLD_MAX: nat := 0xFF

  datatype Stat = Active | Suspended | Closed

  datatype Status = EOk | EFull | ETimeout | EError | EInval | Blocked

  class Thread {
    const init_priority: Priority
    var current_priority: Priority
    var stat: Stat
    var pending: Mutex?
    var taken: seq<Mutex>   // newest first
    var error: Status

    constructor (priority: Priority)
      ensures init_priority == current_priority == priority
      ensures stat == Active && pending == null && taken == [] && error == EOk
    {
      init_priority, current_priority := priority, priority;
      stat, pending, taken, error := Active, null, [], EOk;
    }
  }

  class Mutex {
    var owner: Thread?
    var priority: Priority
    var hold: nat
    var ceiling: Priority
    var waiters: seq<Thread>

    constructor ()
      ensures owner == null && priority == ceiling == NO_PRIORITY && hold == 0 && waiters == []
    {
      owner, priority, hold, ceiling, waiters := null, NO_PRIORITY, 0, NO_PRIORITY, [];
    }

    /** What the mutex contributes to its owner once its ceiling is taken into account. */
    function Effective(): Priority
      reads this`priority, this`ceiling
    {
      if priority < ceiling then priority else ceiling
    }
  }

  /** `rt_list_remove` on a list that holds `x` at most once. */
  function Without<T(==)>(s: seq<T>, x: T): (r: seq<T>)
    ensures forall i :: 0 <= i < |r| ==> r[i] in s && r[i] != x
  {
    if s == [] then [] else if s[0] == x then Without(s[1..], x) else [s[0]] + Without(s[1..], x)
  }

  ghost predicate Distinct<T>(s: seq<T>) {
    forall i, j :: 0 <= i < j < |s| ==> s[i] != s[j]
  }

  /** Removing an entry keeps the others, in the same order. */
  lemma {:induction false} WithoutSplit<T>(s: seq<T>, x: T, i: nat)
    requires i < |s| && s[i] == x
    requires Distinct(s)
    ensures Without(s, x) == s[..i] + s[i + 1..]
  {
    if i == 0 {
      WithoutAbsent(s[1..], x);
    } else {
      var rest := s[1..];
      WithoutSplit(rest, x, i - 1);
      assert s[0] != x;
      calc {
        Without(s, x);
        [s[0]] + Without(rest, x);
        [s[0]] + (rest[..i - 1] + rest[i..]);
        ([s[0]] + rest[..i - 1]) + rest[i..];
        { hide Without; assert s[i + 1..] == rest[i..] && s[..i] == [s[0]] + rest[..i - 1]; }
        s[..i] + s[i + 1..];
      }
    }
  }

  lemma {:induction false} WithoutAbsent<T>(s: seq<T>, x: T)
    requires x !in s
    ensures Without(s, x) == s
  {
    if s != [] { WithoutAbsent(s[1..], x); }
  }

  lemma WithoutMembers<T>(s: seq<T>, x: T)
    requires x in s && Distinct(s)
    ensures Distinct(Without(s, x)) && x !in Without(s, x)
    ensures |Without(s, x)| == |s| - 1
    ensures forall i :: 0 <= i < |s| ==> s[i] == x || s[i] in Without(s, x)
    ensures forall i :: 0 <= i < |Without(s, x)| ==> Without(s, x)[i] in s
  {
    var i :| 0 <= i < |s| && s[i] == x;
    WithoutSplit(s, x, i);
  }

  lemma WithoutIff<T>(s: seq<T>, x: T)
    requires x in s && Distinct(s)
    ensures Distinct(Without(s, x))
    ensures forall t :: t in Without(s, x) <==> t in s && t != x
  {
    WithoutMembers(s, x);
  }

  lemma FirstLeaves<T>(s: seq<T>)
    requires s != [] && Distinct(s)
    ensures Without(s, s[0]) == s[1..]
  {
    WithoutSplit(s, s[0], 0);
  }

  lemma DistinctCons<T>(x: T, s: seq<T>)
    requires x !in s && Distinct(s)
    ensures Distinct([x] + s)
  {
  }

  lemma InsertMembers<T>(s: seq<T>, n: nat, x: T)
    requires n <= |s| && x !in s && Distinct(s)
    ensures Distinct(s[..n] + [x] + s[n..])
    ensures forall t :: t in s[..n] + [x] + s[n..] <==> t == x || t in s
  {
    var r := s[..n] + [x] + s[n..];
    forall i | 0 <= i < |s| ensures s[i] in r {
      assert s[i] == r[if i < n then i else i + 1];
    }
  }

  function Min(a: Priority, b: Priority): (r: Priority)
    ensures r <= a && r <= b && r in {a, b}
  {
    if a < b then a else b
  }

  /** A wait list in order of urgency. */
  ghost predicate InOrder(ws: seq<Thread>)
    reads ws`current_priority
  {
    forall i, j :: 0 <= i < j < |ws| ==> ws[i].current_priority <= ws[j].current_priority
  }

  /** The priority of the first waiter. */
  ghost function Head(ws: seq<Thread>): Priority
    reads ws`current_priority
  {
    if ws == [] then NO_PRIORITY else ws[0].current_priority
  }

  /** The list afterwards, if `t` joins it at place `n`: behind all at least as urgent, before all less urgent. */
  ghost predicate JoinsAt(before: seq<Thread>, t: Thread, after: seq<Thread>, n: nat)
    reads before`current_priority, t`current_priority
  {
    && n <= |before| && after == before[..n] + [t] + before[n..]
    && (forall i :: 0 <= i < n ==> before[i].current_priority <= t.current_priority)
    && (forall i :: n <= i < |before| ==> t.current_priority < before[i].current_priority)
  }

  /** `t` joins in its place, behind its equals, and the others keep their order. */
  ghost predicate Joins(before: seq<Thread>, t: Thread, after: seq<Thread>)
    reads before`current_priority, t`current_priority
  {
    exists n: nat :: JoinsAt(before, t, after, n)
  }

  /** Whoever was waiting and is no less urgent stays ahead of a thread that joins. */
  lemma StaysAhead(before: seq<Thread>, t: Thread, after: seq<Thread>, i: nat)
    requires Joins(before, t, after) && i < |before| && before[i].current_priority <= t.current_priority
    ensures exists n: nat :: i < n < |after| && after[n] == t && after[i] == before[i]
  {
    var n: nat :| JoinsAt(before, t, after, n);
    assert i < n && after[n] == t && after[i] == before[i];
  }

  /** No two waiters change places when another one joins. */
  lemma OrderKept(before: seq<Thread>, t: Thread, after: seq<Thread>, i: nat, j: nat)
    requires Joins(before, t, after) && i < j < |before|
    ensures exists a, b :: 0 <= a < b < |after| && after[a] == before[i] && after[b] == before[j]
  {
    var n: nat :| JoinsAt(before, t, after, n);
    var a, b := if i < n then i else i + 1, if j < n then j else j + 1;
    assert a < b && after[a] == before[i] && after[b] == before[j];
  }

  lemma HeadFirst(ws: seq<Thread>)
    requires ws != [] && Distinct(ws)
    ensures Head(ws) == ws[0].current_priority && Without(ws, ws[0]) == ws[1..]
  {
    WithoutSplit(ws, ws[0], 0);
  }

  lemma OrderSlice(ws: seq<Thread>, i: nat)
    requires InOrder(ws) && i < |ws|
    ensures InOrder(ws[..i] + ws[i + 1..])
    ensures Head(ws) == Min(ws[i].current_priority, Head(ws[..i] + ws[i + 1..]))
  {
    var r := ws[..i] + ws[i + 1..];
    forall j, k | 0 <= j < k < |r| ensures r[j].current_priority <= r[k].current_priority {
      var j', k' := if j < i then j else j + 1, if k < i then k else k + 1;
      assert r[j] == ws[j'] && r[k] == ws[k'];
    }
  }

  lemma OrderWithout(ws: seq<Thread>, t: Thread)
    requires InOrder(ws) && Distinct(ws) && t in ws
    ensures InOrder(Without(ws, t))
    ensures Head(ws) == Min(t.current_priority, Head(Without(ws, t)))
  {
    hide InOrder, Head, Distinct;
    var i :| 0 <= i < |ws| && ws[i] == t;
    WithoutSplit(ws, t, i);
    OrderSlice(ws, i);
  }

  /** The sum of the priorities, which the inheritance walk drives in one direction. */
  ghost function Total(priorities: seq<Priority>): nat {
    if priorities == [] then 0 else priorities[0] + Total(priorities[1..])
  }

  lemma TotalBound(priorities: seq<Priority>)
    ensures Total(priorities) <= NO_PRIORITY * |priorities|
  {
  }

  lemma {:induction false} TotalMoves(priorities: seq<Priority>, i: nat, p: Priority)
    requires i < |priorities|
    ensures Total(priorities[i := p]) == Total(priorities) + p - priorities[i]
  {
    if i == 0 {
      assert priorities[i := p][1..] == priorities[1..];
    } else {
      assert priorities[i := p][1..] == priorities[1..][i - 1 := p];
      TotalMoves(priorities[1..], i - 1, p);
    }
  }

  ghost function Priorities(threads: seq<Thread>): (ps: seq<Priority>)
    reads threads`current_priority
    ensures |ps| == |threads|
    ensures forall i :: 0 <= i < |ps| ==> ps[i] == threads[i].current_priority
  {
    if threads == [] then [] else [threads[0].current_priority] + Priorities(threads[1..])
  }

  /** `p` is no less urgent than the thread's own priority and every waiter of a mutex it holds. */
  ghost predicate UrgentEnough(t: Thread, taken: seq<Mutex>, p: Priority)
    reads taken`priority
  {
    p <= t.init_priority && forall m :: m in taken ==> p <= m.priority
  }

  /** Something the thread is entitled to makes it at least as urgent as `p`. */
  ghost predicate Justified(t: Thread, taken: seq<Mutex>, p: Priority)
    reads taken`priority, taken`ceiling
  {
    t.init_priority <= p || exists m :: m in taken && m.Effective() <= p
  }

  /** Nothing the thread is entitled to would make it more urgent than `p`. */
  ghost predicate NoMore(t: Thread, taken: seq<Mutex>, p: Priority)
    reads taken`priority, taken`ceiling
  {
    p <= t.init_priority && forall m :: m in taken ==> p <= m.Effective()
  }

  /** `p` lies within the bounds set by what the thread holds, and on the urgent one if `exact`. */
  ghost predicate Fits(t: Thread, taken: seq<Mutex>, p: Priority, exact: bool)
    reads taken`priority, taken`ceiling
  {
    UrgentEnough(t, taken, p) && Justified(t, taken, p) && (exact ==> NoMore(t, taken, p))
  }

  ghost predicate Bounded(t: Thread, exact: bool)
    reads t`current_priority, t`taken, t.taken`priority, t.taken`ceiling
  {
    Fits(t, t.taken, t.current_priority, exact)
  }

  /** One more mutex in the hands of a thread that is urgent enough for its waiters. */
  lemma FitsTake(t: Thread, m: Mutex, taken: seq<Mutex>, p: Priority, exact: bool)
    requires Fits(t, taken, p, exact) && p <= m.priority
    ensures Fits(t, [m] + taken, p, exact && p <= m.Effective())
    ensures Fits(t, [m] + taken, Min(p, m.ceiling), exact)
    ensures NoMore(t, [m] + taken, p) ==> p <= m.ceiling
  {
    var more := [m] + taken;
    assert m in more && forall x :: x in taken ==> x in more;
  }

  lemma NoMoreTake(t: Thread, m: Mutex, taken: seq<Mutex>, p: Priority)
    ensures NoMore(t, [m] + taken, p) <==> NoMore(t, taken, p) && p <= m.Effective()
  {
    var more := [m] + taken;
    assert m in more && forall x :: x in taken ==> x in more;
  }

  /**
   A mutex the thread gives up: if the mutex has no ceiling and its waiters are not what the
   thread's priority comes from, the priority stands.
   */
  lemma FitsDrop(t: Thread, m: Mutex, taken: seq<Mutex>, p: Priority, exact: bool)
    requires Fits(t, taken, p, exact) && m in taken && Distinct(taken)
    requires m.ceiling == NO_PRIORITY && p != m.priority
    ensures Fits(t, Without(taken, m), p, exact)
  {
    WithoutMembers(taken, m);
    var less := Without(taken, m);
    assert forall x :: x in taken && x != m ==> x in less;
  }

  /** The thread `k + 1` steps from `t` along the arrows. */
  ghost function Path(arrows: map<Thread, Thread>, t: Thread, k: nat): Thread? {
    if k == 0 then (if t in arrows then arrows[t] else null) else
      var u := Path(arrows, t, k - 1);
      if u != null && u in arrows then arrows[u] else null
  }

  lemma {:induction false} PathAlong(a: map<Thread, Thread>, b: map<Thread, Thread>, x: Thread, t: Thread, k: nat)
    requires forall u :: u != x ==> (u in a <==> u in b) && (u in a ==> a[u] == b[u])
    requires t != x && forall j: nat :: Path(a, t, j) != x
    ensures Path(a, t, k) == Path(b, t, k)
  {
    if k > 0 { PathAlong(a, b, x, t, k - 1); }
  }

  ghost predicate Leads(arrows: map<Thread, Thread>, t: Thread, u: Thread) {
    exists k: nat :: Path(arrows, t, k) == u
  }

  /** Where a path leads that does not come past `x` has nothing to do with the arrow from `x`. */
  lemma LeadsStill(a: map<Thread, Thread>, b: map<Thread, Thread>, x: Thread, t: Thread)
    requires forall u :: u != x ==> (u in a <==> u in b) && (u in a ==> a[u] == b[u])
    requires t != x && !Leads(a, t, x)
    ensures Leads(b, t, t) ==> Leads(a, t, t)
  {
    hide Path;
    if Leads(b, t, t) {
      var k: nat :| Path(b, t, k) == t;
      PathAlong(a, b, x, t, k);
    }
  }

  class Kernel {
    const threads: seq<Thread>
    const mutexes: set<Mutex>
    const priorityMax: nat     // RT_THREAD_PRIORITY_MAX

    /** No mutex was handed to a thread less urgent than its ceiling. */
    ghost var exact: bool

    /** Threads and mutexes as `rt_thread_init` and `rt_mutex_init` leave them. */
    constructor (threads: seq<Thread>, mutexes: set<Mutex>, priorityMax: nat)
      requires Distinct(threads) && priorityMax <= 0x100
      requires forall t :: t in threads ==>
        t.current_priority == t.init_priority && t.stat == Active && t.pending == null && t.taken == []
      requires forall m :: m in mutexes ==>
        m.owner == null && m.priority == NO_PRIORITY && m.hold == 0 && m.waiters == []
      ensures Valid() && exact
      ensures this.threads == threads && this.mutexes == mutexes && this.priorityMax == priorityMax
    {
      this.threads, this.mutexes, this.priorityMax := threads, mutexes, priorityMax;
      exact := true;
    }

    // ---------------------------------------------------------------- invariants

    /** A mutex and its waiters agree with the threads, but for the owner of a mutex `x` that is changing hands. */
    ghost predicate MutexOk(m: Mutex, x: Mutex?)
      reads m`owner, m`hold, m`waiters, threads`stat, threads`pending, threads`taken
    {
      && (m != x && m.owner != null ==> m.owner in threads && m in m.owner.taken && 1 <= m.hold <= HOLD_MAX)
      && (m != x && m.owner == null ==> m.hold == 0 && m.waiters == [])
      && Distinct(m.waiters)
      && (forall t :: t in m.waiters ==> t in threads && t != m.owner && t.stat == Suspended && t.pending == m)
    }

    /** A thread agrees with what it holds, never `x`, and with what it waits for. */
    ghost predicate ThreadOk(t: Thread, x: Mutex?)
      reads t`stat, t`pending, t`taken, mutexes`owner, mutexes`waiters
    {
      && Distinct(t.taken)
      && (forall m :: m in t.taken ==> m in mutexes && m != x && m.owner == t)
      && (t.stat == Suspended && t.pending != null ==> t.pending in mutexes && t in t.pending.waiters)
    }

    /** Owners, taken lists and wait lists agree, but for a mutex `x` that is changing hands. */
    ghost predicate StructureBut(x: Mutex?)
      reads threads`stat, threads`pending, threads`taken
      reads mutexes`owner, mutexes`hold, mutexes`waiters
    {
      && Distinct(threads)
      && (forall m :: m in mutexes ==> MutexOk(m, x))
      && (forall t :: t in threads ==> ThreadOk(t, x))
    }

    /** Owners, taken lists and wait lists agree. */
    ghost predicate Structure()
      reads threads`stat, threads`pending, threads`taken
      reads mutexes`owner, mutexes`hold, mutexes`waiters
    {
      StructureBut(null)
    }

    /** The wait list is in order and the mutex caches the priority of its first waiter. */
    ghost predicate Queued(m: Mutex)
      reads m`waiters, m`priority, m.waiters`current_priority
    {
      InOrder(m.waiters) && m.priority == Head(m.waiters)
    }

    ghost predicate Valid()
      reads this`exact, threads, mutexes, set t, i | t in threads && 0 <= i < |t.taken| :: t.taken[i]
      reads set m, i | m in mutexes && 0 <= i < |m.waiters| :: m.waiters[i]
    {
      && Structure()
      && (forall m :: m in mutexes ==> Queued(m))
      && (forall t :: t in threads ==> Bounded(t, exact))
    }

    // ---------------------------------------------------------------- building blocks

    /** `_thread_get_mutex_priority`: the most urgent claim on a thread, ceilings included. */
    method GetMutexPriority(thread: Thread) returns (priority: Priority)
      ensures Fits(thread, thread.taken, priority, true)
      ensures forall p: Priority :: Justified(thread, thread.taken, p) ==> priority <= p
    {
      priority := thread.init_priority;
      var i := 0;
      while i < |thread.taken|
        invariant 0 <= i <= |thread.taken|
        invariant priority <= thread.init_priority && Justified(thread, thread.taken, priority)
        invariant forall k :: 0 <= k < i ==> priority <= thread.taken[k].Effective()
      {
        var mutex_prio := thread.taken[i].Effective();
        if priority > mutex_prio {
          priority := mutex_prio;
          assert thread.taken[i].Effective() <= priority;
        }
        i := i + 1;
      }
    }

    /** `_mutex_update_priority`. */
    method MutexUpdatePriority(mutex: Mutex)
      modifies mutex`priority
      ensures mutex.priority == Head(mutex.waiters)
    {
      if mutex.waiters != [] {
        mutex.priority := mutex.waiters[0].current_priority;
      } else {
        mutex.priority := NO_PRIORITY;
      }
    }

    /** `_ipc_list_suspend` on a priority list: behind every waiter at least as urgent. */
    method ListInsert(mutex: Mutex, thread: Thread) returns (ghost n: nat)
      requires InOrder(mutex.waiters)
      modifies mutex`waiters
      ensures n <= |old(mutex.waiters)|
      ensures mutex.waiters == old(mutex.waiters)[..n] + [thread] + old(mutex.waiters)[n..]
      ensures forall i :: 0 <= i < n ==> old(mutex.waiters)[i].current_priority <= thread.current_priority
      ensures forall i :: n <= i < |old(mutex.waiters)| ==>
        thread.current_priority < old(mutex.waiters)[i].current_priority
      ensures InOrder(mutex.waiters)
      ensures Head(mutex.waiters) == Min(thread.current_priority, Head(old(mutex.waiters)))
    {
      var i := 0;
      while i < |mutex.waiters| && mutex.waiters[i].current_priority <= thread.current_priority
        invariant 0 <= i <= |mutex.waiters|
        invariant forall k :: 0 <= k < i ==> mutex.waiters[k].current_priority <= thread.current_priority
      {
        i := i + 1;
      }
      n := i;
      mutex.waiters := mutex.waiters[..i] + [thread] + mutex.waiters[i..];
    }

    // ---------------------------------------------------------------- the inheritance walk

    /** The thread that `t` waits for, if it waits for a mutex. */
    ghost function Blocker(t: Thread): Thread?
      reads t`stat, t`pending, mutexes`owner
    {
      if t.stat == Suspended && t.pending != null && t.pending in mutexes then t.pending.owner else null
    }

    /** The thread `k + 1` steps down the chain of owners that `t` waits for. */
    ghost function Chain(t: Thread, k: nat): Thread?
      reads t`stat, t`pending, threads`stat, threads`pending, mutexes`owner
    {
      if k == 0 then Blocker(t) else
        var u := Chain(t, k - 1);
        if u == null || u !in threads then null else Blocker(u)
    }

    /** `u` is somewhere down the chain of owners that `t` waits for. */
    ghost predicate Behind(t: Thread, u: Thread)
      reads t`stat, t`pending, threads`stat, threads`pending, mutexes`owner
    {
      exists k: nat :: Chain(t, k) == u
    }

    lemma ChainNext(t: Thread, u: Thread)
      requires u == t || Behind(t, u)
      requires u in threads && Blocker(u) != null
      ensures Behind(t, Blocker(u))
    {
      if u == t {
        assert Chain(t, 0) == Blocker(t);
      } else {
        var k: nat :| Chain(t, k) == u;
        assert Chain(t, k + 1) == Blocker(u);
      }
    }

    lemma {:induction false} ChainShift(t: Thread, k: nat)
      requires Blocker(t) != null && Blocker(t) in threads
      ensures Chain(Blocker(t), k) == Chain(t, k + 1)
    {
      if k > 0 { ChainShift(t, k - 1); }
    }

    /** What is behind the thread one waits for is behind oneself. */
    lemma ChainAhead(t: Thread)
      requires Blocker(t) != null && Blocker(t) in threads
      ensures Behind(t, Blocker(t))
      ensures forall u :: u in threads && Behind(Blocker(t), u) ==> Behind(t, u)
    {
      assert Chain(t, 0) == Blocker(t);
      forall u, k: nat | u in threads && Chain(Blocker(t), k) == u ensures Behind(t, u) {
        ChainShift(t, k);
      }
    }

    lemma Waiting(t: Thread)
      requires Structure() && t in threads && t.stat == Suspended && t.pending != null
      ensures t in t.pending.waiters && Blocker(t) == t.pending.owner && t.pending.owner in threads
      ensures t.pending in mutexes
    {
    }

    lemma Owned(m: Mutex)
      requires Structure() && m in mutexes && m.owner != null
      ensures m.owner in threads && m in m.owner.taken
      ensures forall t :: t in threads && m in t.taken ==> t == m.owner
    {
    }

    /** A thread on the way down the chain from `t`, or `t` itself, waits for the mutex. */
    ghost predicate OnWay(t: Thread, m: Mutex)
      reads t`stat, t`pending, threads`stat, threads`pending, mutexes`owner
    {
      || (t.stat == Suspended && t.pending == m)
      || exists u :: u in threads && Behind(t, u) && u.stat == Suspended && u.pending == m
    }

    ghost predicate AllOnWay(t: Thread, ms: set<Mutex>)
      reads t`stat, t`pending, threads`stat, threads`pending, mutexes`owner
    {
      forall m :: m in ms ==> OnWay(t, m)
    }

    lemma NoneOnWay(t: Thread)
      ensures AllOnWay(t, {})
    {
    }

    lemma OnWayIs(t: Thread, ms: set<Mutex>)
      requires AllOnWay(t, ms)
      ensures forall m :: m in ms ==> OnWay(t, m)
    {
      hide OnWay;
    }

    lemma WayOn(t: Thread, ms: set<Mutex>, u: Thread)
      requires AllOnWay(t, ms)
      requires u in threads && u.stat == Suspended && u.pending != null && (u == t || Behind(t, u))
      ensures AllOnWay(t, ms + {u.pending})
    {
      hide Behind;
    }

    /** A mutex on the way down the chain from its own owner: the owner waits for itself. */
    lemma WayRound(m: Mutex)
      requires Structure() && m in mutexes && m.owner != null && OnWay(m.owner, m)
      ensures Behind(m.owner, m.owner)
    {
      hide Structure, Behind;
      Owned(m);
      var u :| u in threads && (u == m.owner || Behind(m.owner, u)) && u.stat == Suspended && u.pending == m;
      Waiting(u);
      ChainNext(m.owner, u);
    }

    /** Nothing is behind a thread that waits for no mutex. */
    lemma {:induction false} ChainEnds(t: Thread, k: nat)
      requires Blocker(t) == null
      ensures Chain(t, k) == null
    {
      if k > 0 { ChainEnds(t, k - 1); }
    }

    lemma NothingBehind(t: Thread)
      requires Blocker(t) == null
      ensures forall u :: u in threads ==> !Behind(t, u)
    {
      forall u, k: nat | u in threads ensures Chain(t, k) != u { ChainEnds(t, k); }
    }

    lemma Running(t: Thread)
      requires t.stat != Suspended
      ensures forall u :: u in threads ==> !Behind(t, u)
      ensures forall m :: m in mutexes ==> !OnWay(t, m)
    {
      hide Chain, Behind;
      NothingBehind(t);
    }

    /** The wait list of `m` is in order but for `thread`, whose priority used to be `was`. */
    ghost predicate Displaced(m: Mutex, thread: Thread, was: Priority)
      reads m`waiters, m`priority, Without(m.waiters, thread)`current_priority
    {
      && thread in m.waiters
      && InOrder(Without(m.waiters, thread))
      && m.priority == Min(was, Head(Without(m.waiters, thread)))
    }

    /** A thread that is in the list nowhere joins it. */
    method LineUp(mutex: Mutex, thread: Thread)
      requires InOrder(mutex.waiters) && Distinct(mutex.waiters) && thread !in mutex.waiters
      modifies mutex`waiters
      ensures Distinct(mutex.waiters) && forall t :: t in mutex.waiters <==> t == thread || t in old(mutex.waiters)
      ensures InOrder(mutex.waiters) && Head(mutex.waiters) == Min(thread.current_priority, Head(old(mutex.waiters)))
      ensures Joins(old(mutex.waiters), thread, mutex.waiters)
    {
      hide InOrder, Head, Distinct;
      ghost var before := mutex.waiters;
      ghost var n := ListInsert(mutex, thread);
      InsertMembers(before, n, thread);
      assert JoinsAt(before, thread, mutex.waiters, n);
    }

    /** Take a waiter whose priority changed out of its wait list and put it back where it belongs. */
    method Requeue(mutex: Mutex, thread: Thread, ghost was: Priority)
      requires Displaced(mutex, thread, was) && Distinct(mutex.waiters)
      modifies mutex`waiters, mutex`priority
      ensures Queued(mutex) && Distinct(mutex.waiters)
      ensures forall t :: t in mutex.waiters <==> t in old(mutex.waiters)
      ensures Joins(Without(old(mutex.waiters), thread), thread, mutex.waiters)
      ensures thread.current_priority <= was ==> mutex.priority <= old(mutex.priority)
      ensures was <= thread.current_priority ==> old(mutex.priority) <= mutex.priority
    {
      hide InOrder, Head, Distinct, Joins, Without;
      WithoutIff(mutex.waiters, thread);
      mutex.waiters := Without(mutex.waiters, thread);
      LineUp(mutex, thread);
      MutexUpdatePriority(mutex);
    }

    /** Everything `Valid` says, except that `thread` may be out of place in the list it waits in. */
    ghost predicate ValidBut(thread: Thread, was: Priority)
      reads this`exact, threads, mutexes, set t, i | t in threads && 0 <= i < |t.taken| :: t.taken[i]
      reads set m, i | m in mutexes && 0 <= i < |m.waiters| :: m.waiters[i]
    {
      && Structure()
      && (forall t :: t in threads ==> Bounded(t, exact))
      && (forall m :: m in mutexes ==>
        if thread in m.waiters then Displaced(m, thread, was) else Queued(m))
    }

    /** `rt_thread_control(RT_THREAD_CTRL_CHANGE_PRIORITY)`. */
    method Control(thread: Thread, priority: Priority)
      requires Distinct(threads) && thread in threads
      modifies thread`current_priority
      ensures thread.current_priority == priority
      ensures Total(Priorities(threads)) ==
        old(Total(Priorities(threads))) + priority - old(thread.current_priority)
    {
      ghost var i :| 0 <= i < |threads| && threads[i] == thread;
      ghost var before := Priorities(threads);
      thread.current_priority := priority;
      TotalMoves(before, i, priority);
      assert Priorities(threads) == before[i := priority];
    }

    /** A priority that fits the thread may displace it in the list it waits in, and nothing else. */
    method ChangePriority(thread: Thread, priority: Priority)
      requires Structure() && thread in threads
      requires forall t :: t in threads && t != thread ==> Bounded(t, exact)
      requires forall m :: m in mutexes ==> Queued(m)
      requires Fits(thread, thread.taken, priority, exact)
      modifies thread`current_priority
      ensures thread.current_priority == priority
      ensures ValidBut(thread, old(thread.current_priority))
      ensures Total(Priorities(threads)) ==
        old(Total(Priorities(threads))) + priority - old(thread.current_priority)
    {
      hide Structure, InOrder, Head, Distinct, UrgentEnough, NoMore, Justified;
      DistinctThreads();
      forall m | m in mutexes && thread in m.waiters
        ensures InOrder(Without(m.waiters, thread))
        ensures m.priority == Min(thread.current_priority, Head(Without(m.waiters, thread)))
      {
        Queue(m);
        OrderWithout(m.waiters, thread);
      }
      Control(thread, priority);
    }

    /** Put a displaced waiter back: only the owner of the mutex may now be off its bounds. */
    method Resettle(thread: Thread, ghost was: Priority)
      requires thread in threads && ValidBut(thread, was)
      requires thread.stat == Suspended && thread.pending != null
      modifies thread.pending`waiters, thread.pending`priority
      ensures Structure()
      ensures forall m :: m in mutexes ==> Queued(m)
      ensures thread.pending.owner in threads
      ensures forall t :: t in threads && t != thread.pending.owner ==> Bounded(t, exact)
      ensures thread.current_priority <= was ==>
          Justified(thread.pending.owner, thread.pending.owner.taken, thread.pending.owner.current_priority)
      ensures forall t :: t in thread.pending.waiters <==> t in old(thread.pending.waiters)
    {
      hide Joins, Without;
      var m := thread.pending;
      ghost var owner := m.owner;
      Requeue(m, thread, was);
      assert Structure() by {
        forall x | x in mutexes ensures MutexOk(x, null) {
          assert old(MutexOk(x, null));
        }
        forall t | t in threads ensures ThreadOk(t, null) {
          assert old(ThreadOk(t, null));
        }
      }
      hide Structure;
    }

    /** A thread that waits for no mutex cannot be out of place. */
    lemma Settled(thread: Thread, was: Priority)
      requires thread in threads && ValidBut(thread, was)
      requires thread.stat != Suspended || thread.pending == null
      ensures Valid()
    {
      assert forall m :: m in mutexes ==> thread !in m.waiters;
    }

    /** One turn of the loop of `_thread_update_priority`: the owner that has to follow, if any. */
    method WalkStep(thread: Thread, ghost was: Priority) returns (next: Thread?, ghost before: Priority)
      requires thread in threads && ValidBut(thread, was)
      requires thread.stat == Suspended && thread.pending != null
      modifies threads`current_priority, mutexes`waiters, mutexes`priority
      ensures next == null ==> Valid()
      ensures next != null ==> next in threads && ValidBut(next, before) && next.current_priority != before
      ensures next != null && old(thread.current_priority) <= was ==> next.current_priority < before
      ensures next != null ==> next == Blocker(thread) && before == old(next.current_priority)
      ensures forall t :: t in threads && t != next ==> t.current_priority == old(t.current_priority)
      ensures forall m :: m in mutexes && m != thread.pending ==> m.waiters == old(m.waiters)
      ensures next != null ==>
        Total(Priorities(threads)) == old(Total(Priorities(threads))) + next.current_priority - before
    {
      hide Queued, Displaced, Structure, StructureBut, Priorities, Total, UrgentEnough, NoMore;
      Waiting(thread);
      var owner := thread.pending.owner;
      Resettle(thread, was);
      var p := GetMutexPriority(owner);
      before := owner.current_priority;
      assert old(thread.current_priority) <= was ==> Justified(owner, owner.taken, before);
      if p != owner.current_priority {
        next := owner;
        ChangePriority(owner, p);
      } else {
        next := null;
        assert Bounded(owner, exact);
      }
    }

    /**
     `_thread_update_priority`: change a priority and repair the chain of owners behind it.
     The walk ends on every wait graph, cycles included: while it raises urgency the sum of the
     priorities falls, while it lowers urgency the sum rises, and it changes direction only once.
     */
    method UpdatePriority(start: Thread, priority: Priority)
      requires Structure() && start in threads
      requires forall t :: t in threads && t != start ==> Bounded(t, exact)
      requires forall m :: m in mutexes ==> Queued(m)
      requires Fits(start, start.taken, priority, exact)
      modifies threads`current_priority, mutexes`waiters, mutexes`priority
      ensures Valid()
      ensures forall t :: t in threads ==>
        t.current_priority == (if t == start then priority else old(t.current_priority)) || Behind(start, t)
      ensures priority <= old(start.current_priority) ==>
        forall t :: t in threads ==> t.current_priority <= old(t.current_priority)
      ensures forall m :: m in mutexes ==> m.waiters == old(m.waiters) || OnWay(start, m)
    {
      hide *;
      var thread: Thread? := start;
      ghost var was: Priority, lowering := start.current_priority, start.current_priority < priority;
      ghost var disturbed: set<Mutex> := {};
      NoneOnWay(start);
      ChangePriority(start, priority);
      while thread != null && thread.stat == Suspended && thread.pending != null
        invariant thread == null ==> Valid()
        invariant thread != null ==> thread in threads && ValidBut(thread, was)
        invariant thread != null ==> thread == start || Behind(start, thread)
        invariant forall t :: t in threads ==>
          t.current_priority == (if t == start then priority else old(t.current_priority)) || Behind(start, t)
        invariant priority <= old(start.current_priority) ==>
          !lowering && forall t :: t in threads ==> t.current_priority <= old(t.current_priority)
        invariant thread != null && !lowering ==> thread.current_priority <= was
        invariant forall m :: m in mutexes && m !in disturbed ==> m.waiters == old(m.waiters)
        invariant AllOnWay(start, disturbed)
        decreases thread != null, lowering,
          if lowering then NO_PRIORITY * |threads| - Total(Priorities(threads)) else Total(Priorities(threads))
      {
        TotalBound(Priorities(threads));
        ghost var before: Priority, waiter := was, thread;
        WayOn(start, disturbed, waiter);
        disturbed := disturbed + {waiter.pending};
        thread, before := WalkStep(thread, was);
        TotalBound(Priorities(threads));
        assert waiter.pending in disturbed;
        if thread != null {
          ChainNext(start, waiter);
          assert thread == start || Behind(start, thread);
          was, lowering := before, lowering && before < thread.current_priority;
        }
      }
      if thread != null {
        Settled(thread, was);
      }
      OnWayIs(start, disturbed);
    }

    // ---------------------------------------------------------------- operations

    lemma Unowned(m: Mutex)
      requires Structure() && m in mutexes && m.owner == null
      ensures m.waiters == [] && forall t :: t in threads ==> m !in t.taken
    {
    }

    method Link(mutex: Mutex, thread: Thread)
      requires Structure() && mutex in mutexes && thread in threads
      requires mutex.owner == null && mutex.waiters == []
      modifies mutex`owner, mutex`priority, mutex`hold, thread`taken
      ensures Structure()
      ensures mutex.owner == thread && mutex.priority == NO_PRIORITY && mutex.hold == 1
      ensures thread.taken == [mutex] + old(thread.taken)
    {
      hide Distinct;
      Unowned(mutex);
      DistinctCons(mutex, thread.taken);
      mutex.owner := thread;
      mutex.priority := NO_PRIORITY;
      mutex.hold := 1;
      thread.taken := [mutex] + thread.taken;
      assert forall m :: m in thread.taken <==> m == mutex || m in old(thread.taken);
      forall m | m in mutexes ensures MutexOk(m, null) {
        assert old(MutexOk(m, null));
      }
      forall t | t in threads ensures ThreadOk(t, null) {
        assert old(ThreadOk(t, null));
      }
    }

    /** `_rt_mutex_take` of a mutex nobody owns, up to the ceiling. */
    method SetOwner(mutex: Mutex, thread: Thread)
      requires Valid() && mutex in mutexes && thread in threads && mutex.owner == null
      modifies mutex`owner, mutex`priority, mutex`hold, thread`taken
      ensures Structure()
      ensures forall m :: m in mutexes ==> Queued(m)
      ensures forall t :: t in threads && t != thread ==> Bounded(t, exact)
      ensures Fits(thread, thread.taken, Min(thread.current_priority, mutex.ceiling), exact)
      ensures mutex.owner == thread && mutex.priority == NO_PRIORITY && mutex.hold == 1
      ensures thread.taken == [mutex] + old(thread.taken)
    {
      hide Structure, InOrder, Fits;
      Unowned(mutex);
      Link(mutex, thread);
      FitsTake(thread, mutex, old(thread.taken), thread.current_priority, exact);
    }

    /** `_rt_mutex_take` of a mutex nobody owns. */
    method TakeFree(mutex: Mutex, thread: Thread)
      requires Valid() && mutex in mutexes && thread in threads
      requires mutex.owner == null && thread.stat == Active
      modifies mutex`owner, mutex`priority, mutex`hold, thread`taken
      modifies threads`current_priority, mutexes`waiters, mutexes`priority
      ensures Valid()
      ensures mutex.owner == thread && mutex.hold == 1 && thread.taken == [mutex] + old(thread.taken)
      ensures forall t :: t in threads ==>
        t.current_priority ==
          (if t == thread then Min(mutex.ceiling, old(t.current_priority)) else old(t.current_priority))
      ensures forall m :: m in mutexes ==> m.waiters == old(m.waiters)
    {
      hide Structure, Queued, Total, Priorities, Chain, Behind, OnWay;
      // The source links the mutex into the taken list last; with interrupts disabled nothing
      // looks at that list before.
      SetOwner(mutex, thread);
      if mutex.ceiling != NO_PRIORITY {
        if mutex.ceiling < thread.current_priority {
          Running(thread);
          UpdatePriority(thread, mutex.ceiling);
        }
      }
    }

    /** `_rt_mutex_take` of a mutex somebody else owns: wait, and pass the priority on. */
    method Block(mutex: Mutex, thread: Thread)
      requires Valid() && mutex in mutexes && thread in threads
      requires mutex.owner != null && mutex.owner != thread && thread.stat == Active
      modifies thread`stat, thread`pending
      modifies threads`current_priority, mutexes`waiters, mutexes`priority
      ensures Valid()
      ensures thread.stat == Suspended && thread.pending == mutex && thread in mutex.waiters
      ensures forall t :: t in threads ==> t.current_priority <= old(t.current_priority)
      ensures forall t :: t in threads ==>
        t.current_priority == old(t.current_priority) || Behind(thread, t)
      // unless the owner waits behind the thread or behind itself, nothing else happens to the wait list
      ensures old(!Behind(mutex.owner, mutex.owner) && !Behind(mutex.owner, thread)) ==>
        Joins(old(mutex.waiters), thread, mutex.waiters)
    {
      hide Structure, Queued, Bounded, Behind, Chain, InOrder, Head, Joins;
      var priority := thread.current_priority;
      Owned(mutex);
      ghost var before := mutex.waiters;
      Suspend(mutex, thread);
      PassOn(mutex, priority, before, thread);
      Waiting(thread);
      ChainAhead(thread);
    }

    /** Who waits for whom. */
    ghost function Blocks(): map<Thread, Thread>
      reads threads`stat, threads`pending, mutexes`owner
    {
      map t | t in threads && Blocker(t) != null :: Blocker(t)
    }

    lemma {:induction false} ChainIsPath(t: Thread, k: nat)
      requires t in threads
      ensures Chain(t, k) == Path(Blocks(), t, k)
    {
      if k > 0 { ChainIsPath(t, k - 1); }
    }

    lemma BehindLeads(t: Thread, u: Thread)
      requires t in threads
      ensures Behind(t, u) <==> Leads(Blocks(), t, u)
    {
      hide Blocks, Path, Chain;
      if Behind(t, u) {
        var k: nat :| Chain(t, k) == u;
        ChainIsPath(t, k);
      }
      if Leads(Blocks(), t, u) {
        var k: nat :| Path(Blocks(), t, k) == u;
        ChainIsPath(t, k);
      }
    }

    /** A waiter is not the owner, and not behind it unless the owner waits for itself. */
    lemma NotAhead(mutex: Mutex, t: Thread)
      requires Structure() && mutex in mutexes && mutex.owner != null && t in mutex.waiters
      ensures t in threads && t != mutex.owner && (Behind(mutex.owner, t) ==> Behind(mutex.owner, mutex.owner))
    {
      WaitsHere(mutex, t);
      assert t != mutex.owner;
      hide Structure, Behind;
      if Behind(mutex.owner, t) { ChainNext(mutex.owner, t); }
    }

    /** The waiter just queued on `mutex` makes the owner, and whoever it waits for, as urgent. */
    method PassOn(mutex: Mutex, priority: Priority, ghost before: seq<Thread>, ghost thread: Thread)
      requires Structure() && mutex in mutexes && mutex.owner != null
      requires forall m :: m in mutexes && m != mutex ==> Queued(m)
      requires InOrder(mutex.waiters) && Head(mutex.waiters) == Min(priority, mutex.priority)
      requires forall t :: t in threads ==> Bounded(t, exact)
      requires Joins(before, thread, mutex.waiters)
      modifies threads`current_priority, mutexes`waiters, mutexes`priority
      ensures Valid()
      ensures forall t :: t in threads ==> t.current_priority <= old(t.current_priority)
      ensures forall t :: t in threads ==>
        t.current_priority == old(t.current_priority) || t == mutex.owner || Behind(mutex.owner, t)
      ensures !Behind(mutex.owner, mutex.owner) ==> Joins(before, thread, mutex.waiters)
    {
      hide Structure, Valid, Queued, Bounded, InOrder, Head, Chain, Behind;
      ghost var n: nat :| JoinsAt(before, thread, mutex.waiters, n);
      Lend(mutex, priority);
      if !Behind(mutex.owner, mutex.owner) {
        assert mutex.waiters[n] == thread;
        forall i | 0 <= i < |before| ensures before[i].current_priority == old(before[i].current_priority) {
          assert before[i] == mutex.waiters[if i < n then i else i + 1];
        }
        assert JoinsAt(before, thread, mutex.waiters, n);
      }
    }

    method Lend(mutex: Mutex, priority: Priority)
      requires Structure() && mutex in mutexes && mutex.owner != null
      requires forall m :: m in mutexes && m != mutex ==> Queued(m)
      requires InOrder(mutex.waiters) && Head(mutex.waiters) == Min(priority, mutex.priority)
      requires forall t :: t in threads ==> Bounded(t, exact)
      modifies threads`current_priority, mutexes`waiters, mutexes`priority
      ensures Valid()
      ensures forall t :: t in threads ==> t.current_priority <= old(t.current_priority)
      ensures forall t :: t in threads ==>
        t.current_priority == old(t.current_priority) || t == mutex.owner || Behind(mutex.owner, t)
      ensures !Behind(mutex.owner, mutex.owner) ==>
        && mutex.waiters == old(mutex.waiters)
        && forall i :: 0 <= i < |mutex.waiters| ==>
             mutex.waiters[i].current_priority == old(mutex.waiters[i].current_priority)
    {
      hide Structure, InOrder, Head, Total, Priorities, Chain, Behind, OnWay;
      Owned(mutex);
      if priority < mutex.priority {
        mutex.priority := priority;
        if mutex.priority < mutex.owner.current_priority {
          UpdatePriority(mutex.owner, priority);
          Undisturbed(mutex);
        }
      }
    }

    /** What happens down the chain from the owner does not concern those who wait for it. */
    lemma Undisturbed(m: Mutex)
      requires Structure() && m in mutexes && m.owner != null
      ensures !Behind(m.owner, m.owner) ==> !OnWay(m.owner, m)
      ensures !Behind(m.owner, m.owner) ==>
        forall i :: 0 <= i < |m.waiters| ==>
          m.waiters[i] in threads && m.waiters[i] != m.owner && !Behind(m.owner, m.waiters[i])
    {
      hide Structure, Behind, Chain, OnWay;
      if !Behind(m.owner, m.owner) {
        if OnWay(m.owner, m) { WayRound(m); }
        forall i | 0 <= i < |m.waiters|
          ensures m.waiters[i] in threads && m.waiters[i] != m.owner && !Behind(m.owner, m.waiters[i])
        {
          NotAhead(m, m.waiters[i]);
        }
      }
    }

    method Suspend(mutex: Mutex, thread: Thread)
      requires Valid() && mutex in mutexes && thread in threads
      requires mutex.owner != null && mutex.owner != thread && thread.stat == Active
      modifies thread`stat, thread`pending, mutex`waiters
      ensures Structure()
      ensures forall m :: m in mutexes && m != mutex ==> Queued(m)
      ensures InOrder(mutex.waiters) && Head(mutex.waiters) == Min(thread.current_priority, mutex.priority)
      ensures forall t :: t in threads ==> Bounded(t, exact)
      ensures thread.stat == Suspended && thread.pending == mutex && thread in mutex.waiters
      ensures Joins(old(mutex.waiters), thread, mutex.waiters)
      ensures old(!Behind(mutex.owner, mutex.owner) && !Behind(mutex.owner, thread)) ==>
        !Behind(mutex.owner, mutex.owner)
    {
      hide Structure, InOrder, Head, Fits, Joins, Behind, Leads;
      Owned(mutex);
      ghost var owner, before := mutex.owner, Blocks();
      BehindLeads(owner, owner);
      BehindLeads(owner, thread);
      Enlist(mutex, thread);
      BehindLeads(owner, owner);
      assert forall u :: u in threads && u != thread ==> Blocker(u) == old(Blocker(u));
      if !Leads(before, owner, thread) { LeadsStill(before, Blocks(), thread, owner); }
    }

    method Enlist(mutex: Mutex, thread: Thread)
      requires Structure() && mutex in mutexes && thread in threads && InOrder(mutex.waiters)
      requires mutex.owner != null && mutex.owner != thread && thread.stat == Active
      modifies thread`stat, thread`pending, mutex`waiters
      ensures Structure()
      ensures InOrder(mutex.waiters) && Head(mutex.waiters) == Min(thread.current_priority, Head(old(mutex.waiters)))
      ensures thread.stat == Suspended && thread.pending == mutex && thread in mutex.waiters
      ensures Joins(old(mutex.waiters), thread, mutex.waiters)
    {
      hide InOrder, Head, Distinct, Joins;
      Absent(mutex, thread);
      thread.stat, thread.pending := Suspended, mutex;
      LineUp(mutex, thread);
      forall m | m in mutexes ensures MutexOk(m, null) {
        assert old(MutexOk(m, null));
      }
      forall t | t in threads ensures ThreadOk(t, null) {
        assert old(ThreadOk(t, null));
      }
    }

    lemma Absent(mutex: Mutex, thread: Thread)
      requires Structure() && mutex in mutexes && thread in threads && thread.stat != Suspended
      ensures Distinct(mutex.waiters) && thread !in mutex.waiters
    {
    }

    lemma TakenOnce(t: Thread)
      requires Structure() && t in threads
      ensures Distinct(t.taken)
    {
    }

    lemma ChangingHands(m: Mutex)
      requires m in mutexes && StructureBut(m)
      ensures Distinct(m.waiters) && forall t :: t in m.waiters ==> t in threads
      ensures forall t :: t in threads ==> m !in t.taken
    {
    }

    lemma WaitsOnce(m: Mutex, t: Thread)
      requires m in mutexes && StructureBut(m) && t in m.waiters
      ensures t in threads && t.stat == Suspended && t.pending == m && Distinct(m.waiters) && Distinct(t.taken)
      ensures m !in t.taken
      ensures forall x :: x in mutexes && x != m ==> t !in x.waiters
    {
    }

    lemma WaitsHere(m: Mutex, t: Thread)
      requires m in mutexes && Structure() && t in m.waiters
      ensures t in threads && t.stat == Suspended && t.pending == m
      ensures forall x :: x in mutexes && x != m ==> t !in x.waiters
    {
    }

    lemma NotWaiting(t: Thread)
      requires Structure() && t in threads && t.stat != Suspended
      ensures Distinct(threads) && forall m :: m in mutexes ==> t !in m.waiters
    {
    }

    /** Take a mutex off the taken list of its owner. */
    method Unlink(mutex: Mutex, thread: Thread)
      requires Structure() && mutex in mutexes && thread in threads
      requires mutex.owner == thread && mutex.hold == 1
      modifies mutex`hold, thread`taken
      ensures StructureBut(mutex)
      ensures mutex.hold == 0 && thread.taken == Without(old(thread.taken), mutex)
      ensures forall m :: m in thread.taken <==> m in old(thread.taken) && m != mutex
    {
      hide Distinct, Without;
      Owned(mutex);
      TakenOnce(thread);
      WithoutMembers(thread.taken, mutex);
      assert forall m :: m in Without(thread.taken, mutex) <==> m in thread.taken && m != mutex;
      mutex.hold := mutex.hold - 1;
      thread.taken := Without(thread.taken, mutex);
      forall m | m in mutexes ensures MutexOk(m, mutex) {
        assert old(MutexOk(m, null));
      }
      forall t | t in threads ensures ThreadOk(t, mutex) {
        assert old(ThreadOk(t, null));
      }
    }

    /** `rt_mutex_release` of the last hold, up to the wake-up: give back what the mutex justified. */
    method GiveUp(mutex: Mutex, thread: Thread)
      requires Valid() && mutex in mutexes && thread in threads
      requires mutex.owner == thread && thread.stat == Active && mutex.hold == 1
      modifies mutex`hold, thread`taken, thread`current_priority
      ensures StructureBut(mutex)
      ensures forall m :: m in mutexes ==> Queued(m)
      ensures forall t :: t in threads ==> Bounded(t, exact)
      ensures mutex.hold == 0 && thread.taken == Without(old(thread.taken), mutex)
      ensures if mutex.ceiling != NO_PRIORITY || old(thread.current_priority) == mutex.priority
        then Fits(thread, thread.taken, thread.current_priority, true)
        else thread.current_priority == old(thread.current_priority)
    {
      hide Structure, StructureBut, InOrder, Head, Distinct, Total, Priorities, UrgentEnough, NoMore, Justified;
      Owned(mutex);
      NotWaiting(thread);
      TakenOnce(thread);
      if mutex.ceiling == NO_PRIORITY && thread.current_priority != mutex.priority {
        FitsDrop(thread, mutex, thread.taken, thread.current_priority, exact);
      }
      Unlink(mutex, thread);
      if mutex.ceiling != NO_PRIORITY || thread.current_priority == mutex.priority {
        var priority := GetMutexPriority(thread);
        Control(thread, priority);
      }
    }

    /** The rest of `rt_mutex_release` when somebody waits: the first waiter becomes the owner. */
    method HandOff(mutex: Mutex, next: Thread)
      requires mutex in mutexes && StructureBut(mutex) && mutex.waiters != [] && next == mutex.waiters[0]
      requires forall m :: m in mutexes ==> Queued(m)
      requires forall t :: t in threads ==> Bounded(t, exact)
      modifies mutex`waiters, mutex`owner, mutex`hold, mutex`priority
      modifies next`taken, next`pending, next`stat, this`exact
      ensures Valid()
      ensures exact == (old(exact) && next.current_priority <= mutex.ceiling)
      ensures NoMore(next, next.taken, next.current_priority) <==>
        old(NoMore(next, next.taken, next.current_priority)) && next.current_priority <= mutex.ceiling
      ensures mutex.owner == next && mutex.hold == 1
      ensures mutex.waiters == old(mutex.waiters)[1..]
      ensures next.taken == [mutex] + old(next.taken)
      ensures next.stat == Active && next.pending == null
    {
      hide StructureBut, Structure, Queued, Fits, NoMore;
      Promote(mutex, next);
      FitsTake(next, mutex, old(next.taken), next.current_priority, exact);
      NoMoreTake(next, mutex, old(next.taken), next.current_priority);
      FitsLess(exact, exact && next.current_priority <= mutex.ceiling);
      exact := exact && next.current_priority <= mutex.ceiling;
    }

    lemma FitsLess(before: bool, after: bool)
      requires after ==> before
      ensures forall t, taken, p :: Fits(t, taken, p, before) ==> Fits(t, taken, p, after)
    {
      hide UrgentEnough, NoMore, Justified;
    }

    /** The first waiter becomes the owner, and the mutex caches the priority of the one behind it. */
    method Promote(mutex: Mutex, next: Thread)
      requires mutex in mutexes && StructureBut(mutex) && mutex.waiters != [] && next == mutex.waiters[0]
      requires forall m :: m in mutexes ==> Queued(m)
      requires forall t :: t in threads ==> Bounded(t, exact)
      modifies mutex`waiters, mutex`owner, mutex`hold, mutex`priority
      modifies next`taken, next`pending, next`stat
      ensures Structure() && next in threads
      ensures forall m :: m in mutexes ==> Queued(m)
      ensures forall t :: t in threads && t != next ==> Bounded(t, exact)
      ensures Fits(next, old(next.taken), next.current_priority, exact) && next.current_priority <= mutex.priority
      ensures NoMore(next, old(next.taken), next.current_priority) <==>
        old(NoMore(next, next.taken, next.current_priority))
      ensures mutex.owner == next && mutex.hold == 1
      ensures mutex.waiters == old(mutex.waiters)[1..]
      ensures next.taken == [mutex] + old(next.taken)
      ensures next.stat == Active && next.pending == null
    {
      hide StructureBut, Structure, InOrder, Head, Distinct, Without, UrgentEnough, NoMore, Justified;
      ChangingHands(mutex);
      OrderWithout(mutex.waiters, next);
      HeadFirst(mutex.waiters);
      Rewire(mutex, next);
      MutexUpdatePriority(mutex);
    }

    method Rewire(mutex: Mutex, next: Thread)
      requires mutex in mutexes && StructureBut(mutex) && mutex.waiters != [] && next == mutex.waiters[0]
      modifies mutex`waiters, mutex`owner, mutex`hold
      modifies next`taken, next`pending, next`stat
      ensures Structure()
      ensures mutex.owner == next && mutex.hold == 1
      ensures mutex.waiters == old(mutex.waiters)[1..]
      ensures next.taken == [mutex] + old(next.taken)
      ensures next.stat == Active && next.pending == null
    {
      hide Distinct, Without;
      WaitsOnce(mutex, next);
      FirstLeaves(mutex.waiters);
      WithoutIff(mutex.waiters, next);
      DistinctCons(mutex, next.taken);
      mutex.waiters := Without(mutex.waiters, next);
      mutex.owner := next;
      mutex.hold := 1;
      next.taken := [mutex] + next.taken;
      next.pending := null;
      next.stat := Active;
      assert forall m :: m in next.taken <==> m == mutex || m in old(next.taken);
      forall m | m in mutexes ensures MutexOk(m, null) {
        assert old(MutexOk(m, mutex));
      }
      forall t | t in threads ensures ThreadOk(t, null) {
        assert old(ThreadOk(t, mutex));
      }
    }

    /** The rest of `rt_mutex_release` when nobody waits. */
    method Clear(mutex: Mutex)
      requires mutex in mutexes && StructureBut(mutex) && mutex.waiters == [] && mutex.hold == 0
      requires forall m :: m in mutexes ==> Queued(m)
      requires forall t :: t in threads ==> Bounded(t, exact)
      modifies mutex`owner, mutex`priority
      ensures Valid() && mutex.owner == null
    {
      hide Distinct, InOrder, UrgentEnough, NoMore, Justified;
      mutex.owner := null;
      mutex.priority := NO_PRIORITY;
    }

    /** `_rt_mutex_take`, up to the point where the caller has the mutex, has failed, or waits. */
    method Take(mutex: Mutex, thread: Thread, timeout: int) returns (r: Status)
      requires Valid() && mutex in mutexes && thread in threads && thread.stat == Active
      modifies mutex`owner, mutex`hold, thread`taken, thread`stat, thread`pending, thread`error
      modifies threads`current_priority, mutexes`waiters, mutexes`priority
      ensures Valid()
      ensures r == (if old(mutex.owner) == thread then (if old(mutex.hold) < HOLD_MAX then EOk else EFull)
        else if old(mutex.owner) == null then EOk else if timeout == 0 then ETimeout else Blocked)
      ensures thread.error == (if r == ETimeout then ETimeout else EOk)
      // it has the mutex, once more than before
      ensures r == EOk ==> mutex.owner == thread && mutex.hold == old(mutex.hold) + 1
      ensures r == EOk ==> thread.stat == Active
      ensures r == EOk ==>
        thread.taken == (if old(mutex.owner) == null then [mutex] else []) + old(thread.taken)
      ensures r == EOk ==> forall t :: t in threads ==>
        && (t == thread && old(mutex.owner) == null ==>
          t.current_priority == Min(mutex.ceiling, old(t.current_priority)))
        && (t != thread || old(mutex.owner) != null ==> t.current_priority == old(t.current_priority))
      // it waits, and made urgent only threads its wait depends on
      ensures r == Blocked ==> thread.stat == Suspended && thread.pending == mutex && thread in mutex.waiters
      ensures r == Blocked ==> forall t :: t in threads ==> t.current_priority <= old(t.current_priority)
      ensures r == Blocked ==> forall t :: t in threads ==>
        t.current_priority == old(t.current_priority) || Behind(thread, t)
      // unless the owner waits behind it or behind itself, it stands behind its equals and the others as before
      ensures r == Blocked && !old(Behind(mutex.owner, mutex.owner) || Behind(mutex.owner, thread)) ==>
        Joins(old(mutex.waiters), thread, mutex.waiters)
      ensures r != EOk ==>
        mutex.owner == old(mutex.owner) && mutex.hold == old(mutex.hold) && thread.taken == old(thread.taken)
      ensures r != Blocked ==> forall m :: m in mutexes ==> m.waiters == old(m.waiters)
      // it failed, and nothing changed
      ensures r == EFull || r == ETimeout ==> thread.stat == Active && thread.pending == old(thread.pending)
      ensures r == EFull || r == ETimeout ==>
        forall t :: t in threads ==> t.current_priority == old(t.current_priority)
    {
      hide Structure, Queued, Bounded, Behind, Joins;
      thread.error := EOk;
      if mutex.owner == thread {
        if mutex.hold < HOLD_MAX {
          TakeAgain(mutex);
          r := EOk;
        } else {
          r := EFull;
        }
      } else if mutex.owner == null {
        Idle(mutex);
        TakeFree(mutex, thread);
        r := EOk;
      } else if timeout == 0 {
        thread.error := ETimeout;
        r := ETimeout;
      } else {
        Block(mutex, thread);
        r := Blocked;
      }
    }

    method TakeAgain(mutex: Mutex)
      requires Valid() && mutex in mutexes && mutex.owner != null && mutex.hold < HOLD_MAX
      modifies mutex`hold
      ensures Valid() && mutex.hold == old(mutex.hold) + 1
    {
      hide Queued, Bounded, Distinct;
      mutex.hold := mutex.hold + 1;
    }

    lemma Idle(mutex: Mutex)
      requires Valid() && mutex in mutexes && mutex.owner == null
      ensures mutex.hold == 0
    {
    }

    /** `rt_mutex_release`. */
    method Release(mutex: Mutex, thread: Thread) returns (r: Status)
      requires Valid() && mutex in mutexes && thread in threads && thread.stat == Active
      modifies mutex`owner, mutex`hold, mutex`priority, mutex`waiters, thread`current_priority, thread`error
      modifies threads`taken, threads`stat, threads`pending, this`exact
      ensures Valid()
      ensures r == (if old(mutex.owner) == thread then EOk else EError)
      ensures thread.error == (if r == EError then EError else old(thread.error))
      // not the owner, or not the last hold: nothing but the count changes
      ensures old(mutex.owner) != thread || old(mutex.hold) > 1 ==>
        && mutex.owner == old(mutex.owner) && mutex.waiters == old(mutex.waiters)
        && mutex.hold == old(mutex.hold) - (if r == EOk then 1 else 0)
        && thread.current_priority == old(thread.current_priority) && exact == old(exact)
        && mutex.priority == old(mutex.priority)
        && forall t :: t in threads ==> t.taken == old(t.taken) && t.stat == old(t.stat) && t.pending == old(t.pending)
      // the last hold: the first waiter has the mutex, or nobody
      ensures r == EOk && old(mutex.hold) == 1 && old(mutex.waiters) == [] ==>
        mutex.owner == null && mutex.waiters == [] && exact == old(exact)
      ensures r == EOk && old(mutex.hold) == 1 && old(mutex.waiters) != [] ==>
        var next := old(mutex.waiters)[0];
        && mutex.owner == next && mutex.hold == 1 && mutex.waiters == old(mutex.waiters)[1..]
        && next.taken == [mutex] + old(next.taken) && next.stat == Active && next.pending == null
        && exact == (old(exact) && next.current_priority <= mutex.ceiling)
      // the new owner is not raised to the ceiling: it runs at all it is entitled to exactly if it did
      // before and the ceiling is not more urgent than it is
      ensures r == EOk && old(mutex.hold) == 1 && old(mutex.waiters) != [] ==>
        var next := old(mutex.waiters)[0];
        NoMore(next, next.taken, next.current_priority) <==>
          old(NoMore(mutex.waiters[0], mutex.waiters[0].taken, mutex.waiters[0].current_priority))
          && next.current_priority <= mutex.ceiling
      // the thread is left with what it still holds, and falls back if the mutex made it urgent
      ensures r == EOk && old(mutex.hold) == 1 ==> thread.taken == Without(old(thread.taken), mutex)
      ensures r == EOk && old(mutex.hold) == 1 ==>
        if mutex.ceiling != NO_PRIORITY || old(thread.current_priority) == old(mutex.priority)
        then Fits(thread, thread.taken, thread.current_priority, true)
        else thread.current_priority == old(thread.current_priority)
      // nobody else is touched
      ensures forall t :: t in threads && t != thread && t != mutex.owner ==>
        t.taken == old(t.taken) && t.stat == old(t.stat) && t.pending == old(t.pending)
    {
      hide Queued, Bounded;
      if thread != mutex.owner {
        thread.error := EError;
        return EError;
      }
      if mutex.hold > 1 {
        ReleaseOne(mutex);
        return EOk;
      }
      ReleaseLast(mutex, thread);
      return EOk;
    }

    /** `rt_mutex_release` of the last hold. */
    method ReleaseLast(mutex: Mutex, thread: Thread)
      requires Valid() && mutex in mutexes && thread in threads && thread.stat == Active
      requires mutex.owner == thread && mutex.hold == 1
      modifies mutex`owner, mutex`hold, mutex`priority, mutex`waiters, thread`current_priority
      modifies threads`taken, threads`stat, threads`pending, this`exact
      ensures Valid()
      ensures old(mutex.waiters) == [] ==> mutex.owner == null && mutex.waiters == [] && exact == old(exact)
      ensures old(mutex.waiters) != [] ==>
        var next := old(mutex.waiters)[0];
        && next in threads && next != thread
        && mutex.owner == next && mutex.hold == 1 && mutex.waiters == old(mutex.waiters)[1..]
        && next.taken == [mutex] + old(next.taken) && next.stat == Active && next.pending == null
        && exact == (old(exact) && next.current_priority <= mutex.ceiling)
      ensures old(mutex.waiters) != [] ==>
        var next := old(mutex.waiters)[0];
        NoMore(next, next.taken, next.current_priority) <==>
          old(NoMore(mutex.waiters[0], mutex.waiters[0].taken, mutex.waiters[0].current_priority))
          && next.current_priority <= mutex.ceiling
      ensures thread.taken == Without(old(thread.taken), mutex)
      ensures if mutex.ceiling != NO_PRIORITY || old(thread.current_priority) == old(mutex.priority)
        then Fits(thread, thread.taken, thread.current_priority, true)
        else thread.current_priority == old(thread.current_priority)
      ensures forall t :: t in threads && t != thread && t != mutex.owner ==>
        t.taken == old(t.taken) && t.stat == old(t.stat) && t.pending == old(t.pending)
    {
      hide Structure, StructureBut, Queued, Bounded, Without, Fits, NoMore;
      if mutex.waiters != [] { FirstWaiter(mutex); }
      GiveUp(mutex, thread);
      if mutex.waiters != [] {
        HandOff(mutex, mutex.waiters[0]);
      } else {
        Clear(mutex);
      }
    }

    lemma FirstWaiter(mutex: Mutex)
      requires Structure() && mutex in mutexes && mutex.waiters != []
      ensures mutex.waiters[0] in threads && mutex.waiters[0] != mutex.owner
    {
      assert mutex.waiters[0] in mutex.waiters;
    }

    method ReleaseOne(mutex: Mutex)
      requires Valid() && mutex in mutexes && mutex.hold > 1
      modifies mutex`hold
      ensures Valid() && mutex.hold == old(mutex.hold) - 1
    {
      hide Queued, Bounded, Distinct;
      mutex.hold := mutex.hold - 1;
    }

    /**
     A waiter of priority `was` left the wait list of `mutex` and the cached priority still counts
     it; everything else is as it should be.
     */
    ghost predicate Stale(mutex: Mutex, was: Priority)
      reads this`exact, threads, mutexes, set t, i | t in threads && 0 <= i < |t.taken| :: t.taken[i]
      reads set m, i | m in mutexes && 0 <= i < |m.waiters| :: m.waiters[i], mutex, mutex.waiters
    {
      && Structure()
      && (forall t :: t in threads ==> Bounded(t, exact))
      && (forall m :: m in mutexes && m != mutex ==> Queued(m))
      && InOrder(mutex.waiters) && mutex.priority == Min(was, Head(mutex.waiters))
    }

    lemma DistinctThreads()
      requires Structure()
      ensures Distinct(threads)
    {
    }

    lemma Queue(m: Mutex)
      requires Structure() && m in mutexes
      ensures Distinct(m.waiters) && (m.waiters != [] ==> m.owner != null)
      ensures forall t :: t in m.waiters ==> t in threads
    {
    }

    method RemoveWaiter(mutex: Mutex, thread: Thread, stat: Stat)
      requires Structure() && mutex in mutexes && thread in mutex.waiters && stat != Suspended
      modifies thread`stat, mutex`waiters
      ensures Structure()
      ensures thread.stat == stat && mutex.waiters == Without(old(mutex.waiters), thread)
    {
      hide Without, Distinct;
      Queue(mutex);
      WaitsHere(mutex, thread);
      WithoutIff(mutex.waiters, thread);
      thread.stat := stat;
      mutex.waiters := Without(mutex.waiters, thread);
      forall m | m in mutexes ensures MutexOk(m, null) {
        assert old(MutexOk(m, null));
      }
      forall t | t in threads ensures ThreadOk(t, null) {
        assert old(ThreadOk(t, null));
      }
    }

    /** A waiter leaves the wait list, as `_thread_timeout` makes it. */
    method Leave(mutex: Mutex, thread: Thread, stat: Stat)
      requires Valid() && mutex in mutexes && thread in mutex.waiters && stat != Suspended
      modifies thread`stat, mutex`waiters
      ensures Stale(mutex, thread.current_priority)
      ensures thread.stat == stat && mutex.waiters == Without(old(mutex.waiters), thread)
    {
      hide Structure, InOrder, Head, Bounded;
      Queue(mutex);
      OrderWithout(mutex.waiters, thread);
      RemoveWaiter(mutex, thread, stat);
    }

    /**
     Refresh the cached priority after a waiter of priority `was` left.  An owner that did not
     run at exactly that priority is not affected.
     */
    method Recache(mutex: Mutex, ghost was: Priority)
      requires Stale(mutex, was) && mutex in mutexes
      modifies mutex`priority
      ensures Structure() && mutex.priority == Head(mutex.waiters)
      ensures forall m :: m in mutexes ==> Queued(m)
      ensures forall t :: t in threads && (t != mutex.owner || t.current_priority != was) ==> Bounded(t, exact)
      ensures forall t :: t in threads && Justified(t, t.taken, t.current_priority) ==> Bounded(t, exact)
    {
      hide Structure, InOrder, Head, Distinct;
      if mutex.owner == null { Unowned(mutex); } else { Owned(mutex); }
      MutexUpdatePriority(mutex);
    }

    /** The guard of the clean-up does not see that the owner may run at what the waiter lent it. */
    ghost predicate Overlooked(mutex: Mutex, thread: Thread, was: Priority)
      reads mutex`owner, thread`current_priority
      reads if mutex.owner == null then {} else {mutex.owner as Thread}
    {
      mutex.owner != null && mutex.owner.current_priority == was && thread.current_priority != was
    }

    /** Something other than the waiter that left makes the owner of `mutex` as urgent as `was`. */
    ghost predicate OtherReason(mutex: Mutex, owner: Thread, was: Priority)
      reads owner, owner.taken, mutex, mutex.waiters`current_priority
    {
      || owner.init_priority <= was || Head(mutex.waiters) <= was || mutex.ceiling <= was
      || exists m :: m in owner.taken && m != mutex && m.Effective() <= was
    }

    lemma ReasonIs(mutex: Mutex, owner: Thread, was: Priority)
      requires mutex in owner.taken && mutex.priority == Head(mutex.waiters)
      ensures Justified(owner, owner.taken, was) <==> OtherReason(mutex, owner, was)
    {
      hide Head;
      if Justified(owner, owner.taken, was) && owner.init_priority > was {
        var m :| m in owner.taken && m.Effective() <= was;
      }
      if mutex.priority <= was || mutex.ceiling <= was {
        assert mutex.Effective() <= was;
      }
    }

    /**
     The clean-up that `_rt_mutex_take` runs after a failed wait and `rt_mutex_drop_thread` runs
     for its caller.  Whether the owner is re-examined hangs on the priority the thread has *now*:
     if that moved since it left the list while the owner still runs at what it was then, the
     owner keeps a priority nothing may justify.
     */
    method CleanUp(mutex: Mutex, thread: Thread, ghost was: Priority)
      requires Stale(mutex, was) && mutex in mutexes
      modifies threads`current_priority, mutexes`waiters, mutexes`priority
      ensures !old(Overlooked(mutex, thread, was)) ==> Valid()
      ensures old(Overlooked(mutex, thread, was)) ==>
        && mutex.owner.current_priority == was && mutex.waiters == old(mutex.waiters)
        && (Valid() <==> old(OtherReason(mutex, mutex.owner, was)))
      ensures forall t :: t in threads && (mutex.owner == null || (t != mutex.owner && !Behind(mutex.owner, t))) ==>
        t.current_priority == old(t.current_priority)
      ensures forall m :: m in mutexes ==>
        m.waiters == old(m.waiters) || (mutex.owner != null && OnWay(mutex.owner, m))
    {
      hide Structure, Queued, Behind, OnWay, UrgentEnough, NoMore, Justified;
      var need_update := mutex.owner != null && mutex.owner.current_priority == thread.current_priority;
      if mutex.owner != null { Owned(mutex); }
      Recache(mutex, was);
      if mutex.owner != null { ReasonIs(mutex, mutex.owner, was); }
      if need_update {
        var priority := GetMutexPriority(mutex.owner);
        if priority != mutex.owner.current_priority {
          UpdatePriority(mutex.owner, priority);
        }
      }
    }

    /**
     `rt_mutex_drop_thread`: a waiter leaves without the mutex.  The caller has already taken the
     thread out of the suspended state; `stat` is the state it is in now.
     */
    method DropThread(mutex: Mutex, thread: Thread, stat: Stat)
      requires Valid() && mutex in mutexes && thread in mutex.waiters && stat != Suspended
      modifies thread`stat
      modifies threads`current_priority, mutexes`waiters, mutexes`priority
      ensures Valid()
      ensures thread.stat == stat && thread !in mutex.waiters
      ensures forall t :: t in threads && (mutex.owner == null || (t != mutex.owner && !Behind(mutex.owner, t))) ==>
        t.current_priority == old(t.current_priority)
      ensures forall m :: m in mutexes ==>
        || m.waiters == (if m == mutex then Without(old(m.waiters), thread) else old(m.waiters))
        || (mutex.owner != null && OnWay(mutex.owner, m))
    {
      hide Structure, Stale, Bounded, Queued, Behind, OnWay, Without;
      Queue(mutex);
      Leave(mutex, thread, stat);
      CleanUp(mutex, thread, thread.current_priority);
      NotWaiting(thread);
    }

    /**
     A timed wait runs out.  `_thread_timeout` and the clean-up at the end of `_rt_mutex_take` are
     taken as one step: see `CleanUp` for what can go wrong in between.
     */
    method Expire(thread: Thread)
      requires Valid() && thread in threads && thread.stat == Suspended && thread.pending != null
      modifies thread`stat, thread`pending, thread`error
      modifies threads`current_priority, mutexes`waiters, mutexes`priority
      ensures Valid()
      ensures thread.stat == Active && thread.pending == null && thread.error == ETimeout
      ensures thread !in old(thread.pending).waiters
    {
      hide Structure, Stale, Bounded, Queued, Behind;
      var mutex := thread.pending;
      thread.error := ETimeout;
      Waiting(thread);
      Queue(mutex);
      Leave(mutex, thread, Active);
      CleanUp(mutex, thread, thread.current_priority);
      NotWaiting(thread);
      Forget(thread);
    }

    /** `rt_thread_delete` of a thread that waits for a mutex. */
    method Delete(thread: Thread)
      requires Valid() && thread in threads && thread.stat == Suspended && thread.pending != null
      modifies thread`stat, thread`pending
      modifies threads`current_priority, mutexes`waiters, mutexes`priority
      ensures Valid()
      ensures thread.stat == Closed && thread.pending == null
      ensures thread !in old(thread.pending).waiters
    {
      hide Structure, Queued, Bounded, Behind;
      Waiting(thread);
      DropThread(thread.pending, thread, Closed);
      Forget(thread);
    }

    method Forget(thread: Thread)
      requires Valid() && thread in threads && thread.stat != Suspended
      modifies thread`pending
      ensures Valid() && thread.pending == null
    {
      hide Queued, Bounded, Distinct;
      thread.pending := null;
    }

    /** A thread suspends on something that is not a mutex, or is resumed from there. */
    method SetStat(thread: Thread, stat: Stat)
      requires Valid() && thread in threads && thread.pending == null
      modifies thread`stat
      ensures Valid() && thread.stat == stat
    {
      hide Queued, Bounded, Distinct;
      thread.stat := stat;
    }

    /** `rt_mutex_setprioceiling`. */
    method SetPrioCeiling(mutex: Mutex, priority: nat) returns (r: Priority)
      requires Valid() && mutex in mutexes && priorityMax <= 0x100
      modifies mutex`ceiling
      modifies threads`current_priority, mutexes`waiters, mutexes`priority
      ensures Valid()
      ensures if priority < priorityMax then r == old(mutex.ceiling) && mutex.ceiling == priority
        else r == NO_PRIORITY && mutex.ceiling == old(mutex.ceiling)
      ensures forall t :: t in threads && (mutex.owner == null || (t != mutex.owner && !Behind(mutex.owner, t))) ==>
        t.current_priority == old(t.current_priority)
      ensures forall m :: m in mutexes ==>
        m.waiters == old(m.waiters) || (mutex.owner != null && OnWay(mutex.owner, m))
    {
      hide Structure, Queued, Behind, OnWay, UrgentEnough, NoMore, Justified;
      r := NO_PRIORITY;
      if priority < priorityMax {
        r := mutex.ceiling;
        SetCeiling(mutex, priority);
        if mutex.owner != null {
          Owned(mutex);
          var p := GetMutexPriority(mutex.owner);
          if p != mutex.owner.current_priority {
            UpdatePriority(mutex.owner, p);
          }
        }
      }
    }

    method SetCeiling(mutex: Mutex, priority: Priority)
      requires Valid() && mutex in mutexes
      modifies mutex`ceiling
      ensures mutex.ceiling == priority
      ensures Structure()
      ensures forall m :: m in mutexes ==> Queued(m)
      ensures forall t :: t in threads && t != mutex.owner ==> Bounded(t, exact)
      ensures mutex.owner == null ==> Valid()
    {
      hide Queued, Distinct;
      assert forall t :: t in threads && t != mutex.owner ==> mutex !in t.taken;
      mutex.ceiling := priority;
    }

    // ---------------------------------------------------------------- what the invariant gives

    /** Whoever holds up a thread, through a chain of any length, is at least as urgent. */
    lemma {:induction false} OwnerDominates(t: Thread, k: nat)
      requires Valid() && t in threads && Chain(t, k) != null
      ensures Chain(t, k) in threads && Chain(t, k).current_priority <= t.current_priority
    {
      hide Valid, Blocker;
      if k == 0 {
        OwnerAhead(t);
      } else {
        OwnerDominates(t, k - 1);
        OwnerAhead(Chain(t, k - 1));
      }
    }

    lemma OwnerAhead(t: Thread)
      requires Valid() && t in threads && Blocker(t) != null
      ensures Blocker(t) in threads && Blocker(t).current_priority <= t.current_priority
    {
      var m := t.pending;
      Waiting(t);
      Owned(m);
      var i :| 0 <= i < |m.waiters| && m.waiters[i] == t;
      assert m.waiters[0].current_priority <= m.waiters[i].current_priority;
    }

    /**
     As long as no mutex was handed to a thread less urgent than its ceiling, every thread runs at
     exactly the most urgent of its own priority and what the mutexes it holds contribute.
     */
    lemma ExactPriority(t: Thread)
      requires Valid() && exact && t in threads
      ensures t.current_priority <= t.init_priority
      ensures forall m :: m in t.taken ==> t.current_priority <= m.Effective()
      ensures t.current_priority == t.init_priority ||
        exists m :: m in t.taken && t.current_priority == m.Effective()
    {
    }

    lemma {:induction false} ChainJoin(a: Thread, b: Thread, j: nat, k: nat)
      requires b in threads && Chain(a, j) == b
      ensures Chain(a, j + 1 + k) == Chain(b, k)
    {
      if k > 0 { ChainJoin(a, b, j, k - 1); }
    }

    lemma BehindTransitive(a: Thread, b: Thread, c: Thread)
      requires b in threads && c in threads && Behind(a, b) && Behind(b, c)
      ensures Behind(a, c)
    {
      var j: nat :| Chain(a, j) == b;
      var k: nat :| Chain(b, k) == c;
      ChainJoin(a, b, j, k);
    }

    /** No thread waits for itself. */
    ghost predicate NoDeadlock()
      reads threads`stat, threads`pending, mutexes`owner
    {
      forall t :: t in threads ==> !Behind(t, t)
    }

    ghost predicate NoCeilings()
      reads mutexes`ceiling
    {
      forall m :: m in mutexes ==> m.ceiling == NO_PRIORITY
    }

    /** A thread more urgent than it was made has a waiter exactly as urgent. */
    lemma Lender(t: Thread) returns (w: Thread)
      requires Valid() && NoCeilings() && t in threads && t.current_priority != t.init_priority
      ensures w in threads && Blocker(w) == t && w.current_priority == t.current_priority
    {
      var m :| m in t.taken && m.Effective() <= t.current_priority;
      assert m.priority == t.current_priority && t.current_priority < t.init_priority;
      w := m.waiters[0];
      assert w in m.waiters;
    }

    /** Follow the lenders back to the thread the priority comes from. */
    lemma {:induction false} Source(t: Thread, seen: set<Thread>) returns (u: Thread)
      requires Valid() && NoCeilings() && NoDeadlock() && t in threads && t !in seen
      requires seen <= set x | x in threads
      requires forall s :: s in seen ==> Behind(t, s)
      ensures u in threads && (u == t || Behind(u, t)) && u.init_priority == t.current_priority
      decreases (set x | x in threads) - seen
    {
      if t.current_priority == t.init_priority {
        u := t;
      } else {
        var w := Lender(t);
        assert Chain(w, 0) == t;
        forall s | s in seen + {t} ensures Behind(w, s) {
          if s != t { BehindTransitive(w, t, s); }
        }
        u := Source(w, seen + {t});
        if u != w { BehindTransitive(u, w, t); }
      }
    }

    /**
     Without ceilings and without deadlock the priorities are those of transitive inheritance: a
     thread runs at the most urgent initial priority among itself and all threads that wait for
     it, directly or through others.
     */
    lemma TransitiveInheritance(t: Thread) returns (source: Thread)
      requires Valid() && NoCeilings() && NoDeadlock() && t in threads
      ensures source in threads && (source == t || Behind(source, t))
      ensures t.current_priority == source.init_priority
      ensures forall u :: u in threads && (u == t || Behind(u, t)) ==> t.current_priority <= u.init_priority
    {
      source := Source(t, {});
      forall u | u in threads && Behind(u, t) ensures t.current_priority <= u.init_priority {
        var k: nat :| Chain(u, k) == t;
        OwnerDominates(u, k);
      }
    }
  }

  /** `low` holds `m` and was lent 5; `high` holds `m2` and is lent 1 by `urgent`, who waits for it. */
  ghost predicate LateScene(low: Thread, high: Thread, urgent: Thread, m: Mutex, m2: Mutex)
    reads low, high, urgent, m, m2
  {
    && m != m2 && low != high && high != urgent && low != urgent
    && m.owner == low && m.hold == 1 && m.priority == 5 && m.ceiling == NO_PRIORITY && m.waiters == []
    && m2.owner == high && m2.hold == 1 && m2.priority == 1 && m2.ceiling == NO_PRIORITY && m2.waiters == [urgent]
    && low.taken == [m] && low.stat == Active && low.pending == null
    && low.init_priority == 20 && low.current_priority == 5
    && high.taken == [m2] && high.stat == Active && high.pending == null
    && high.init_priority == 5 && high.current_priority == 1
    && urgent.taken == [] && urgent.stat == Suspended && urgent.pending == m2
    && urgent.init_priority == urgent.current_priority == 1
  }

  lemma LateSceneIsStale(k: Kernel, low: Thread, high: Thread, urgent: Thread, m: Mutex, m2: Mutex)
    requires LateScene(low, high, urgent, m, m2)
    requires k.threads == [low, high, urgent] && k.mutexes == {m, m2}
    ensures k.Stale(m, 5)
  {
    forall t | t in k.threads ensures Bounded(t, k.exact) {
      hide Distinct;
      assert m in [m] && m2 in [m2];
    }
    assert k.Structure() by {
      hide Fits;
      assert m in low.taken && m2 in high.taken && urgent in m2.waiters;
    }
  }

  /**
   A state `CleanUp` is about.  `low` was lent priority 5 by `high`, whose wait has timed out and
   which has not run its clean-up yet; `urgent` lends `high` priority 1 through another mutex.  The
   guard compares 5 with 1 and `low` keeps a priority nobody lends it any more.
   */
  method LateCleanUp() returns (kernel: Kernel, low: Thread)
    ensures fresh(kernel) && low in kernel.threads
    ensures forall m :: m in low.taken ==> m.waiters == [] && m.ceiling == NO_PRIORITY
    ensures low.init_priority == 20 && low.current_priority == 5
    ensures !kernel.Valid()
  {
    hide *;
    low := new Thread(20);
    var high := new Thread(5);
    var urgent := new Thread(1);
    var m := new Mutex();
    var m2 := new Mutex();
    DistinctThree(low, high, urgent);
    kernel := new Kernel([low, high, urgent], {m, m2}, 32);
    SetScene(low, high, urgent, m, m2);
    Late(kernel, low, high, urgent, m, m2);
  }

  method SetScene(low: Thread, high: Thread, urgent: Thread, m: Mutex, m2: Mutex)
    requires m != m2 && low != high && high != urgent && low != urgent
    requires low.init_priority == 20 && high.init_priority == 5
    requires urgent.init_priority == 1 && urgent.current_priority == 1
    requires low.stat == high.stat == Active && low.pending == high.pending == null && urgent.taken == []
    requires m.ceiling == m2.ceiling == NO_PRIORITY && m.waiters == []
    modifies low, high, urgent, m, m2
    ensures LateScene(low, high, urgent, m, m2)
  {
    m.owner, m.hold, m.priority, low.taken, low.current_priority := low, 1, 5, [m], 5;
    m2.owner, m2.hold, m2.priority, high.taken, high.current_priority := high, 1, 1, [m2], 1;
    m2.waiters, urgent.stat, urgent.pending := [urgent], Suspended, m2;
  }

  lemma DistinctThree<T>(a: T, b: T, c: T)
    requires a != b && b != c && a != c
    ensures Distinct([a, b, c])
  {
  }

  method Late(k: Kernel, low: Thread, high: Thread, urgent: Thread, m: Mutex, m2: Mutex)
    requires k.threads == [low, high, urgent] && k.mutexes == {m, m2}
    requires LateScene(low, high, urgent, m, m2)
    modifies k.threads`current_priority, k.mutexes`waiters, k.mutexes`priority
    ensures low.current_priority == 5 && low.taken == [m] && m.waiters == []
    ensures !k.Valid()
  {
    LateSceneIsStale(k, low, high, urgent, m, m2);
    hide Kernel.Structure, Fits;
    k.CleanUp(m, high, 5);
  }

  /**
   A run in which the ceiling is skipped: the ceiling of `m` is 5, a thread of priority 10 takes it and
   runs at 5, one of priority 20 waits for it and gets it from the first.  It runs on at 20; had it
   found the mutex free it would run at 5.
   */
  method CeilingSkipped() returns (kernel: Kernel, second: Thread, m: Mutex)
    ensures fresh(kernel) && kernel.Valid() && second in kernel.threads
    ensures m.owner == second && second.taken == [m] && m.ceiling == 5 && second.current_priority == 20
    ensures !NoMore(second, second.taken, second.current_priority) && !kernel.exact
  {
    hide *;
    var first := new Thread(10);
    second := new Thread(20);
    m := new Mutex();
    DistinctTwo(first, second);
    kernel := new Kernel([first, second], {m}, 32);
    var r := kernel.SetPrioCeiling(m, 5);
    r := SecondWaits(kernel, first, second, m);
    var done := kernel.Release(m, first);
    NotAtCeiling(second, m);
  }

  /** The first thread takes the mutex, and the second has to wait. */
  method SecondWaits(k: Kernel, first: Thread, second: Thread, m: Mutex) returns (r: Priority)
    requires k.Valid() && k.threads == [first, second] && k.mutexes == {m} && first != second
    requires m.owner == null && m.hold == 0 && first.stat == second.stat == Active
    requires first.taken == second.taken == [] && first.pending == null
    modifies m, first, second
    ensures k.Valid() && m.owner == first && m.hold == 1 && m.waiters == [second]
    ensures m.ceiling == old(m.ceiling) && first.stat == Active
    ensures second.taken == [] && r == second.current_priority == old(second.current_priority)
  {
    hide *;
    var a := k.Take(m, first, -1);
    assert first in k.threads && second in k.threads && m in k.mutexes;
    var b := k.Take(m, second, -1);
    OneWaits(k, first, second, m);
    r := second.current_priority;
  }

  lemma DistinctTwo<T>(a: T, b: T)
    requires a != b
    ensures Distinct([a, b])
  {
  }

  lemma TwiceTheSame<T>(s: seq<T>, x: T)
    requires |s| > 1 && forall i :: 0 <= i < |s| ==> s[i] == x
    ensures !Distinct(s)
  {
    assert s[0] == s[1];
  }

  lemma OneWaits(k: Kernel, first: Thread, second: Thread, m: Mutex)
    requires k.Valid() && k.threads == [first, second] && k.mutexes == {m}
    requires m.owner == first && first.stat == Active && second in m.waiters && second.pending == m
    ensures m.waiters == [second] && !k.Behind(second, second)
  {
    assert m in k.mutexes && Distinct(m.waiters);
    forall i | 0 <= i < |m.waiters| ensures m.waiters[i] == second {
      assert m.waiters[i] in m.waiters && m.waiters[i] in k.threads;
    }
    if |m.waiters| > 1 { TwiceTheSame(m.waiters, second); }
    assert k.Blocker(second) == first && k.Blocker(first) == null;
    forall n: nat ensures k.Chain(second, n) != second {
      if n > 0 {
        k.ChainShift(second, n - 1);
        k.ChainEnds(first, n - 1);
      }
    }
  }

  lemma NotAtCeiling(t: Thread, m: Mutex)
    requires t.taken == [m] && m.ceiling < t.current_priority
    ensures !NoMore(t, t.taken, t.current_priority)
  {
    assert m in t.taken;
  }

  /** A run in which two equals get the mutex in the order in which they came. */
  method EqualsInTurn() returns (a: Thread, b: Thread, first: Thread?, second: Thread?)
    ensures fresh(a) && fresh(b) && a != b && a.init_priority == b.init_priority
    ensures first == a && second == b
  {
    hide *;
    var holder := new Thread(1);
    a := new Thread(10);
    b := new Thread(10);
    var m := new Mutex();
    DistinctThree(holder, a, b);
    var kernel := new Kernel([holder, a, b], {m}, 32);
    TwoWait(kernel, holder, a, b, m);
    first, second := TwoServed(kernel, holder, a, b, m);
  }

  method TwoWait(k: Kernel, holder: Thread, a: Thread, b: Thread, m: Mutex)
    requires k.Valid() && k.threads == [holder, a, b] && k.mutexes == {m} && holder != a && holder != b && a != b
    requires m.owner == null && m.hold == 0 && m.waiters == []
    requires forall t :: t in k.threads ==> t.stat == Active && t.taken == []
    requires a.init_priority == b.init_priority == 10
    modifies m, k.threads
    ensures k.Valid() && m.owner == holder && m.hold == 1 && m.waiters == [a, b] && holder.stat == Active
  {
    hide *;
    assert holder in k.threads && a in k.threads && b in k.threads && m in k.mutexes;
    var r := k.Take(m, holder, -1);
    TakesTurn(k, holder, [], a, m);
    TakesTurn(k, holder, [a], b, m);
  }

  method TwoServed(k: Kernel, holder: Thread, a: Thread, b: Thread, m: Mutex) returns (first: Thread?, second: Thread?)
    requires k.Valid() && k.threads == [holder, a, b] && k.mutexes == {m}
    requires m.owner == holder && m.hold == 1 && m.waiters == [a, b] && holder.stat == Active
    modifies m, k.threads, k
    ensures first == a && second == b
  {
    hide *;
    assert holder in k.threads && a in k.threads && m in k.mutexes;
    var r := k.Release(m, holder);
    first := m.owner;
    r := k.Release(m, a);
    second := m.owner;
  }

  /** Behind those of priority 10 that wait already, another one has to wait. */
  method TakesTurn(k: Kernel, holder: Thread, before: seq<Thread>, t: Thread, m: Mutex)
    requires k.Valid() && m in k.mutexes && holder in k.threads && t in k.threads && holder != t
    requires m.owner == holder && m.hold == 1 && m.waiters == before && holder.stat == t.stat == Active
    requires t.taken == [] && t.init_priority == 10
    requires forall u :: u in before ==> u in k.threads && u.taken == [] && u.init_priority == 10
    modifies m, k.threads, k.mutexes
    ensures k.Valid() && m.owner == holder && m.hold == 1 && m.waiters == before + [t] && holder.stat == Active
    ensures forall u :: u in k.threads && u != t ==> u.stat == old(u.stat) && u.taken == old(u.taken)
    ensures t.taken == []
  {
    hide *;
    k.Running(holder);
    var r := k.Take(m, t, -1);
    JoinsLast(k, before, t, m.waiters);
  }

  lemma OwnUrgency(k: Kernel, t: Thread)
    requires k.Valid() && t in k.threads && t.taken == []
    ensures t.current_priority == t.init_priority
  {
    assert Bounded(t, k.exact);
  }

  /** Of threads that hold nothing and were made equally urgent, the one that joins stands last. */
  lemma JoinsLast(k: Kernel, before: seq<Thread>, t: Thread, after: seq<Thread>)
    requires k.Valid() && Joins(before, t, after)
    requires t in k.threads && t.taken == [] && t.init_priority == 10
    requires forall u :: u in before ==> u in k.threads && u.taken == [] && u.init_priority == 10
    ensures after == before + [t]
  {
    hide Kernel.Valid;
    var n: nat :| JoinsAt(before, t, after, n);
    OwnUrgency(k, t);
    if n < |before| {
      OwnUrgency(k, before[n]);
      assert false;
    }
  }
}
