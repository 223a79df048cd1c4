/**
 Semaphores with timeouts (rt-thread/src/ipc.c, rt-thread/src/thread.c): taking, releasing with
 hand-over to the first waiting thread, and the thread timer that ends a wait. Each method is one
 section with interrupts disabled.
 */
module Semaphore {
  import opened ReadyLists
  import opened WaitList

  const SEM_VALUE_MAX: nat := 0xFFFF

  /** A thread runs its own code, sleeps on the semaphore, or was woken and has not run since. */
  datatype Phase = Active | Asleep | Woken

  /** `thread->error`. */
  datatype Error = Ok | Interrupted | TimedOut

  datatype Outcome = Taken | Timeout | Suspended

  /** What the kernel keeps of a thread: its state, whether its timer runs, and its error number. */
  datatype Tcb = Tcb(phase: Phase, timer: bool, error: Error)

  /** How often a thread went to sleep, was handed a unit, and was timed out. */
  datatype Count = Count(sleeps: nat, handed: nat, expired: nat)

  /** A thread with a running timer sleeps, and every sleep ended in one wake-up, of one kind. */
  ghost predicate Accounted(c: Tcb, n: Count) {
    && (c.timer ==> c.phase == Asleep)
    && (c.phase == Asleep ==> c.error == Interrupted)
    && (c.phase == Woken ==> c.error != Interrupted)
    && n.sleeps == n.handed + n.expired + if c.phase == Asleep then 1 else 0
  }

  class Semaphore {
    const flag: Flag
    const prio: seq<nat>
    var value: nat
    var waiters: seq<nat>
    var threads: seq<Tcb>
    ghost var counts: seq<Count>
    /** When each thread last went to sleep, and how often threads have. */
    ghost var since: seq<nat>
    ghost var clock: nat
    /** Units at the start, put in by releases, and given to threads. */
    ghost var initial: nat
    ghost var released: nat
    ghost var granted: nat

    ghost predicate Valid()
      reads this
    {
      && |threads| == |counts| == |prio| && value <= SEM_VALUE_MAX
      && Known(waiters, prio) && InStep(waiters, threads) && Ranked(waiters, since, clock, flag, prio)
      && (value > 0 ==> waiters == [])
      && initial + released == granted + value
      && (forall t :: 0 <= t < |threads| ==> Accounted(threads[t], counts[t]))
    }

    /** `rt_sem_init`, with all threads running. */
    constructor (count: nat, mode: Flag, priorities: seq<nat>)
      requires count <= SEM_VALUE_MAX
      ensures Valid() && value == initial == count && waiters == [] && released == 0 && granted == 0
      ensures flag == mode && prio == priorities
      ensures forall t :: 0 <= t < |prio| ==> threads[t] == Tcb(Active, false, Ok)
    {
      flag := mode;
      prio := priorities;
      value := count;
      waiters := [];
      threads := seq(|priorities|, t => Tcb(Active, false, Ok));
      counts := seq(|priorities|, t => Count(0, 0, 0));
      since := seq(|priorities|, t => 0);
      clock := 0;
      initial := count;
      released := 0;
      granted := 0;
    }

    /** `_rt_sem_take`: `wait` is negative for ever, zero for not at all, else a number of ticks. */
    method Take(t: nat, wait: int) returns (r: Outcome)
      requires Valid() && t < |prio| && threads[t].phase == Active
      modifies this
      ensures Valid() && initial == old(initial) && released == old(released) && t < |old(threads)| == |threads|
      ensures r == if old(value) > 0 then Taken else if wait == 0 then Timeout else Suspended
      ensures r == Taken ==> value == old(value) - 1 && granted == old(granted) + 1
      ensures r != Taken ==> value == old(value) && granted == old(granted)
      ensures r != Suspended ==> waiters == old(waiters) && threads == old(threads)
      ensures r == Suspended ==>
        && Known(old(waiters), prio) && waiters == Enqueue(old(waiters), t, flag, prio)
        && (flag == Fifo ==> waiters == old(waiters) + [t])
        && (flag == Prio ==> ByPriority(waiters, prio) && exists p :: StandsAt(old(waiters), t, waiters, prio, p))
        && threads == old(threads)[t := Tcb(Asleep, wait > 0, Interrupted)]
    {
      if value > 0 {
        value := value - 1;
        granted := granted + 1;
        return Taken;
      }
      if wait == 0 {
        return Timeout;
      }
      threads := threads[t := threads[t].(error := Interrupted)];
      assert InStep(waiters, threads);
      hide Enqueue, Known, Ranked, StandsAt, ByPriority;
      Suspend(t);
      if wait > 0 {
        threads := threads[t := threads[t].(timer := true)];
      }
      return Suspended;
    }

    /** `_ipc_list_suspend`: the thread stops its timer, sleeps and joins the list. */
    method Suspend(t: nat)
      requires Known(waiters, prio) && t < |prio| == |threads| == |counts| && threads[t].phase == Active
      requires InStep(waiters, threads) && Ranked(waiters, since, clock, flag, prio)
      modifies `waiters, `threads, `counts, `since, `clock
      ensures Known(waiters, prio) && |threads| == |old(threads)| && InStep(waiters, threads)
      ensures Ranked(waiters, since, clock, flag, prio) && clock == old(clock) + 1
      ensures |since| == |prio| && since == old(since)[t := old(clock)]
      ensures flag == Fifo ==> waiters == old(waiters) + [t]
      ensures flag == Prio ==> ByPriority(waiters, prio) && exists p :: StandsAt(old(waiters), t, waiters, prio, p)
      ensures Known(old(waiters), prio) && waiters == Enqueue(old(waiters), t, flag, prio)
      ensures threads == old(threads)[t := old(threads)[t].(phase := Asleep, timer := false)]
      ensures counts == old(counts)[t := old(counts)[t].(sleeps := old(counts)[t].sleeps + 1)]
    {
      assert |since| == |prio| && t !in waiters;
      hide Enqueue, Known, Ranked, StandsAt, ByPriority;
      EnqueueMembers(waiters, t, flag, prio);
      EnqueueRanked(waiters, t, since, clock, flag, prio);
      EnqueueStands(waiters, t, since, clock, flag, prio);
      threads := threads[t := threads[t].(phase := Asleep, timer := false)];
      waiters := Enqueue(waiters, t, flag, prio);
      counts := counts[t := counts[t].(sleeps := counts[t].sleeps + 1)];
      since, clock := Stamped(since, t, clock), clock + 1;
    }

    /** `rt_sem_release`: to the first waiting thread, or to the count unless that is at its limit. */
    method Release() returns (ok: bool)
      requires Valid()
      modifies this
      ensures Valid() && initial == old(initial) && |threads| == |old(threads)| == |old(counts)|
      ensures ok == (old(waiters) != [] || old(value) < SEM_VALUE_MAX)
      ensures released == old(released) + if ok then 1 else 0
      ensures old(waiters) != [] ==>
        var t := old(waiters)[0];
        && t < |threads| && waiters == old(waiters)[1..] && value == old(value) && granted == old(granted) + 1
        && threads == old(threads)[t := Tcb(Woken, false, Ok)]
        && counts == old(counts)[t := old(counts)[t].(handed := old(counts)[t].handed + 1)]
        // no thread that sleeps on was to be woken before it
        && since == old(since) && t !in waiters
        && forall x :: x in waiters ==> Goes(t, x, since, flag, prio)
      ensures old(waiters) == [] ==>
        waiters == [] && value == old(value) + (if ok then 1 else 0) && granted == old(granted) &&
            threads == old(threads)
    {
      if waiters != [] {
        var t := waiters[0];
        HeadOut(waiters, prio);
        RankedHead(waiters, since, clock, flag, prio);
        RankedTail(waiters, since, clock, flag, prio);
        hide Known, Ranked, Goes;
        threads := threads[t := threads[t].(error := Ok)];
        Resume(t);
        waiters := waiters[1..];
        released := released + 1;
        granted := granted + 1;
        counts := counts[t := counts[t].(handed := counts[t].handed + 1)];
        return true;
      }
      if value < SEM_VALUE_MAX {
        value := value + 1;
        released := released + 1;
        return true;
      }
      return false;
    }

    /** `rt_thread_resume`: stops the timer. */
    method Resume(t: nat)
      requires t < |threads|
      modifies `threads
      ensures threads == old(threads)[t := old(threads)[t].(phase := Woken, timer := false)]
    {
      threads := threads[t := threads[t].(timer := false)];
      threads := threads[t := threads[t].(phase := Woken)];
    }

    /** The thread timer fires: it is off by then, and `_thread_timeout` finds its thread suspended. */
    method Expire(t: nat)
      requires Valid() && t < |prio| && threads[t].timer
      modifies this
      ensures Valid() && value == old(value) && granted == old(granted) && released == old(released)
      ensures t < |old(threads)| == |old(counts)| && waiters == Without(old(waiters), t)
      ensures threads == old(threads)[t := Tcb(Woken, false, TimedOut)]
      ensures counts == old(counts)[t := old(counts)[t].(expired := old(counts)[t].expired + 1)]
    {
      assert Accounted(threads[t], counts[t]);
      threads := threads[t := threads[t].(timer := false)];
      assert threads[t].phase == Asleep;
      WithoutKnown(waiters, t, prio);
      WithoutRanked(waiters, t, since, clock, flag, prio);
      hide Known, Without, Ranked;
      waiters := Without(waiters, t);
      threads := threads[t := threads[t].(error := TimedOut, phase := Woken)];
      counts := counts[t := counts[t].(expired := counts[t].expired + 1)];
    }

    /** A woken thread returns from `_rt_sem_take`: with a unit exactly if it was handed one. */
    method Return(t: nat) returns (ok: bool)
      requires Valid() && t < |prio| && threads[t].phase == Woken
      modifies `threads
      ensures Valid() && t < |old(threads)| && ok == (old(threads)[t].error == Ok)
      ensures threads == old(threads)[t := old(threads)[t].(phase := Active)]
    {
      assert Accounted(threads[t], counts[t]);
      hide Known;
      threads := threads[t := threads[t].(phase := Active)];
      ok := threads[t].error == Ok;
    }

    /** A thread whose timer runs sleeps in the list: the assertion at the start of `_thread_timeout`
        cannot fail. */
    lemma TimerMeansAsleep(t: nat)
      requires Valid() && t < |prio| && threads[t].timer
      ensures threads[t].phase == Asleep && t in waiters
    {
      assert Accounted(threads[t], counts[t]);
    }
  }

  /** The list holds just the threads that sleep. */
  ghost predicate InStep(waiters: seq<nat>, threads: seq<Tcb>) {
    forall t :: 0 <= t < |threads| ==> (t in waiters <==> threads[t].phase == Asleep)
  }

  lemma HeadOut(list: seq<nat>, prio: seq<nat>)
    requires Known(list, prio) && list != []
    ensures Known(list[1..], prio) && list[0] in list && list[0] < |prio|
    ensures forall x :: x in list[1..] <==> x in list && x != list[0]
  {
    assert list == [list[0]] + list[1..];
  }
}
