/**
 Lists of threads that wait for an IPC object (`_ipc_list_suspend` in rt-thread/src/ipc.c). The
 priorities of waiting threads are taken as fixed; a smaller number is more urgent.
 */
module WaitList {
  import opened ReadyLists

  datatype Flag = Fifo | Prio

  /** In front of the first thread that is less urgent, or at the end. */
  function BeforeLessUrgent(list: seq<nat>, t: nat, prio: seq<nat>): seq<nat>
    requires t < |prio| && forall i :: 0 <= i < |list| ==> list[i] < |prio|
  {
    if list == [] then [t]
    else if prio[t] < prio[list[0]] then [t] + list
    else [list[0]] + BeforeLessUrgent(list[1..], t, prio)
  }

  /** `_ipc_list_suspend`: at the end, or by priority. */
  function Enqueue(list: seq<nat>, t: nat, flag: Flag, prio: seq<nat>): seq<nat>
    requires t < |prio| && forall i :: 0 <= i < |list| ==> list[i] < |prio|
  {
    if flag == Fifo then list + [t] else BeforeLessUrgent(list, t, prio)
  }

  ghost predicate Known(list: seq<nat>, prio: seq<nat>) {
    Distinct(list) && forall i :: 0 <= i < |list| ==> list[i] < |prio|
  }

  lemma {:induction false} UrgentMembers(list: seq<nat>, t: nat, prio: seq<nat>)
    requires Known(list, prio) && t < |prio| && t !in list
    ensures Known(BeforeLessUrgent(list, t, prio), prio)
    ensures forall x :: x in BeforeLessUrgent(list, t, prio) <==> x in list || x == t
  {
    if list == [] || prio[t] < prio[list[0]] {
      DistinctWith(list, t);
    } else {
      var head, rest := list[0], list[1..];
      assert list == [head] + rest;
      UrgentMembers(rest, t, prio);
      DistinctWith(BeforeLessUrgent(rest, t, prio), head);
    }
  }

  lemma EnqueueMembers(list: seq<nat>, t: nat, flag: Flag, prio: seq<nat>)
    requires Known(list, prio) && t < |prio| && t !in list
    ensures Known(Enqueue(list, t, flag, prio), prio) && |Enqueue(list, t, flag, prio)| > 0
    ensures forall x :: x in Enqueue(list, t, flag, prio) <==> x in list || x == t
  {
    if flag == Fifo {
      DistinctWith(list, t);
    } else {
      UrgentMembers(list, t, prio);
      assert t in BeforeLessUrgent(list, t, prio);
    }
  }

  /** In priority mode the most urgent come first, and among equals who waits longer. */
  ghost predicate ByPriority(list: seq<nat>, prio: seq<nat>) {
    (forall i :: 0 <= i < |list| ==> list[i] < |prio|)
    && forall i, j :: 0 <= i < j < |list| ==> prio[list[i]] <= prio[list[j]]
  }

  /** The new thread goes behind all that are as urgent and before all that are less. */
  lemma {:induction false} UrgentPlace(list: seq<nat>, t: nat, prio: seq<nat>) returns (p: nat)
    requires ByPriority(list, prio) && t < |prio|
    ensures p <= |list| && BeforeLessUrgent(list, t, prio) == list[..p] + [t] + list[p..]
    ensures forall i :: 0 <= i < p ==> prio[list[i]] <= prio[t]
    ensures p < |list| ==> prio[t] < prio[list[p]]
  {
    if list == [] || prio[t] < prio[list[0]] {
      p := 0;
    } else {
      p := UrgentPlace(list[1..], t, prio);
      SpliceHead(list, p, t);
      p := p + 1;
    }
  }

  /** `t` stands at place `p`, behind all that are at least as urgent and before all less urgent; the others keep their
      order. */
  ghost predicate StandsAt(before: seq<nat>, t: nat, after: seq<nat>, prio: seq<nat>, p: nat) {
    && p <= |before| && after == before[..p] + [t] + before[p..]
    && t < |prio| && (forall i :: 0 <= i < |before| ==> before[i] < |prio|)
    && (forall i :: 0 <= i < p ==> prio[before[i]] <= prio[t])
    && (forall i :: p <= i < |before| ==> prio[t] < prio[before[i]])
  }

  lemma UrgentStands(list: seq<nat>, t: nat, since: seq<nat>, clock: nat, prio: seq<nat>) returns (p: nat)
    requires Ranked(list, since, clock, Prio, prio) && t < |prio|
    ensures StandsAt(list, t, Enqueue(list, t, Prio, prio), prio, p)
    ensures ByPriority(Enqueue(list, t, Prio, prio), prio)
  {
    p := UrgentPlace(list, t, prio);
    UrgentSorted(list, t, prio);
  }

  /** Where a thread goes that joins a list in the order of waking. */
  lemma EnqueueStands(list: seq<nat>, t: nat, since: seq<nat>, clock: nat, flag: Flag, prio: seq<nat>)
    requires Known(list, prio) && t < |prio|
    ensures forall i :: 0 <= i < |list| ==> list[i] < |prio|
    ensures flag == Fifo ==> Enqueue(list, t, flag, prio) == list + [t]
    ensures Ranked(list, since, clock, flag, prio) && flag == Prio ==>
      ByPriority(Enqueue(list, t, flag, prio), prio)
      && exists p :: StandsAt(list, t, Enqueue(list, t, flag, prio), prio, p)
  {
    if Ranked(list, since, clock, flag, prio) && flag == Prio {
      var p := UrgentStands(list, t, since, clock, prio);
    }
  }

  lemma SpliceHead(list: seq<nat>, q: nat, t: nat)
    requires q < |list|
    ensures [list[0]] + (list[1..][..q] + [t] + list[1..][q..]) == list[..q + 1] + [t] + list[q + 1..]
  {
  }

  /** A list in order stays in order. */
  lemma UrgentSorted(list: seq<nat>, t: nat, prio: seq<nat>)
    requires ByPriority(list, prio) && t < |prio|
    ensures ByPriority(BeforeLessUrgent(list, t, prio), prio)
  {
    var p := UrgentPlace(list, t, prio);
    var r := list[..p] + [t] + list[p..];
    hide BeforeLessUrgent;
    assert forall i :: 0 <= i < |r| ==> r[i] == if i < p then list[i] else if i == p then t else list[i - 1];
    forall i, j | 0 <= i < j < |r| ensures prio[r[i]] <= prio[r[j]] {
      if i == p { assert prio[list[p]] <= prio[list[j - 1]]; }
    }
  }

  // ------------------------------------------------------------------ whose turn it is

  /** `x` is to be woken before `y`: it went to sleep earlier, or, by priority, is more urgent,
      or as urgent and earlier. `since` says when a thread last went to sleep. */
  ghost predicate Goes(x: nat, y: nat, since: seq<nat>, flag: Flag, prio: seq<nat>) {
    && x < |since| && y < |since| && x < |prio| && y < |prio|
    && if flag == Fifo then since[x] < since[y]
       else prio[x] < prio[y] || (prio[x] == prio[y] && since[x] < since[y])
  }

  /** A list in the order in which its threads are to be woken, all asleep since before `clock`. */
  ghost predicate Ranked(list: seq<nat>, since: seq<nat>, clock: nat, flag: Flag, prio: seq<nat>) {
    && |since| == |prio|
    && (forall i :: 0 <= i < |list| ==> list[i] < |prio| && since[list[i]] < clock)
    && forall i, j :: 0 <= i < j < |list| ==> Goes(list[i], list[j], since, flag, prio)
  }

  /** Thread `t` goes to sleep now. */
  function Stamped(since: seq<nat>, t: nat, clock: nat): seq<nat> {
    if t < |since| then since[t := clock] else since
  }

  /** A thread that joins a list stands where it is its turn: behind all others first in first out, else behind all
      that are as urgent. */
  lemma EnqueueRanked(list: seq<nat>, t: nat, since: seq<nat>, clock: nat, flag: Flag, prio: seq<nat>)
    requires Ranked(list, since, clock, flag, prio) && t < |prio| && t !in list
    ensures Ranked(Enqueue(list, t, flag, prio), Stamped(since, t, clock), clock + 1, flag, prio)
    ensures Ranked(list, Stamped(since, t, clock), clock + 1, flag, prio)
  {
    var now := Stamped(since, t, clock);
    assert forall i :: 0 <= i < |list| ==> list[i] != t && now[list[i]] == since[list[i]];
    if flag == Prio {
      assert ByPriority(list, prio);
      var p := UrgentPlace(list, t, prio);
      hide BeforeLessUrgent;
      SplicedRanked(list, t, now, clock, prio, p);
    }
  }

  lemma SplicedRanked(list: seq<nat>, t: nat, since: seq<nat>, clock: nat, prio: seq<nat>, p: nat)
    requires Ranked(list, since, clock, Prio, prio) && t < |prio| && t !in list && p <= |list| && since[t] == clock
    requires forall i :: 0 <= i < p ==> prio[list[i]] <= prio[t]
    requires p < |list| ==> prio[t] < prio[list[p]]
    ensures Ranked(list[..p] + [t] + list[p..], since, clock + 1, Prio, prio)
  {
    var r := list[..p] + [t] + list[p..];
    assert forall i :: 0 <= i < |r| ==> r[i] == if i < p then list[i] else if i == p then t else list[i - 1];
    forall i, j | 0 <= i < j < |r| ensures Goes(r[i], r[j], since, Prio, prio) {
      if i == p && p < j - 1 {
        assert Goes(list[p], list[j - 1], since, Prio, prio);
      } else if i != p && j != p {
        assert Goes(list[if i < p then i else i - 1], list[if j < p then j else j - 1], since, Prio, prio);
      }
    }
  }

  lemma RankedTail(list: seq<nat>, since: seq<nat>, clock: nat, flag: Flag, prio: seq<nat>)
    requires Ranked(list, since, clock, flag, prio) && list != []
    ensures Ranked(list[1..], since, clock, flag, prio)
  {
    hide Goes;
  }

  /** The head of a list goes before all others in it. */
  lemma RankedHead(list: seq<nat>, since: seq<nat>, clock: nat, flag: Flag, prio: seq<nat>)
    requires Ranked(list, since, clock, flag, prio) && list != []
    ensures list[0] in list && list[0] !in list[1..]
    ensures forall x :: x in list && x != list[0] ==> x in list[1..] && Goes(list[0], x, since, flag, prio)
  {
    forall i | 0 < i < |list| ensures list[i] == list[1..][i - 1] && Goes(list[0], list[i], since, flag, prio) {
    }
    assert forall x :: x in list ==> x == list[0] || x in list[1..];
  }

  lemma {:induction false} WithoutRanked(list: seq<nat>, t: nat, since: seq<nat>, clock: nat, flag: Flag,
                                         prio: seq<nat>)
    requires Ranked(list, since, clock, flag, prio)
    ensures Ranked(Without(list, t), since, clock, flag, prio)
    ensures forall x :: x in Without(list, t) ==> x in list
  {
    if list != [] {
      var rest := Without(list[1..], t);
      RankedTail(list, since, clock, flag, prio);
      WithoutRanked(list[1..], t, since, clock, flag, prio);
      RankedHead(list, since, clock, flag, prio);
      if list[0] != t {
        hide Goes;
        forall i | 0 <= i < |rest| ensures Goes(list[0], rest[i], since, flag, prio) {
          assert rest[i] in list[1..];
        }
        assert Without(list, t) == [list[0]] + rest;
      }
    }
  }

  /** A thread leaves the list: woken from the head, or taken out by its timer. */
  lemma WithoutKnown(list: seq<nat>, t: nat, prio: seq<nat>)
    requires Known(list, prio)
    ensures Known(Without(list, t), prio)
    ensures forall x :: x in Without(list, t) <==> x in list && x != t
  {
    WithoutMembers(list, t);
    forall i | 0 <= i < |Without(list, t)| ensures Without(list, t)[i] < |prio| {
      assert Without(list, t)[i] in list;
    }
  }
}
