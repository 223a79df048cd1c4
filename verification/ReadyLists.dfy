/**
 Lists of ready threads, one per priority, as both schedulers (rt-thread/src/scheduler_up.c and
 rt-thread/src/scheduler_mp.c) keep them; a list is the sequence of thread numbers from its head.
 */
module ReadyLists {

  /** The part of `stat` under RT_THREAD_STAT_MASK; the three suspended codes are one. */
  datatype Stat = Init | Close | Ready | Running | Suspend

  /** `rt_list_remove`: unlinks the node if it is linked. */
  function Without(s: seq<nat>, t: nat): seq<nat> {
    if s == [] then [] else if s[0] == t then s[1..] else [s[0]] + Without(s[1..], t)
  }

  ghost predicate Distinct(s: seq<nat>) {
    forall i, j :: 0 <= i < j < |s| ==> s[i] != s[j]
  }

  lemma DistinctWith(s: seq<nat>, t: nat)
    requires Distinct(s) && t !in s
    ensures Distinct([t] + s) && Distinct(s + [t])
    ensures forall x :: x in [t] + s <==> x in s + [t]
    ensures forall x :: x in s + [t] <==> x in s || x == t
  {
  }

  lemma {:induction false} WithoutMembers(s: seq<nat>, t: nat)
    requires Distinct(s)
    ensures Distinct(Without(s, t))
    ensures forall x :: x in Without(s, t) <==> x in s && x != t
  {
    if s != [] {
      var head, rest := s[0], s[1..];
      assert s == [head] + rest;
      WithoutMembers(rest, t);
      if head != t {
        DistinctWith(Without(rest, t), head);
      }
    }
  }

  lemma {:induction false} WithoutAbsent(s: seq<nat>, t: nat)
    requires t !in s
    ensures Without(s, t) == s
  {
    if s != [] { WithoutAbsent(s[1..], t); }
  }

  /** Where an inserted thread goes: to the tail if it is marked as yielding, else to the head. */
  function Joined(list: seq<nat>, t: nat, yielding: bool): seq<nat> {
    if yielding then list + [t] else [t] + list
  }

  /** The least priority with a thread in its list, found by looking at every list in turn. */
  function FirstNonempty(lists: seq<seq<nat>>, from: nat): (p: nat)
    requires from <= |lists|
    ensures from <= p <= |lists|
    ensures p < |lists| ==> lists[p] != []
    ensures forall q :: from <= q < p ==> lists[q] == []
    decreases |lists| - from
  {
    if from == |lists| || lists[from] != [] then from else FirstNonempty(lists, from + 1)
  }
}
