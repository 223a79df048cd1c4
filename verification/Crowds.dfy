/**
 The threads around an IPC object with two wait lists, one for receivers and one for senders, as
 mailboxes and message queues in rt-thread/src/ipc.c have them: who sleeps, and who was woken and has
 not run since.
 */
module Crowds {
  import opened ReadyLists
  import opened WaitList

  /** Who sleeps and who was woken, to receive and to send; when each thread last went to sleep, and how often threads
      have done so. */
  datatype Crowd = Crowd(receivers: seq<nat>, senders: seq<nat>, wokenReceivers: set<nat>, wokenSenders: set<nat>,
                         since: seq<nat>, clock: nat)

  /** No thread is in two places, or twice in one. */
  ghost predicate Orderly(c: Crowd, flag: Flag, prio: seq<nat>) {
    && Known(c.receivers, prio) && Known(c.senders, prio)
    && Ranked(c.receivers, c.since, c.clock, flag, prio) && Ranked(c.senders, c.since, c.clock, flag, prio)
    && (forall t :: t in c.wokenReceivers || t in c.wokenSenders ==> t < |prio|)
    && (forall t :: t in c.receivers ==> t !in c.senders && t !in c.wokenReceivers && t !in c.wokenSenders)
    && (forall t :: t in c.senders ==> t !in c.wokenReceivers && t !in c.wokenSenders)
    && (forall t :: t in c.wokenReceivers ==> t !in c.wokenSenders)
  }

  /** While a thread sleeps, every mail or free place it could use has a woken thread on its way. */
  ghost predicate NothingLost(c: Crowd, entry: nat, size: nat) {
    && (c.receivers != [] ==> entry <= |c.wokenReceivers|)
    && (c.senders != [] ==> size - entry <= |c.wokenSenders|)
  }

  /** A thread that has nothing to do with the mailbox at the moment. */
  ghost predicate Free(c: Crowd, prio: seq<nat>, t: nat) {
    t < |prio| && t !in c.receivers && t !in c.senders && t !in c.wokenReceivers && t !in c.wokenSenders
  }

  function WithoutHead(list: seq<nat>): seq<nat> {
    if list == [] then [] else list[1..]
  }

  /** The thread at the head of a list, if there is one. */
  function HeadOf(list: seq<nat>): set<nat> {
    if list == [] then {} else {list[0]}
  }

  function ReceiverWoken(c: Crowd): Crowd {
    c.(receivers := WithoutHead(c.receivers), wokenReceivers := c.wokenReceivers + HeadOf(c.receivers))
  }

  function SenderWoken(c: Crowd): Crowd {
    c.(senders := WithoutHead(c.senders), wokenSenders := c.wokenSenders + HeadOf(c.senders))
  }

  /** A woken thread runs. */
  function RunsOn(c: Crowd, t: nat): Crowd {
    c.(wokenReceivers := c.wokenReceivers - {t}, wokenSenders := c.wokenSenders - {t})
  }

  lemma RunsOnLists(c: Crowd, t: nat)
    ensures RunsOn(c, t).receivers == c.receivers && RunsOn(c, t).senders == c.senders
  {
  }

  /** A thread goes to sleep on one of the lists. */
  ghost function SenderSleeps(c: Crowd, t: nat, flag: Flag, prio: seq<nat>): Crowd
    requires Known(c.senders, prio) && t < |prio|
  {
    c.(senders := Enqueue(c.senders, t, flag, prio), since := Stamped(c.since, t, c.clock), clock := c.clock + 1)
  }

  ghost function ReceiverSleeps(c: Crowd, t: nat, flag: Flag, prio: seq<nat>): Crowd
    requires Known(c.receivers, prio) && t < |prio|
  {
    c.(receivers := Enqueue(c.receivers, t, flag, prio), since := Stamped(c.since, t, c.clock), clock := c.clock + 1)
  }

  lemma WakeOrderly(c: Crowd, flag: Flag, prio: seq<nat>)
    requires Orderly(c, flag, prio)
    ensures Orderly(ReceiverWoken(c), flag, prio) && Orderly(SenderWoken(c), flag, prio)
    ensures c.receivers != [] ==> |ReceiverWoken(c).wokenReceivers| == |c.wokenReceivers| + 1
    ensures c.senders != [] ==> |SenderWoken(c).wokenSenders| == |c.wokenSenders| + 1
  {
    if c.receivers != [] {
      HeadLeaves(c.receivers, prio);
      RankedTail(c.receivers, c.since, c.clock, flag, prio);
    }
    if c.senders != [] {
      HeadLeaves(c.senders, prio);
      RankedTail(c.senders, c.since, c.clock, flag, prio);
    }
  }

  /** Whoever is woken goes before all that sleep on, and sleeps no more. */
  lemma WokenInTurn(c: Crowd, flag: Flag, prio: seq<nat>)
    requires Orderly(c, flag, prio) && c.receivers != []
    ensures var r := ReceiverWoken(c);
            exists w :: w in c.receivers && w !in r.receivers && r.wokenReceivers == c.wokenReceivers + {w}
                        && forall x :: x in c.receivers && x != w ==>
                             x in r.receivers && Goes(w, x, c.since, flag, prio)
  {
    RankedHead(c.receivers, c.since, c.clock, flag, prio);
  }

  lemma SenderInTurn(c: Crowd, flag: Flag, prio: seq<nat>)
    requires Orderly(c, flag, prio) && c.senders != []
    ensures var r := SenderWoken(c);
            exists w :: w in c.senders && w !in r.senders && r.wokenSenders == c.wokenSenders + {w}
                        && forall x :: x in c.senders && x != w ==> x in r.senders && Goes(w, x, c.since, flag, prio)
  {
    RankedHead(c.senders, c.since, c.clock, flag, prio);
  }

  lemma HeadLeaves(list: seq<nat>, prio: seq<nat>)
    requires Known(list, prio) && list != []
    ensures Known(list[1..], prio) && list[0] in list && list[0] !in list[1..]
    ensures forall x :: x in list[1..] ==> x in list
  {
  }

  lemma RunOrderly(c: Crowd, flag: Flag, prio: seq<nat>, t: nat)
    requires Orderly(c, flag, prio) && (Free(c, prio, t) || t in c.wokenReceivers || t in c.wokenSenders)
    ensures Orderly(RunsOn(c, t), flag, prio) && Free(RunsOn(c, t), prio, t)
    ensures |c.wokenReceivers| - (if t in c.wokenReceivers then 1 else 0) == |RunsOn(c, t).wokenReceivers|
    ensures |c.wokenSenders| - (if t in c.wokenSenders then 1 else 0) == |RunsOn(c, t).wokenSenders|
  {
    assert t !in c.wokenReceivers ==> c.wokenReceivers - {t} == c.wokenReceivers;
    assert t !in c.wokenSenders ==> c.wokenSenders - {t} == c.wokenSenders;
  }

  lemma SleepOrderly(c: Crowd, prio: seq<nat>, t: nat, flag: Flag)
    requires Orderly(c, flag, prio) && Free(c, prio, t)
    ensures Known(c.receivers, prio) && Known(c.senders, prio) && t < |prio|
    ensures Orderly(ReceiverSleeps(c, t, flag, prio), flag, prio)
    ensures Orderly(SenderSleeps(c, t, flag, prio), flag, prio)
  {
    EnqueueMembers(c.receivers, t, flag, prio);
    EnqueueMembers(c.senders, t, flag, prio);
    EnqueueRanked(c.receivers, t, c.since, c.clock, flag, prio);
    EnqueueRanked(c.senders, t, c.since, c.clock, flag, prio);
  }

  /** One more mail and a receiver woken, or one mail fewer and a sender woken: nothing is lost. */
  lemma PutKeeps(c: Crowd, flag: Flag, prio: seq<nat>, entry: nat, size: nat)
    requires Orderly(c, flag, prio) && entry < size && NothingLost(c, entry, size - 1)
    ensures Orderly(ReceiverWoken(c), flag, prio) && NothingLost(ReceiverWoken(c), entry + 1, size)
  {
    WakeOrderly(c, flag, prio);
  }

  lemma FetchKeeps(c: Crowd, flag: Flag, prio: seq<nat>, entry: nat, size: nat)
    requires Orderly(c, flag, prio) && 0 < entry <= size && NothingLost(c, entry - 1, size - 1)
    ensures Orderly(SenderWoken(c), flag, prio) && NothingLost(SenderWoken(c), entry - 1, size)
  {
    WakeOrderly(c, flag, prio);
  }

  /** A thread that comes to send, or was woken to, and runs: what holds before it has done anything. */
  lemma RunsToSend(c: Crowd, prio: seq<nat>, entry: nat, size: nat, t: nat, flag: Flag)
    requires Orderly(c, flag, prio) && NothingLost(c, entry, size) && entry <= size
    requires Free(c, prio, t) || t in c.wokenSenders
    ensures var r := RunsOn(c, t);
            && Orderly(r, flag, prio) && Free(r, prio, t) && Known(r.senders, prio) && t < |prio|
            && (entry < size ==> NothingLost(r, entry, size - 1))
            && (entry == size ==> NothingLost(r, entry, size))
            && (entry == size ==> Asleep(SenderSleeps(r, t, flag, prio), flag, prio, entry, size))
  {
    RunOrderly(c, flag, prio, t);
    SleepOrderly(RunsOn(c, t), prio, t, flag);
  }

  lemma RunsToReceive(c: Crowd, prio: seq<nat>, entry: nat, size: nat, t: nat, flag: Flag)
    requires Orderly(c, flag, prio) && NothingLost(c, entry, size) && entry <= size
    requires Free(c, prio, t) || t in c.wokenReceivers
    ensures var r := RunsOn(c, t);
            && Orderly(r, flag, prio) && Free(r, prio, t) && Known(r.receivers, prio) && t < |prio|
            && (entry > 0 ==> NothingLost(r, entry - 1, size - 1))
            && (entry == 0 ==> NothingLost(r, entry, size))
            && (entry == 0 ==> Asleep(ReceiverSleeps(r, t, flag, prio), flag, prio, entry, size))
  {
    RunOrderly(c, flag, prio, t);
    SleepOrderly(RunsOn(c, t), prio, t, flag);
  }

  ghost predicate Asleep(c: Crowd, flag: Flag, prio: seq<nat>, entry: nat, size: nat) {
    Orderly(c, flag, prio) && NothingLost(c, entry, size)
  }

  lemma OneLessFree(c: Crowd, entry: nat, size: nat)
    requires NothingLost(c, entry, size) && entry < size
    ensures NothingLost(c, entry, size - 1)
  {
  }

  lemma ExpireOrderly(c: Crowd, flag: Flag, prio: seq<nat>, t: nat)
    requires Orderly(c, flag, prio)
    ensures Orderly(c.(receivers := Without(c.receivers, t), senders := Without(c.senders, t)), flag, prio)
    ensures t !in Without(c.receivers, t) && t !in Without(c.senders, t)
    ensures Without(c.receivers, t) != [] ==> c.receivers != []
    ensures Without(c.senders, t) != [] ==> c.senders != []
  {
    WithoutKnown(c.receivers, t, prio);
    WithoutKnown(c.senders, t, prio);
    WithoutRanked(c.receivers, t, c.since, c.clock, flag, prio);
    WithoutRanked(c.senders, t, c.since, c.clock, flag, prio);
  }
}
