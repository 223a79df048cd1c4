/**
 Mailboxes (rt-thread/src/ipc.c): a ring of fixed size with threads waiting to send and to receive.
 Each method is one section with interrupts disabled; a thread that was woken runs on, later, through
 `RecvWoken` or `SendWoken`, which test the mailbox again.
 */
module Mailbox {
  import opened ReadyLists
  import opened WaitList
  import opened Crowds

  const MB_ENTRY_MAX: nat := 0xFFFF

  datatype Outcome = Done | Full | Timeout | Suspended

  function Wrap(i: nat, size: nat): nat {
    if i < size then i else i - size
  }

  /** `n` cells of a ring from `out` on. */
  function Ring(cells: seq<nat>, out: nat, n: nat): (s: seq<nat>)
    requires n <= |cells| && (n > 0 ==> out < |cells|)
    ensures |s| == n
    ensures forall i :: 0 <= i < n ==> s[i] == cells[Wrap(out + i, |cells|)]
  {
    seq(n, i requires 0 <= i < n => cells[Wrap(out + i, |cells|)])
  }

  lemma RingBack(cells: seq<nat>, out: nat, n: nat, value: nat)
    requires n < |cells| && out < |cells|
    ensures Ring(cells[Wrap(out + n, |cells|) := value], out, n + 1) == Ring(cells, out, n) + [value]
  {
    var a, b := Ring(cells[Wrap(out + n, |cells|) := value], out, n + 1), Ring(cells, out, n) + [value];
    forall i | 0 <= i < n + 1 ensures a[i] == b[i] {
    }
  }

  lemma RingFront(cells: seq<nat>, out: nat, n: nat, value: nat)
    requires n < |cells| && out < |cells|
    ensures var back := if out > 0 then out - 1 else |cells| - 1;
            Ring(cells[back := value], back, n + 1) == [value] + Ring(cells, out, n)
  {
    var back := if out > 0 then out - 1 else |cells| - 1;
    var a, b := Ring(cells[back := value], back, n + 1), [value] + Ring(cells, out, n);
    forall i | 0 <= i < n + 1 ensures a[i] == b[i] {
      assert i > 0 ==> b[i] == Ring(cells, out, n)[i - 1];
    }
  }

  lemma RingRest(cells: seq<nat>, out: nat, n: nat)
    requires 0 < n <= |cells| && out < |cells|
    ensures Ring(cells, out, n) == [cells[out]] + Ring(cells, Wrap(out + 1, |cells|), n - 1)
  {
    var a, b := Ring(cells, out, n), [cells[out]] + Ring(cells, Wrap(out + 1, |cells|), n - 1);
    forall i | 0 <= i < n ensures a[i] == b[i] {
      assert i > 0 ==> b[i] == Ring(cells, Wrap(out + 1, |cells|), n - 1)[i - 1];
    }
  }

  // ------------------------------------------------------------------ what a mailbox is

  /** The mails from the oldest to the newest, the threads around, the mails accepted and delivered so
      far in order, and whether one was sent as urgent. */
  datatype State = State(mail: seq<nat>, crowd: Crowd, accepted: seq<nat>, delivered: seq<nat>, urgent: bool)

  ghost predicate Fine(s: State, flag: Flag, prio: seq<nat>, size: nat) {
    && |s.mail| <= size && Orderly(s.crowd, flag, prio) && NothingLost(s.crowd, |s.mail|, size)
    && Logged(s.accepted, s.delivered, s.mail, s.urgent)
  }

  /** No mail is lost or made up, and without urgent ones they keep the order of sending. */
  ghost predicate Logged(accepted: seq<nat>, delivered: seq<nat>, mail: seq<nat>, urgent: bool) {
    && multiset(accepted) == multiset(delivered) + multiset(mail)
    && (!urgent ==> accepted == delivered + mail)
  }

  lemma StoredLogged(accepted: seq<nat>, delivered: seq<nat>, mail: seq<nat>, urgent: bool, value: nat)
    requires Logged(accepted, delivered, mail, urgent)
    ensures Logged(accepted + [value], delivered, mail + [value], urgent)
    ensures Logged(accepted + [value], delivered, [value] + mail, true)
  {
    assert delivered + (mail + [value]) == delivered + mail + [value];
  }

  lemma FetchedLogged(accepted: seq<nat>, delivered: seq<nat>, mail: seq<nat>, urgent: bool)
    requires Logged(accepted, delivered, mail, urgent) && mail != []
    ensures Logged(accepted, delivered + [mail[0]], mail[1..], urgent)
  {
    assert mail == [mail[0]] + mail[1..];
    assert delivered + mail == delivered + [mail[0]] + mail[1..];
  }

  /** A mail goes to the back, and a receiver is woken. */
  function Stored(s: State, value: nat): State {
    s.(mail := s.mail + [value], crowd := ReceiverWoken(s.crowd), accepted := s.accepted + [value])
  }

  /** A mail goes to the front, and a receiver is woken. */
  function StoredFirst(s: State, value: nat): State {
    s.(mail := [value] + s.mail, crowd := ReceiverWoken(s.crowd), accepted := s.accepted + [value], urgent := true)
  }

  /** The oldest mail is delivered, and a sender is woken. */
  function Fetched(s: State): State
    requires s.mail != []
  {
    s.(mail := s.mail[1..], crowd := SenderWoken(s.crowd), delivered := s.delivered + [s.mail[0]])
  }

  /** `_rt_mb_send_wait` from its test of the mailbox to its end or its suspension. */
  ghost function Sent(s: State, size: nat, flag: Flag, prio: seq<nat>, t: nat, value: nat, wait: bool): (State, Outcome)
    requires Fine(s, flag, prio, size) && t < |prio|
  {
    var c := RunsOn(s.crowd, t);
    if |s.mail| < size then (Stored(s.(crowd := c), value), Done)
    else if !wait then (s.(crowd := c), Full)
    else (s.(crowd := SenderSleeps(c, t, flag, prio)), Suspended)
  }

  /** `_rt_mb_recv` likewise. */
  ghost function Received(s: State, size: nat, flag: Flag, prio: seq<nat>, t: nat, wait: bool): (State, Outcome)
    requires Fine(s, flag, prio, size) && t < |prio|
  {
    var c := RunsOn(s.crowd, t);
    if s.mail != [] then (Fetched(s.(crowd := c)), Done)
    else if !wait then (s.(crowd := c), Timeout)
    else (s.(crowd := ReceiverSleeps(c, t, flag, prio)), Suspended)
  }

  lemma SentFine(s: State, size: nat, flag: Flag, prio: seq<nat>, t: nat, value: nat, wait: bool)
    requires Fine(s, flag, prio, size) && (Free(s.crowd, prio, t) || t in s.crowd.wokenSenders)
    ensures t < |prio| && Fine(Sent(s, size, flag, prio, t, value, wait).0, flag, prio, size)
  {
    hide Orderly, NothingLost, SenderSleeps, ReceiverSleeps, Free, RunsOn, ReceiverWoken, Known, Logged;
    RunsToSend(s.crowd, prio, |s.mail|, size, t, flag);
    if |s.mail| < size {
      StoredLogged(s.accepted, s.delivered, s.mail, s.urgent, value);
      PutKeeps(RunsOn(s.crowd, t), flag, prio, |s.mail|, size);
    } else if wait {
      RunsOnLists(s.crowd, t);
    }
  }

  lemma ReceivedFine(s: State, size: nat, flag: Flag, prio: seq<nat>, t: nat, wait: bool)
    requires Fine(s, flag, prio, size) && (Free(s.crowd, prio, t) || t in s.crowd.wokenReceivers)
    ensures t < |prio| && Fine(Received(s, size, flag, prio, t, wait).0, flag, prio, size)
  {
    hide Orderly, NothingLost, SenderSleeps, ReceiverSleeps, Free, RunsOn, SenderWoken, Known, Logged;
    RunsToReceive(s.crowd, prio, |s.mail|, size, t, flag);
    if s.mail != [] {
      FetchKeeps(RunsOn(s.crowd, t), flag, prio, |s.mail|, size);
      FetchedLogged(s.accepted, s.delivered, s.mail, s.urgent);
    } else if wait {
      RunsOnLists(s.crowd, t);
    }
  }

  lemma UrgentFine(s: State, size: nat, flag: Flag, prio: seq<nat>, value: nat)
    requires Fine(s, flag, prio, size) && |s.mail| < size
    ensures Fine(StoredFirst(s, value), flag, prio, size)
  {
    hide Logged;
    StoredLogged(s.accepted, s.delivered, s.mail, s.urgent, value);
    OneLessFree(s.crowd, |s.mail|, size);
    PutKeeps(s.crowd, flag, prio, |s.mail|, size);
  }

  /** When no woken thread is left to run, nobody sleeps beside what it waits for. */
  lemma Quiescent(s: State, flag: Flag, prio: seq<nat>, size: nat)
    requires Fine(s, flag, prio, size) && s.crowd.wokenReceivers == {} && s.crowd.wokenSenders == {}
    ensures s.crowd.receivers != [] ==> s.mail == []
    ensures s.crowd.senders != [] ==> |s.mail| == size
    ensures size > 0 ==> s.crowd.receivers == [] || s.crowd.senders == []
  {
  }

  /** Without urgent mails, the mails delivered are the first of those accepted, and the others are stored. */
  lemma InOrder(s: State, flag: Flag, prio: seq<nat>, size: nat)
    requires Fine(s, flag, prio, size) && !s.urgent
    ensures |s.delivered| <= |s.accepted| && s.delivered == s.accepted[..|s.delivered|]
    ensures s.mail == s.accepted[|s.delivered|..]
  {
  }

  // ------------------------------------------------------------------ the ring

  class Mailbox {
    const pool: array<nat>
    const size: nat
    const flag: Flag
    /** The priorities of all threads. */
    const prio: seq<nat>
    var inOffset: nat
    var outOffset: nat
    var entry: nat
    var receivers: seq<nat>
    var senders: seq<nat>
    ghost var wokenReceivers: set<nat>
    ghost var wokenSenders: set<nat>
    /** When each thread last went to sleep here, and how often threads have. */
    ghost var since: seq<nat>
    ghost var clock: nat
    ghost var accepted: seq<nat>
    ghost var delivered: seq<nat>
    ghost var urgent: bool

    ghost predicate Valid()
      reads this, pool
    {
      InShape() && Fine(View(), flag, prio, size)
    }

    ghost predicate InShape()
      reads `inOffset, `outOffset, `entry
    {
      && size == pool.Length && size <= MB_ENTRY_MAX && entry <= size
      && if size == 0 then inOffset == 0 && outOffset == 0
         else inOffset < size && outOffset < size && inOffset == Wrap(outOffset + entry, size)
    }

    ghost function View(): State
      requires InShape()
      reads this, pool
    {
      State(Ring(pool[..], outOffset, entry), Crowd(receivers, senders, wokenReceivers, wokenSenders, since, clock),
            accepted, delivered, urgent)
    }

    /** `rt_mb_init`: the size is cut to 16 bits. */
    constructor (buffer: array<nat>, count: nat, mode: Flag, priorities: seq<nat>)
      requires buffer.Length == count % 0x1_0000
      ensures Valid() && size == count % 0x1_0000 && pool == buffer && flag == mode && prio == priorities
      ensures View() == State([], Crowd([], [], {}, {}, seq(|priorities|, t => 0), 0), [], [], false)
    {
      pool := buffer;
      size := count % 0x1_0000;
      flag := mode;
      prio := priorities;
      inOffset := 0;
      outOffset := 0;
      entry := 0;
      receivers := [];
      senders := [];
      wokenReceivers := {};
      wokenSenders := {};
      since := seq(|priorities|, t => 0);
      clock := 0;
      accepted := [];
      delivered := [];
      urgent := false;
    }

    /** The ring part of `_rt_mb_send_wait`: the count cannot overflow. */
    method Store(value: nat)
      requires InShape() && entry < size
      modifies `inOffset, `entry, pool
      ensures InShape() && Ring(pool[..], outOffset, entry) == old(Ring(pool[..], outOffset, entry)) + [value]
    {
      RingBack(pool[..], outOffset, entry, value);
      ghost var cells := pool[..];
      pool[inOffset] := value;
      assert pool[..] == cells[Wrap(outOffset + entry, size) := value];
      inOffset := inOffset + 1;
      if inOffset >= size {
        inOffset := 0;
      }
      assert entry < MB_ENTRY_MAX;
      entry := entry + 1;
    }

    /** The ring part of `rt_mb_urgent`. */
    method StoreFirst(value: nat)
      requires InShape() && entry < size
      modifies `outOffset, `entry, pool
      ensures InShape() && Ring(pool[..], outOffset, entry) == [value] + old(Ring(pool[..], outOffset, entry))
    {
      RingFront(pool[..], outOffset, entry, value);
      ghost var cells := pool[..];
      if outOffset > 0 {
        outOffset := outOffset - 1;
      } else {
        outOffset := size - 1;
      }
      pool[outOffset] := value;
      assert pool[..] == cells[outOffset := value];
      entry := entry + 1;
    }

    /** The ring part of `_rt_mb_recv`. */
    method Fetch() returns (value: nat)
      requires InShape() && entry > 0
      modifies `outOffset, `entry
      ensures InShape() && [value] + Ring(pool[..], outOffset, entry) == old(Ring(pool[..], outOffset, entry))
    {
      RingRest(pool[..], outOffset, entry);
      value := pool[outOffset];
      outOffset := outOffset + 1;
      if outOffset >= size {
        outOffset := 0;
      }
      entry := entry - 1;
    }

    /** `_ipc_list_resume` on the receivers, if any. */
    method WakeReceiver()
      requires InShape()
      modifies `receivers, `wokenReceivers
      ensures InShape() && View() == old(View()).(crowd := ReceiverWoken(old(View()).crowd))
    {
      hide Ring;
      if receivers != [] {
        wokenReceivers := wokenReceivers + {receivers[0]};
        receivers := receivers[1..];
      }
    }

    /** `_ipc_list_resume` on the senders, if any. */
    method WakeSender()
      requires InShape()
      modifies `senders, `wokenSenders
      ensures InShape() && View() == old(View()).(crowd := SenderWoken(old(View()).crowd))
    {
      hide Ring;
      if senders != [] {
        wokenSenders := wokenSenders + {senders[0]};
        senders := senders[1..];
      }
    }

    /** Thread `t` runs in the mailbox's code. */
    ghost method Arrive(t: nat)
      requires InShape()
      modifies `wokenReceivers, `wokenSenders
      ensures InShape() && View() == old(View()).(crowd := RunsOn(old(View()).crowd, t))
    {
      hide Ring;
      wokenReceivers, wokenSenders := wokenReceivers - {t}, wokenSenders - {t};
    }

    /** The mail goes to the back, and a receiver is woken. */
    method PutAndWake(value: nat)
      requires InShape() && entry < size
      modifies `inOffset, `entry, `receivers, `wokenReceivers, `accepted, pool
      ensures InShape() && View() == Stored(old(View()), value)
    {
      hide Ring;
      Store(value);
      accepted := accepted + [value];
      WakeReceiver();
    }

    /** The mail goes to the front, and a receiver is woken. */
    method PutFirstAndWake(value: nat)
      requires InShape() && entry < size
      modifies `outOffset, `entry, `receivers, `wokenReceivers, `accepted, `urgent, pool
      ensures InShape() && View() == StoredFirst(old(View()), value)
    {
      hide Ring;
      StoreFirst(value);
      accepted := accepted + [value];
      urgent := true;
      WakeReceiver();
    }

    /** The oldest mail is taken, and a sender is woken. */
    method FetchAndWake() returns (value: nat)
      requires InShape() && entry > 0
      modifies `outOffset, `entry, `senders, `wokenSenders, `delivered
      ensures old(View()).mail != [] && value == old(View()).mail[0]
      ensures InShape() && View() == Fetched(old(View()))
    {
      hide Ring;
      ghost var before := View();
      value := Fetch();
      assert before.mail == [value] + Ring(pool[..], outOffset, entry);
      delivered := delivered + [value];
      WakeSender();
    }

    /** The thread goes to sleep on a list. */
    method SleepAsSender(t: nat)
      requires InShape() && Known(senders, prio) && t < |prio|
      modifies `senders, `since, `clock
      ensures InShape() && Known(old(View()).crowd.senders, prio)
      ensures View() == old(View()).(crowd := SenderSleeps(old(View()).crowd, t, flag, prio))
    {
      hide Ring, Enqueue, Stamped;
      senders := Enqueue(senders, t, flag, prio);
      since, clock := Stamped(since, t, clock), clock + 1;
    }

    method SleepAsReceiver(t: nat)
      requires InShape() && Known(receivers, prio) && t < |prio|
      modifies `receivers, `since, `clock
      ensures InShape() && Known(old(View()).crowd.receivers, prio)
      ensures View() == old(View()).(crowd := ReceiverSleeps(old(View()).crowd, t, flag, prio))
    {
      hide Ring, Enqueue, Stamped;
      receivers := Enqueue(receivers, t, flag, prio);
      since, clock := Stamped(since, t, clock), clock + 1;
    }

    lemma Counted()
      requires InShape()
      ensures |View().mail| == entry <= size
      ensures View().crowd.receivers == receivers && View().crowd.senders == senders
    {
    }

    /** A thread sends: it comes to the mailbox, or was woken to send and now runs on. */
    method Send(t: nat, value: nat, wait: bool) returns (r: Outcome)
      requires Valid() && (Free(View().crowd, prio, t) || t in View().crowd.wokenSenders)
      modifies this, pool
      ensures Valid() && t < |prio| && Fine(old(View()), flag, prio, size)
      ensures (View(), r) == Sent(old(View()), size, flag, prio, t, value, wait)
      ensures r == if |old(View()).mail| < size then Done else if wait then Suspended else Full
      ensures View().mail == (if r == Done then old(View()).mail + [value] else old(View()).mail)
      ensures r == Suspended && flag == Fifo ==> senders == old(senders) + [t]
      ensures r != Suspended ==> senders == old(senders)
    {
      Counted();
      SentFine(View(), size, flag, prio, t, value, wait);
      assert Known(View().crowd.senders, prio);
      hide Fine, View, InShape, Stored, Known, Free;
      Arrive(t);
      Counted();
      if entry == size {
        if !wait {
          return Full;
        }
        SleepAsSender(t);
        return Suspended;
      }
      PutAndWake(value);
      return Done;
    }

    /** `rt_mb_urgent`: never waits, and goes to the front. */
    method Urgent(value: nat) returns (r: Outcome)
      requires Valid()
      modifies this, pool
      ensures Valid() && r == if |old(View()).mail| < size then Done else Full
      ensures View() == if r == Done then StoredFirst(old(View()), value) else old(View())
    {
      Counted();
      if entry == size {
        return Full;
      }
      UrgentFine(View(), size, flag, prio, value);
      hide Fine, View, InShape, StoredFirst;
      PutFirstAndWake(value);
      return Done;
    }

    /** A thread receives: it comes to the mailbox, or was woken to receive and now runs on. */
    method Recv(t: nat, wait: bool) returns (r: Outcome, value: nat)
      requires Valid() && (Free(View().crowd, prio, t) || t in View().crowd.wokenReceivers)
      modifies this
      ensures Valid() && t < |prio| && Fine(old(View()), flag, prio, size)
      ensures (View(), r) == Received(old(View()), size, flag, prio, t, wait)
      ensures r == if |old(View()).mail| > 0 then Done else if wait then Suspended else Timeout
      ensures View().mail == (if r == Done then old(View()).mail[1..] else old(View()).mail)
      ensures r == Suspended && flag == Fifo ==> receivers == old(receivers) + [t]
      ensures r != Suspended ==> receivers == old(receivers)
      ensures r == Done ==> old(View()).mail != [] && value == old(View()).mail[0]
    {
      Counted();
      ReceivedFine(View(), size, flag, prio, t, wait);
      assert Known(View().crowd.receivers, prio);
      hide Fine, View, InShape, Fetched, Known, Free;
      Arrive(t);
      Counted();
      value := 0;
      if entry == 0 {
        if !wait {
          r := Timeout;
          return;
        }
        SleepAsReceiver(t);
        r := Suspended;
        return;
      }
      value := FetchAndWake();
      r := Done;
    }

    /** The timer of a sleeping thread takes it out of its list (`_thread_timeout`); it will return
        with an error and does not look at the mailbox again. */
    method Expire(t: nat)
      requires Valid()
      modifies `receivers, `senders
      ensures Valid()
      ensures receivers == Without(old(receivers), t) && senders == Without(old(senders), t)
    {
      ExpireOrderly(View().crowd, flag, prio, t);
      hide Orderly, Without, Ring;
      receivers := Without(receivers, t);
      senders := Without(senders, t);
    }
  }
}
