/**
 Message queues (rt-thread/src/ipc.c): messages live in nodes of a fixed pool that are threaded into a
 queue and a free list. Sending and receiving take two sections with interrupts disabled each; in
 between the node belongs to the thread, which copies bytes, and other threads may run.
 */
module MessageQueue {
  import opened Basics
  import opened ReadyLists
  import opened WaitList
  import opened Crowds

  const MQ_ENTRY_MAX: nat := 0xFFFF

  datatype Outcome = Done | Full | Timeout | Suspended | TooLarge

  datatype Message = Message(body: seq<Byte>, prio: int)

  // ------------------------------------------------------------------ what a queue is

  /** Queued messages, numbers of free nodes and of nodes that threads hold, the threads around, the
      messages accepted and delivered so far, and whether one was sent as urgent. */
  datatype State = State(queue: seq<Message>, free: nat, flying: nat, crowd: Crowd,
                         accepted: seq<Message>, delivered: seq<Message>, urgent: bool)

  /** The most urgent messages (greatest numbers) come first. */
  ghost predicate Descending(queue: seq<Message>) {
    forall i, j :: 0 <= i < j < |queue| ==> queue[i].prio >= queue[j].prio
  }

  ghost predicate Fine(s: State, max: nat, byPrio: bool, flag: Flag, prio: seq<nat>) {
    && |s.queue| + s.free + s.flying == max
    && Orderly(s.crowd, flag, prio) && NothingLost(s.crowd, |s.queue|, |s.queue| + s.free)
    && Logged(s.accepted, s.delivered, s.queue, s.urgent, byPrio)
  }

  /** The messages of one priority, in their order. */
  function OfPrio(ms: seq<Message>, p: int): seq<Message> {
    if ms == [] then [] else (if ms[0].prio == p then [ms[0]] else []) + OfPrio(ms[1..], p)
  }

  /** Among messages of equal priority the first accepted is the first delivered. */
  ghost predicate InTurn(accepted: seq<Message>, delivered: seq<Message>, queue: seq<Message>) {
    forall p :: OfPrio(accepted, p) == OfPrio(delivered, p) + OfPrio(queue, p)
  }

  lemma {:induction false} OfPrioJoin(a: seq<Message>, b: seq<Message>, p: int)
    ensures OfPrio(a + b, p) == OfPrio(a, p) + OfPrio(b, p)
  {
    if a == [] {
      assert a + b == b;
    } else {
      OfPrioJoin(a[1..], b, p);
      OfPrioStep(a + b, p);
      OfPrioStep(a, p);
      hide OfPrio;
      assert (a + b)[1..] == a[1..] + b;
      Regroup(if a[0].prio == p then [a[0]] else [], OfPrio(a[1..], p), OfPrio(b, p));
    }
  }

  lemma OfPrioStep(ms: seq<Message>, p: int)
    requires ms != []
    ensures OfPrio(ms, p) == (if ms[0].prio == p then [ms[0]] else []) + OfPrio(ms[1..], p)
  {
  }

  lemma Regroup(a: seq<Message>, b: seq<Message>, c: seq<Message>)
    ensures a + (b + c) == a + b + c
  {
  }

  lemma {:induction false} NoneOfPrio(ms: seq<Message>, p: int)
    requires forall i :: 0 <= i < |ms| ==> ms[i].prio < p
    ensures OfPrio(ms, p) == []
  {
    if ms != [] {
      NoneOfPrio(ms[1..], p);
    }
  }

  lemma OfPrioOne(m: Message, p: int)
    ensures OfPrio([m], p) == if m.prio == p then [m] else []
  {
    assert [m][1..] == [];
  }

  /** No message is lost, made up or kept twice; without urgent ones the order is kept. */
  ghost predicate Logged(accepted: seq<Message>, delivered: seq<Message>, queue: seq<Message>, urgent: bool,
                         byPrio: bool) {
    && multiset(accepted) == multiset(delivered) + multiset(queue)
    && (!urgent ==> if byPrio then Descending(queue) && InTurn(accepted, delivered, queue)
                    else accepted == delivered + queue)
  }

  /** Where a message goes by priority: in front of the first that is less urgent. */
  function Position(queue: seq<Message>, prio: int): (p: nat)
    ensures p <= |queue|
    ensures forall i :: 0 <= i < p ==> queue[i].prio >= prio
    ensures p < |queue| ==> queue[p].prio < prio
  {
    if queue == [] || queue[0].prio < prio then 0
    else
      var p := Position(queue[1..], prio);
      1 + p
  }

  function Linked(queue: seq<Message>, m: Message, byPrio: bool): seq<Message> {
    var p := if byPrio then Position(queue, m.prio) else |queue|;
    queue[..p] + [m] + queue[p..]
  }

  /** By priority the queue stays in order, and a message goes behind all that are as urgent. */
  lemma LinkedDescending(queue: seq<Message>, m: Message)
    requires Descending(queue)
    ensures Descending(Linked(queue, m, true))
  {
    var p := Position(queue, m.prio);
    SplicedDescending(queue, m, p, queue[..p] + [m] + queue[p..]);
  }

  /** For every priority, the message linked comes last of that priority. */
  lemma LinkedLast(queue: seq<Message>, m: Message, p: int)
    requires Descending(queue)
    ensures OfPrio(Linked(queue, m, true), p) == OfPrio(queue, p) + OfPrio([m], p)
  {
    hide Descending, OfPrio, Position;
    var k := Position(queue, m.prio);
    var a, b := queue[..k], queue[k..];
    assert queue == a + b;
    OfPrioJoin(a, b, p);
    OfPrioJoin(a + [m], b, p);
    OfPrioJoin(a, [m], p);
    OfPrioOne(m, p);
    BehindLess(queue, m.prio);
    if m.prio == p {
      NoneOfPrio(b, p);
    }
  }

  lemma BehindLess(queue: seq<Message>, p: int)
    requires Descending(queue)
    ensures forall i :: 0 <= i < |queue| - Position(queue, p) ==> queue[Position(queue, p)..][i].prio < p
  {
    var k := Position(queue, p);
    forall i | 0 <= i < |queue| - k
      ensures queue[k..][i].prio < p
    {
      assert queue[k..][i] == queue[k + i] && (i > 0 ==> queue[k].prio >= queue[k + i].prio);
    }
  }

  lemma LinkedInTurn(accepted: seq<Message>, delivered: seq<Message>, queue: seq<Message>, m: Message)
    requires Descending(queue) && InTurn(accepted, delivered, queue)
    ensures InTurn(accepted + [m], delivered, Linked(queue, m, true))
  {
    hide Descending, Linked, OfPrio;
    forall p
      ensures OfPrio(accepted + [m], p) == OfPrio(delivered, p) + OfPrio(Linked(queue, m, true), p)
    {
      OfPrioJoin(accepted, [m], p);
      LinkedLast(queue, m, p);
    }
  }

  lemma LeavesInTurn(accepted: seq<Message>, delivered: seq<Message>, queue: seq<Message>)
    requires InTurn(accepted, delivered, queue) && queue != []
    ensures InTurn(accepted, delivered + [queue[0]], queue[1..])
  {
    hide OfPrio;
    assert queue == [queue[0]] + queue[1..];
    forall p
      ensures OfPrio(accepted, p) == OfPrio(delivered + [queue[0]], p) + OfPrio(queue[1..], p)
    {
      OfPrioJoin(delivered, [queue[0]], p);
      OfPrioJoin([queue[0]], queue[1..], p);
    }
  }

  lemma SplicedDescending(queue: seq<Message>, m: Message, p: nat, r: seq<Message>)
    requires Descending(queue) && p <= |queue| && |r| == |queue| + 1 && r[p] == m
    requires (forall i :: 0 <= i < p ==> r[i] == queue[i]) && (forall i :: p < i < |r| ==> r[i] == queue[i - 1])
    requires (forall i :: 0 <= i < p ==> queue[i].prio >= m.prio) && (p < |queue| ==> queue[p].prio < m.prio)
    ensures Descending(r)
  {
    forall i, j | 0 <= i < j < |r| ensures r[i].prio >= r[j].prio {
      if i == p {
        assert r[j] == queue[j - 1] && (p < j - 1 ==> queue[p].prio >= queue[j - 1].prio);
      } else if j == p {
        assert r[i] == queue[i];
      } else {
        var x, y := if i < p then i else i - 1, if j < p then j else j - 1;
        assert r[i] == queue[x] && r[j] == queue[y] && x < y;
      }
    }
  }

  /** A free node goes to a thread. */
  function Claimed(s: State): State
    requires s.free > 0
  {
    s.(free := s.free - 1, flying := s.flying + 1)
  }

  /** A thread's node joins the queue with its message, and a receiver is woken. */
  function Joins(s: State, m: Message, byPrio: bool): State
    requires s.flying > 0
  {
    s.(queue := Linked(s.queue, m, byPrio), flying := s.flying - 1, crowd := ReceiverWoken(s.crowd),
       accepted := s.accepted + [m])
  }

  /** The same in front of all others. */
  function JoinsFirst(s: State, m: Message): State
    requires s.flying > 0
  {
    s.(queue := [m] + s.queue, flying := s.flying - 1, crowd := ReceiverWoken(s.crowd),
       accepted := s.accepted + [m], urgent := true)
  }

  /** The first message goes to a thread. */
  function Leaves(s: State): State
    requires s.queue != []
  {
    s.(queue := s.queue[1..], flying := s.flying + 1, delivered := s.delivered + [s.queue[0]])
  }

  /** A thread's node is free again, and a sender is woken. */
  function Freed(s: State): State
    requires s.flying > 0
  {
    s.(free := s.free + 1, flying := s.flying - 1, crowd := SenderWoken(s.crowd))
  }

  /** The first half of `_rt_mq_send_wait`. */
  ghost function SendBegun(s: State, flag: Flag, prio: seq<nat>, t: nat, wait: bool): (State, Outcome)
    requires Orderly(s.crowd, flag, prio) && t < |prio|
  {
    var c := RunsOn(s.crowd, t);
    if s.free > 0 then (Claimed(s.(crowd := c)), Done)
    else if !wait then (s.(crowd := c), Full)
    else (s.(crowd := SenderSleeps(c, t, flag, prio)), Suspended)
  }

  /** The first half of `_rt_mq_recv`. */
  ghost function RecvBegun(s: State, flag: Flag, prio: seq<nat>, t: nat, wait: bool): (State, Outcome)
    requires Orderly(s.crowd, flag, prio) && t < |prio|
  {
    var c := RunsOn(s.crowd, t);
    if s.queue != [] then (Leaves(s.(crowd := c)), Done)
    else if !wait then (s.(crowd := c), Timeout)
    else (s.(crowd := ReceiverSleeps(c, t, flag, prio)), Suspended)
  }

  lemma SendBegunFine(s: State, max: nat, byPrio: bool, flag: Flag, prio: seq<nat>, t: nat, wait: bool)
    requires Fine(s, max, byPrio, flag, prio) && (Free(s.crowd, prio, t) || t in s.crowd.wokenSenders)
    ensures Orderly(s.crowd, flag, prio) && Known(s.crowd.senders, prio)
    ensures t < |prio| && Fine(SendBegun(s, flag, prio, t, wait).0, max, byPrio, flag, prio)
  {
    hide Orderly, NothingLost, SenderSleeps, ReceiverSleeps, Free, RunsOn, Known, Descending;
    RunsToSend(s.crowd, prio, |s.queue|, |s.queue| + s.free, t, flag);
    RunsOnLists(s.crowd, t);
  }

  lemma RecvBegunFine(s: State, max: nat, byPrio: bool, flag: Flag, prio: seq<nat>, t: nat, wait: bool)
    requires Fine(s, max, byPrio, flag, prio) && (Free(s.crowd, prio, t) || t in s.crowd.wokenReceivers)
    ensures Orderly(s.crowd, flag, prio) && Known(s.crowd.receivers, prio)
    ensures t < |prio| && Fine(RecvBegun(s, flag, prio, t, wait).0, max, byPrio, flag, prio)
  {
    hide Orderly, NothingLost, SenderSleeps, ReceiverSleeps, Free, RunsOn, Known, Descending, Logged;
    RunsToReceive(s.crowd, prio, |s.queue|, |s.queue| + s.free, t, flag);
    RunsOnLists(s.crowd, t);
    if s.queue != [] {
      LeavesLogged(s, byPrio);
    }
  }

  lemma LeavesLogged(s: State, byPrio: bool)
    requires Logged(s.accepted, s.delivered, s.queue, s.urgent, byPrio) && s.queue != []
    ensures Logged(s.accepted, s.delivered + [s.queue[0]], s.queue[1..], s.urgent, byPrio)
  {
    hide InTurn;
    if !s.urgent && byPrio { LeavesInTurn(s.accepted, s.delivered, s.queue); }
    assert s.queue == [s.queue[0]] + s.queue[1..];
    assert s.delivered + s.queue == s.delivered + [s.queue[0]] + s.queue[1..];
  }

  lemma JoinsFine(s: State, max: nat, byPrio: bool, flag: Flag, prio: seq<nat>, m: Message)
    requires Fine(s, max, byPrio, flag, prio) && s.flying > 0
    ensures Fine(Joins(s, m, byPrio), max, byPrio, flag, prio)
  {
    hide Orderly, NothingLost, ReceiverWoken, Logged, Linked;
    PutKeeps(s.crowd, flag, prio, |s.queue|, |s.queue| + s.free + 1);
    JoinsLogged(s, byPrio, m);
  }

  lemma JoinsLogged(s: State, byPrio: bool, m: Message)
    requires Logged(s.accepted, s.delivered, s.queue, s.urgent, byPrio)
    ensures Logged(s.accepted + [m], s.delivered, Linked(s.queue, m, byPrio), s.urgent, byPrio)
    ensures |Linked(s.queue, m, byPrio)| == |s.queue| + 1
  {
    hide Descending, Linked, InTurn;
    if !s.urgent && byPrio {
      LinkedDescending(s.queue, m);
      LinkedInTurn(s.accepted, s.delivered, s.queue, m);
    }
    LinkedHolds(s.queue, m, byPrio);
    assert s.delivered + (s.queue + [m]) == s.delivered + s.queue + [m];
  }

  lemma LinkedHolds(queue: seq<Message>, m: Message, byPrio: bool)
    ensures multiset(Linked(queue, m, byPrio)) == multiset(queue) + multiset{m}
    ensures |Linked(queue, m, byPrio)| == |queue| + 1
    ensures !byPrio ==> Linked(queue, m, byPrio) == queue + [m]
  {
    hide Position;
    var p := if byPrio then Position(queue, m.prio) else |queue|;
    assert queue == queue[..p] + queue[p..];
    assert !byPrio ==> queue[..p] == queue && queue[p..] == [];
  }

  lemma JoinsFirstFine(s: State, max: nat, byPrio: bool, flag: Flag, prio: seq<nat>, m: Message)
    requires Fine(s, max, byPrio, flag, prio) && s.flying > 0
    ensures Fine(JoinsFirst(s, m), max, byPrio, flag, prio)
  {
    hide Orderly, NothingLost, ReceiverWoken, Descending;
    PutKeeps(s.crowd, flag, prio, |s.queue|, |s.queue| + s.free + 1);
  }

  lemma FreedFine(s: State, max: nat, byPrio: bool, flag: Flag, prio: seq<nat>)
    requires Fine(s, max, byPrio, flag, prio) && s.flying > 0
    ensures Fine(Freed(s), max, byPrio, flag, prio)
  {
    hide Orderly, NothingLost, SenderWoken, Descending;
    FetchKeeps(s.crowd, flag, prio, |s.queue| + 1, |s.queue| + s.free + 1);
  }

  /** When no woken thread is left to run, nobody sleeps beside what it waits for. */
  lemma Quiescent(s: State, max: nat, byPrio: bool, flag: Flag, prio: seq<nat>)
    requires Fine(s, max, byPrio, flag, prio) && s.crowd.wokenReceivers == {} && s.crowd.wokenSenders == {}
    ensures s.crowd.receivers != [] ==> s.queue == []
    ensures s.crowd.senders != [] ==> s.free == 0
    ensures max > 0 && s.flying == 0 ==> s.crowd.receivers == [] || s.crowd.senders == []
  {
  }

  /** An urgent message leaves the queue in order of priority exactly if it was, and the priority its node happens to
      have is no less than that of the first message. */
  lemma UrgentOrder(queue: seq<Message>, m: Message)
    ensures Descending([m] + queue) <==> Descending(queue) && (queue == [] || m.prio >= queue[0].prio)
  {
    var r := [m] + queue;
    assert forall i :: 0 < i < |r| ==> r[i] == queue[i - 1];
    assert queue != [] ==> r[0] == m && r[1] == queue[0];
    if Descending(r) {
      forall i, j | 0 <= i < j < |queue| ensures queue[i].prio >= queue[j].prio {
        assert r[i + 1].prio >= r[j + 1].prio;
      }
    }
  }

  lemma FirstJoins(s: State, m: Message)
    requires s.flying > 0
    ensures JoinsFirst(s, m).queue == [m] + s.queue
  {
  }

  /** The priorities written in the nodes. */
  function Prios(nodes: seq<Node>): (p: seq<int>)
    ensures |p| == |nodes| && forall i :: 0 <= i < |nodes| ==> p[i] == nodes[i].prio
  {
    seq(|nodes|, i requires 0 <= i < |nodes| => nodes[i].prio)
  }

  lemma LinksKeepPrios(before: seq<Node>, ids: seq<nat>, p: nat, x: nat, after: seq<Node>)
    requires OnlyLinks(before, ids, p, x, after)
    ensures Prios(after) == Prios(before)
  {
  }

  lemma PrioSet(nodes: seq<Node>, x: nat, cell: Node)
    requires x < |nodes|
    ensures Prios(nodes[x := cell]) == Prios(nodes)[x := cell.prio]
  {
  }

  /** Without urgent messages, deliveries follow the order of acceptance: altogether, or priority by priority. */
  lemma Delivery(s: State, max: nat, byPrio: bool, flag: Flag, prio: seq<nat>)
    requires Fine(s, max, byPrio, flag, prio) && !s.urgent
    ensures !byPrio ==> |s.delivered| <= |s.accepted| && s.delivered == s.accepted[..|s.delivered|]
    ensures byPrio ==> forall p :: OfPrio(s.delivered, p) <= OfPrio(s.accepted, p)
  {
    hide OfPrio;
  }

  /** By priority, a thread receives the oldest of the most urgent messages accepted and not delivered yet. */
  lemma NextDelivered(s: State, max: nat, flag: Flag, prio: seq<nat>)
    requires Fine(s, max, true, flag, prio) && !s.urgent && s.queue != []
    ensures var m, n := s.queue[0], |OfPrio(s.delivered, s.queue[0].prio)|;
            && Leaves(s).delivered == s.delivered + [m]
            && n < |OfPrio(s.accepted, m.prio)| && m == OfPrio(s.accepted, m.prio)[n]
            && forall p :: p > m.prio ==> OfPrio(s.accepted, p) == OfPrio(s.delivered, p)
  {
    var m := s.queue[0];
    forall p | p > m.prio
      ensures OfPrio(s.accepted, p) == OfPrio(s.delivered, p)
    {
      assert forall i :: 0 <= i < |s.queue| ==> s.queue[i].prio < p;
      NoneOfPrio(s.queue, p);
      assert OfPrio(s.accepted, p) == OfPrio(s.delivered, p) + OfPrio(s.queue, p);
    }
    assert OfPrio(s.queue, m.prio)[0] == m;
    assert OfPrio(s.accepted, m.prio) == OfPrio(s.delivered, m.prio) + OfPrio(s.queue, m.prio);
  }

  // ------------------------------------------------------------------ nodes

  /** A node; -1 stands for the null pointer. */
  datatype Node = Node(next: int, body: seq<Byte>, prio: int)

  function First(ids: seq<nat>): int {
    if ids == [] then -1 else ids[0]
  }

  function Last(ids: seq<nat>): int {
    if ids == [] then -1 else ids[|ids| - 1]
  }

  /** The nodes are threaded one to the next. */
  ghost predicate Chained(nodes: seq<Node>, ids: seq<nat>) {
    InPool(nodes, ids) && forall i :: 0 <= i < |ids| ==> ChainedAt(nodes, ids, i)
  }

  ghost predicate ChainedAt(nodes: seq<Node>, ids: seq<nat>, i: nat) {
    i < |ids| && ids[i] < |nodes| && nodes[ids[i]].next == NextIn(ids, i)
  }

  function NextIn(ids: seq<nat>, i: nat): int {
    if i + 1 < |ids| then ids[i + 1] else -1
  }

  ghost predicate InPool(nodes: seq<Node>, ids: seq<nat>) {
    forall i :: 0 <= i < |ids| ==> ids[i] < |nodes|
  }

  /** The messages in a list of nodes. */
  ghost function Messages(nodes: seq<Node>, ids: seq<nat>): (ms: seq<Message>)
    requires InPool(nodes, ids)
    ensures |ms| == |ids|
    ensures forall i :: 0 <= i < |ids| ==> ms[i] == Message(nodes[ids[i]].body, nodes[ids[i]].prio)
  {
    seq(|ids|, i requires 0 <= i < |ids| => Message(nodes[ids[i]].body, nodes[ids[i]].prio))
  }

  /** Which nodes are queued, free, or with a thread: every node is in exactly one place. */
  datatype Layout = Layout(queued: seq<nat>, freed: seq<nat>, flying: set<nat>)

  ghost predicate Tidy(l: Layout, n: nat) {
    && Distinct(l.queued) && Distinct(l.freed)
    && (forall x :: x in l.queued ==> x < n && x !in l.freed && x !in l.flying)
    && (forall x :: x in l.freed ==> x < n && x !in l.flying)
    && (forall x :: x in l.flying ==> x < n)
    && |l.queued| + |l.freed| + |l.flying| == n
  }

  /** Linking node `x` in front of place `p`. */
  function LinkedIds(ids: seq<nat>, p: nat, x: nat): seq<nat>
    requires p <= |ids|
  {
    ids[..p] + [x] + ids[p..]
  }

  lemma LinkChained(nodes: seq<Node>, ids: seq<nat>, p: nat, x: nat, after: seq<Node>)
    requires Chained(nodes, ids) && p <= |ids| && x !in ids && Distinct(ids) && |after| == |nodes| && x < |nodes|
    requires after[x].next == if p < |ids| then ids[p] else -1
    requires forall i :: 0 <= i < |ids| && i != p - 1 ==> after[ids[i]].next == nodes[ids[i]].next
    requires p > 0 ==> after[ids[p - 1]].next == x
    ensures Chained(after, LinkedIds(ids, p, x))
  {
    var r := LinkedIds(ids, p, x);
    assert |r| == |ids| + 1 && r[p] == x;
    assert forall i :: 0 <= i < p ==> r[i] == ids[i];
    assert forall i :: p < i < |r| ==> r[i] == ids[i - 1];
    hide LinkedIds;
    forall i | 0 <= i < |r| ensures ChainedAt(after, r, i) {
      if i < p {
        assert ChainedAt(nodes, ids, i);
      } else if i > p {
        assert ChainedAt(nodes, ids, i - 1);
      }
    }
  }

  /** Changes elsewhere do not matter to a list. */
  lemma ChainedElsewhere(nodes: seq<Node>, ids: seq<nat>, after: seq<Node>)
    requires Chained(nodes, ids) && |after| == |nodes|
    requires forall i :: 0 <= i < |ids| && ids[i] < |nodes| ==> after[ids[i]] == nodes[ids[i]]
    ensures Chained(after, ids) && InPool(nodes, ids) && InPool(after, ids)
    ensures Messages(after, ids) == Messages(nodes, ids)
  {
    forall i | 0 <= i < |ids| ensures ids[i] < |nodes| && ChainedAt(after, ids, i) {
      assert ChainedAt(nodes, ids, i);
    }
    assert InPool(nodes, ids);
    assert Messages(after, ids) == Messages(nodes, ids);
  }

  lemma TailChained(nodes: seq<Node>, ids: seq<nat>)
    requires Chained(nodes, ids) && ids != []
    ensures Chained(nodes, ids[1..]) && nodes[ids[0]].next == First(ids[1..])
    ensures Last(ids[1..]) == if |ids| == 1 then -1 else Last(ids)
    ensures InPool(nodes, ids) && InPool(nodes, ids[1..])
    ensures Messages(nodes, ids[1..]) == Messages(nodes, ids)[1..]
  {
    var rest := ids[1..];
    forall i | 0 <= i < |rest| ensures ChainedAt(nodes, rest, i) {
      assert ChainedAt(nodes, ids, i + 1);
    }
    assert ChainedAt(nodes, ids, 0);
    assert InPool(nodes, ids) by {
      forall i | 0 <= i < |ids| ensures ids[i] < |nodes| { assert ChainedAt(nodes, ids, i); }
    }
  }

  lemma ClaimTidy(l: Layout, n: nat)
    requires Tidy(l, n) && l.freed != []
    ensures Tidy(l.(freed := l.freed[1..], flying := l.flying + {l.freed[0]}), n) && l.freed[0] !in l.flying
  {
    assert l.freed[0] in l.freed && l.freed[0] !in l.freed[1..];
    assert forall x :: x in l.freed[1..] ==> x in l.freed;
  }

  lemma LeaveTidy(l: Layout, n: nat)
    requires Tidy(l, n) && l.queued != []
    ensures Tidy(l.(queued := l.queued[1..], flying := l.flying + {l.queued[0]}), n) && l.queued[0] !in l.flying
  {
    assert l.queued[0] in l.queued && l.queued[0] !in l.queued[1..];
    assert forall x :: x in l.queued[1..] ==> x in l.queued;
  }

  lemma FreeTidy(l: Layout, n: nat, x: nat)
    requires Tidy(l, n) && x in l.flying
    ensures Tidy(l.(freed := [x] + l.freed, flying := l.flying - {x}), n)
  {
    DistinctWith(l.freed, x);
    assert forall y :: y in [x] + l.freed <==> y == x || y in l.freed;
  }

  lemma LinkTidy(l: Layout, n: nat, p: nat, x: nat)
    requires Tidy(l, n) && x in l.flying && p <= |l.queued|
    ensures Tidy(l.(queued := LinkedIds(l.queued, p, x), flying := l.flying - {x}), n)
    ensures x !in l.queued && x !in l.freed
  {
    var r := LinkedIds(l.queued, p, x);
    assert forall i :: 0 <= i < |r| ==> r[i] == if i < p then l.queued[i] else if i == p then x else l.queued[i - 1];
    assert l.queued == l.queued[..p] + l.queued[p..];
    assert forall y :: y in r <==> y == x || y in l.queued;
    hide LinkedIds;
    assert Distinct(r);
  }

  // ------------------------------------------------------------------ the message queue

  /** Head, tail, free pointer and count agree with the lists. */
  ghost predicate Shape(nodes: seq<Node>, head: int, tail: int, free: int, entry: nat, l: Layout) {
    && |nodes| <= MQ_ENTRY_MAX && Tidy(l, |nodes|)
    && Chained(nodes, l.queued) && Chained(nodes, l.freed)
    && head == First(l.queued) && tail == Last(l.queued) && free == First(l.freed) && entry == |l.queued|
  }

  class Queue {
    const flag: Flag
    /** RT_USING_MESSAGEQUEUE_PRIORITY. */
    const byPrio: bool
    const msgSize: nat
    const prio: seq<nat>
    var nodes: seq<Node>
    var head: int
    var tail: int
    var free: int
    var entry: nat
    var receivers: seq<nat>
    var senders: seq<nat>
    ghost var layout: Layout
    ghost var wokenReceivers: set<nat>
    ghost var wokenSenders: set<nat>
    /** When each thread last went to sleep here, and how often threads have. */
    ghost var since: seq<nat>
    ghost var clock: nat
    ghost var accepted: seq<Message>
    ghost var delivered: seq<Message>
    ghost var urgent: bool

    ghost predicate Valid()
      reads this
    {
      InShape() && Fine(View(), |nodes|, byPrio, flag, prio)
    }

    ghost predicate InShape()
      reads `nodes, `head, `tail, `free, `entry, `layout
    {
      Shape(nodes, head, tail, free, entry, layout)
    }

    ghost function View(): State
      requires InShape()
      reads this
    {
      State(Messages(nodes, layout.queued), |layout.freed|, |layout.flying|,
            Crowd(receivers, senders, wokenReceivers, wokenSenders, since, clock), accepted, delivered, urgent)
    }

    lemma Counted()
      requires InShape()
      ensures |View().queue| == entry && (View().free > 0 <==> free != -1) && (entry > 0 <==> head != -1)
      ensures View().crowd.receivers == receivers && View().crowd.senders == senders
      ensures View().flying == |layout.flying|
    {
    }

    lemma FlyingNotFree(node: nat)
      requires InShape() && node in layout.flying
      ensures node != free
    {
    }

    /** `rt_mq_init` for a pool of `n` nodes, 1 at least. */
    constructor (n: nat, size: nat, mode: Flag, prioritised: bool, priorities: seq<nat>)
      requires 0 < n <= MQ_ENTRY_MAX
      ensures Valid() && |nodes| == n && msgSize == size && flag == mode && byPrio == prioritised && prio == priorities
      ensures View() == State([], n, 0, Crowd([], [], {}, {}, seq(|priorities|, t => 0), 0), [], [], false)
    {
      flag := mode;
      byPrio := prioritised;
      msgSize := size;
      prio := priorities;
      nodes := seq(n, i requires 0 <= i < n => Node(i - 1, [], 0));
      head := -1;
      tail := -1;
      free := n - 1;
      entry := 0;
      receivers := [];
      senders := [];
      layout := Layout([], seq(n, i requires 0 <= i < n => n - 1 - i), {});
      wokenReceivers := {};
      wokenSenders := {};
      since := seq(|priorities|, t => 0);
      clock := 0;
      accepted := [];
      delivered := [];
      urgent := false;
      new;
      FreshLayout(nodes, layout, n);
    }

    /** `_ipc_list_resume` on the receivers, if any. */
    method WakeReceiver()
      requires InShape()
      modifies `receivers, `wokenReceivers
      ensures InShape() && View() == old(View()).(crowd := ReceiverWoken(old(View()).crowd))
    {
      hide Messages;
      if receivers != [] {
        wokenReceivers := wokenReceivers + {receivers[0]};
        receivers := receivers[1..];
      }
    }

    /** `_ipc_list_resume` on the senders, if any. */
    method WakeSender()
      requires InShape()
      modifies `senders, `wokenSenders
      ensures InShape() && View() == old(View()).(crowd := SenderWoken(old(View()).crowd))
    {
      hide Messages;
      if senders != [] {
        wokenSenders := wokenSenders + {senders[0]};
        senders := senders[1..];
      }
    }

    /** Thread `t` runs in the queue's code. */
    ghost method Arrive(t: nat)
      requires InShape()
      modifies `wokenReceivers, `wokenSenders
      ensures InShape() && View() == old(View()).(crowd := RunsOn(old(View()).crowd, t))
      ensures View().free == old(View()).free && View().queue == old(View()).queue
    {
      hide Messages;
      wokenReceivers, wokenSenders := wokenReceivers - {t}, wokenSenders - {t};
    }

    method SleepAsSender(t: nat)
      requires InShape() && Known(senders, prio) && t < |prio|
      modifies `senders, `since, `clock
      ensures InShape() && Known(old(View()).crowd.senders, prio)
      ensures View() == old(View()).(crowd := SenderSleeps(old(View()).crowd, t, flag, prio))
      ensures flag == Fifo ==> senders == old(senders) + [t]
    {
      hide Messages, Enqueue, Shape, Stamped, Known;
      EnqueueStands(senders, t, since, clock, flag, prio);
      senders := Enqueue(senders, t, flag, prio);
      since, clock := Stamped(since, t, clock), clock + 1;
    }

    method SleepAsReceiver(t: nat)
      requires InShape() && Known(receivers, prio) && t < |prio|
      modifies `receivers, `since, `clock
      ensures InShape() && Known(old(View()).crowd.receivers, prio)
      ensures View() == old(View()).(crowd := ReceiverSleeps(old(View()).crowd, t, flag, prio))
      ensures flag == Fifo ==> receivers == old(receivers) + [t]
    {
      hide Messages, Enqueue, Shape, Stamped, Known;
      EnqueueStands(receivers, t, since, clock, flag, prio);
      receivers := Enqueue(receivers, t, flag, prio);
      since, clock := Stamped(since, t, clock), clock + 1;
    }

    /** The first free node is taken off its list. */
    method Claim() returns (node: nat)
      requires InShape() && free != -1
      modifies `free, `layout
      ensures InShape() && node in layout.flying && layout.flying == old(layout).flying + {node}
      ensures old(View()).free > 0 && View() == Claimed(old(View()))
      ensures node == old(free) && node < |nodes| && free == nodes[node].next
    {
      ClaimShape(nodes, head, tail, free, entry, layout);
      hide Shape, Messages;
      node := free;
      free := nodes[free].next;
      layout := layout.(freed := layout.freed[1..], flying := layout.flying + {node});
    }

    /** The first queued node is taken off its list. */
    method Unlink() returns (node: nat)
      requires InShape() && head != -1
      modifies `head, `tail, `entry, `layout
      ensures InShape() && node in layout.flying && layout.flying == old(layout).flying + {node} && node < |nodes|
      ensures var s := old(View());
              s.queue != [] && View() == s.(queue := s.queue[1..], flying := s.flying + 1)
              && Message(nodes[node].body, nodes[node].prio) == s.queue[0]
    {
      UnlinkShape(nodes, head, tail, free, entry, layout);
      hide Shape, Messages;
      node := head;
      head := nodes[node].next;
      if tail == node {
        tail := -1;
      }
      entry := entry - 1;
      layout := layout.(queued := layout.queued[1..], flying := layout.flying + {node});
    }

    /** A thread writes into its node, outside any section; a sender also clears the link. */
    method Fill(node: nat, body: seq<Byte>, clear: bool)
      requires InShape() && node in layout.flying && |body| <= msgSize
      modifies `nodes
      ensures InShape() && View() == old(View()) && |nodes| == |old(nodes)|
      ensures node < |nodes|
      ensures nodes ==
        old(nodes)[node := Node(if clear then -1 else old(nodes)[node].next, body, old(nodes)[node].prio)]
    {
      var cell := Node(if clear then -1 else nodes[node].next, body, nodes[node].prio);
      FlyingElsewhere(nodes, layout, node, cell);
      hide Chained, Messages, Tidy;
      nodes := nodes[node := cell];
    }

    /** The linking of `_rt_mq_send_wait` without priorities: behind the tail. */
    method LinkLast(node: nat) returns (ghost p: nat)
      requires InShape() && node in layout.flying && nodes[node].next == -1
      modifies `nodes, `head, `tail
      ensures p == |layout.queued| && OnlyLinks(old(nodes), layout.queued, p, node, nodes)
      ensures head == (if p == 0 then node else old(head)) && tail == node
    {
      TailNode(nodes, layout, node);
      hide Chained, Tidy;
      p := |layout.queued|;
      if tail != -1 {
        nodes := nodes[tail := nodes[tail].(next := node)];
      }
      tail := node;
      if head == -1 {
        head := node;
      }
    }

    /** The linking of `rt_mq_urgent`: before the head. */
    method LinkFirst(node: nat) returns (ghost p: nat)
      requires InShape() && node in layout.flying
      modifies `nodes, `head, `tail
      ensures p == 0 && OnlyLinks(old(nodes), layout.queued, p, node, nodes)
      ensures head == node && tail == if layout.queued == [] then node else old(tail)
    {
      TailNode(nodes, layout, node);
      hide Chained, Tidy;
      p := 0;
      nodes := nodes[node := nodes[node].(next := head)];
      head := node;
      if tail == -1 {
        tail := node;
      }
    }

    /** The linking of `_rt_mq_send_wait` by priority: before the first node that is less urgent. */
    method LinkByPrio(node: nat) returns (ghost p: nat)
      requires InShape() && node in layout.flying && nodes[node].next == -1
      modifies `nodes, `head, `tail
      ensures p == Position(old(View()).queue, old(nodes)[node].prio)
      ensures p <= |layout.queued| && OnlyLinks(old(nodes), layout.queued, p, node, nodes)
      ensures head == if p == 0 then node else old(head)
      ensures tail == if p == |layout.queued| then node else old(tail)
    {
      hide Tidy, Messages, Chained, Position;
      TailNode(nodes, layout, node);
      if head == -1 {
        head := node;
      }
      var prev, cur;
      prev, cur, p := Scan(node);
      if nodes[cur].prio < nodes[node].prio {
        LinkBefore(node, prev, cur, p);
      } else {
        if cur != node {
          nodes := nodes[cur := nodes[cur].(next := node)];
        }
        tail := node;
      }
    }

    /** Links a node between two neighbours, or before the first. */
    method LinkBefore(node: nat, prev: int, cur: int, ghost p: nat)
      requires node < |nodes| && InPool(nodes, layout.queued) && node !in layout.queued
      requires p < |layout.queued| && cur == layout.queued[p] && prev == if p == 0 then -1 else layout.queued[p - 1]
      modifies `nodes, `head
      ensures OnlyLinks(old(nodes), layout.queued, p, node, nodes)
      ensures head == if p == 0 then node else old(head)
    {
      if prev == -1 {
        head := node;
      } else {
        nodes := nodes[prev := nodes[prev].(next := node)];
      }
      nodes := nodes[node := nodes[node].(next := cur)];
    }

    /** The loop of the insertion by priority: stops at a node that is less urgent or at the last one. */
    method Scan(node: nat) returns (prev: int, cur: int, ghost p: nat)
      requires node < |nodes| && nodes[node].next == -1 && Chained(nodes, layout.queued)
      requires head == if layout.queued == [] then node else First(layout.queued)
      ensures p == Position(Messages(nodes, layout.queued), nodes[node].prio)
      ensures var ids := layout.queued;
              if ids == [] then p == 0 && cur == node
              else if p < |ids| then
                cur == ids[p] && prev == (if p == 0 then -1 else ids[p - 1]) && nodes[cur].prio < nodes[node].prio
              else p == |ids| && cur == ids[p - 1] && nodes[cur].prio >= nodes[node].prio
    {
      ghost var ids, queue := layout.queued, Messages(nodes, layout.queued);
      prev, cur, p := -1, head, 0;
      while nodes[cur].prio >= nodes[node].prio && nodes[cur].next != -1
        invariant if ids == [] then p == 0 && cur == node else p < |ids| && cur == ids[p]
        invariant prev == if p == 0 then -1 else ids[p - 1]
        invariant forall i :: 0 <= i < p ==> queue[i].prio >= nodes[node].prio
        decreases |ids| - p
      {
        assert ids != [] ==> ChainedAt(nodes, ids, p);
        prev := cur;
        cur := nodes[cur].next;
        p := p + 1;
      }
      assert ids != [] ==> ChainedAt(nodes, ids, p);
      if ids != [] && nodes[cur].prio >= nodes[node].prio {
        p := p + 1;
      }
      PositionIs(queue, nodes[node].prio, p);
    }

    /** A filled node joins the queue and is counted. */
    method Enter(node: nat) returns (ghost p: nat)
      requires InShape() && node in layout.flying && nodes[node].next == -1
      modifies `nodes, `head, `tail, `entry, `layout
      ensures InShape() && |nodes| == |old(nodes)| && layout.flying == old(layout).flying - {node}
      ensures p == if byPrio then Position(old(View()).queue, old(nodes)[node].prio) else |old(View()).queue|
      ensures LinkedView(old(View()), View(), p, MessageOf(old(nodes)[node])) && Prios(nodes) == Prios(old(nodes))
    {
      hide Shape, Position, OnlyLinks, Messages, LinkedIds;
      ghost var before, headBefore, tailBefore := nodes, head, tail;
      if byPrio {
        p := LinkByPrio(node);
      } else {
        p := LinkLast(node);
      }
      LinksKeepPrios(before, layout.queued, p, node, nodes);
      LinkShape(before, headBefore, tailBefore, free, entry, layout, p, node, nodes);
      entry := entry + 1;
      layout := layout.(queued := LinkedIds(layout.queued, p, node), flying := layout.flying - {node});
    }

    /** A filled node goes before the head and is counted. */
    method EnterFirst(node: nat)
      requires InShape() && node in layout.flying
      modifies `nodes, `head, `tail, `entry, `layout
      ensures InShape() && |nodes| == |old(nodes)| && layout.flying == old(layout).flying - {node}
      ensures LinkedView(old(View()), View(), 0, MessageOf(old(nodes)[node]))
    {
      hide Shape, OnlyLinks, Messages, LinkedIds;
      ghost var before, headBefore, tailBefore := nodes, head, tail;
      ghost var p := LinkFirst(node);
      LinkShape(before, headBefore, tailBefore, free, entry, layout, p, node, nodes);
      entry := entry + 1;
      layout := layout.(queued := LinkedIds(layout.queued, p, node), flying := layout.flying - {node});
    }

    /** A thread's node goes back to the free list. */
    method Release(node: nat)
      requires InShape() && node in layout.flying
      modifies `nodes, `free, `layout
      ensures InShape() && |nodes| == |old(nodes)| && layout.flying == old(layout).flying - {node}
      ensures old(View()).flying > 0
      ensures View() == old(View()).(free := old(View()).free + 1, flying := old(View()).flying - 1)
      ensures free == node < |nodes| && nodes == old(nodes)[node := old(nodes)[node].(next := old(free))]
    {
      ReleaseShape(nodes, head, tail, free, entry, layout, node);
      hide Shape, Messages;
      nodes := nodes[node := nodes[node].(next := free)];
      free := node;
      layout := layout.(freed := [node] + layout.freed, flying := layout.flying - {node});
    }

    // ---------------------------------------------------------------- the operations

    /** `_rt_mq_send_wait` up to the node it takes, by a thread that comes with a message of `size` bytes. */
    method SendBegin(t: nat, size: nat, wait: bool) returns (r: Outcome, node: nat)
      requires Valid() && Free(View().crowd, prio, t)
      modifies this
      ensures Valid() && t < |prio| && Orderly(old(View()).crowd, flag, prio)
      ensures size > msgSize ==> r == TooLarge && View() == old(View())
      ensures size <= msgSize ==> (View(), r) == SendBegun(old(View()), flag, prio, t, wait)
      ensures size <= msgSize ==> r == if old(View()).free > 0 then Done else if wait then Suspended else Full
      ensures r == Suspended && flag == Fifo ==> senders == old(senders) + [t]
      ensures r != Suspended ==> senders == old(senders)
      ensures layout.flying == old(layout).flying + if r == Done then {node} else {}
      ensures r == Done ==> node in layout.flying
      ensures nodes == old(nodes)
      ensures r == Done ==> node == old(free) && node < |nodes| && free == nodes[node].next
    {
      hide Fine, View, InShape, Orderly, SendBegun;
      if size > msgSize {
        FineOrderly(View(), |nodes|, byPrio, flag, prio, t);
        r, node := TooLarge, 0;
        return;
      }
      r, node := SendFrom(t, wait);
    }

    /** The same from the test for a free node, also by a thread that was woken to send. */
    method SendFrom(t: nat, wait: bool) returns (r: Outcome, node: nat)
      requires Valid() && (Free(View().crowd, prio, t) || t in View().crowd.wokenSenders)
      modifies this
      ensures Valid() && t < |prio| && Orderly(old(View()).crowd, flag, prio)
      ensures (View(), r) == SendBegun(old(View()), flag, prio, t, wait)
      ensures r == if old(View()).free > 0 then Done else if wait then Suspended else Full
      ensures r == Suspended && flag == Fifo ==> senders == old(senders) + [t]
      ensures r != Suspended ==> senders == old(senders)
      ensures layout.flying == old(layout).flying + if r == Done then {node} else {}
      ensures r == Done ==> node in layout.flying
      ensures nodes == old(nodes)
      ensures r == Done ==> node == old(free) && node < |nodes| && free == nodes[node].next
    {
      hide Fine, View, InShape, Known, Free, Orderly, Claimed, RunsOn, SenderSleeps;
      Counted();
      SendBegunFine(View(), |nodes|, byPrio, flag, prio, t, wait);
      node := 0;
      Arrive(t);
      Counted();
      if free == -1 {
        if !wait {
          r := Full;
          return;
        }
        SleepAsSender(t);
        r := Suspended;
        return;
      }
      node := Claim();
      r := Done;
    }

    /** The rest of `_rt_mq_send_wait`; the node was filled in between. */
    method SendEnd(node: nat, priority: int)
      requires Valid() && node in layout.flying && node < |nodes| && nodes[node].next == -1
      modifies this
      ensures Valid() && |nodes| == |old(nodes)| && layout.flying == old(layout).flying - {node}
      ensures old(View()).flying > 0
      ensures View() == Joins(old(View()), Message(old(nodes)[node].body, priority), byPrio)
      ensures free == old(free) && Prios(nodes) == Prios(old(nodes))[node := priority]
    {
      hide Fine, InShape, View, Joins;
      Counted();
      FlyingCounted(layout, node);
      JoinsFine(View(), |nodes|, byPrio, flag, prio, Message(nodes[node].body, priority));
      Join(node, priority);
    }

    /** The node joins the queue with its message and a receiver is woken. */
    method Join(node: nat, priority: int)
      requires InShape() && node in layout.flying && node < |nodes| && nodes[node].next == -1
      modifies this
      ensures InShape() && |nodes| == |old(nodes)| && layout.flying == old(layout).flying - {node}
      ensures old(View()).flying > 0
      ensures View() == Joins(old(View()), Message(old(nodes)[node].body, priority), byPrio)
      ensures free == old(free) && Prios(nodes) == Prios(old(nodes))[node := priority]
    {
      hide Shape, Position, Messages, ReceiverWoken, Prios;
      PrioSet(nodes, node, nodes[node].(prio := priority));
      SetPriority(node, priority);
      ghost var m := MessageOf(nodes[node]);
      ghost var p := Enter(node);
      accepted := accepted + [m];
      WakeReceiver();
    }

    /** `msg->prio = prio`. */
    method SetPriority(node: nat, priority: int)
      requires InShape() && node in layout.flying && node < |nodes|
      modifies `nodes
      ensures InShape() && View() == old(View())
      ensures nodes == old(nodes)[node := old(nodes)[node].(prio := priority)]
    {
      FlyingElsewhere(nodes, layout, node, nodes[node].(prio := priority));
      hide Chained, Messages, Tidy;
      nodes := nodes[node := nodes[node].(prio := priority)];
    }

    /** `rt_mq_urgent` up to the node it takes: never waits. */
    method UrgentBegin(size: nat) returns (r: Outcome, node: nat)
      requires Valid()
      modifies `free, `layout
      ensures Valid() && r == if size > msgSize then TooLarge else if old(View()).free > 0 then Done else Full
      ensures View() == if r == Done then Claimed(old(View())) else old(View())
      ensures layout.flying == old(layout).flying + if r == Done then {node} else {}
      ensures r == Done ==> node in layout.flying
      ensures r == Done ==> node == old(free) && node < |nodes|
    {
      hide Fine, View, InShape, Claimed;
      Counted();
      node := 0;
      if size > msgSize {
        r := TooLarge;
        return;
      }
      if free == -1 {
        r := Full;
        return;
      }
      ClaimedFine(View(), |nodes|, byPrio, flag, prio);
      node := Claim();
      r := Done;
    }

    /** The rest of `rt_mq_urgent`: the node keeps whatever priority it was last sent with. */
    method UrgentEnd(node: nat)
      requires Valid() && node in layout.flying && node < |nodes|
      modifies this
      ensures Valid() && |nodes| == |old(nodes)| && layout.flying == old(layout).flying - {node}
      ensures old(View()).flying > 0
      ensures View() == JoinsFirst(old(View()), MessageOf(old(nodes)[node]))
      // the queue is in order of priority afterwards exactly if it was and the node's priority fits
      ensures Descending(View().queue) <==>
        Descending(old(View()).queue)
        && (old(View()).queue == [] || old(nodes)[node].prio >= old(View()).queue[0].prio)
    {
      UrgentOrder(View().queue, MessageOf(nodes[node]));
      FlyingCounted(layout, node);
      FirstJoins(View(), MessageOf(nodes[node]));
      hide Fine, InShape, View, JoinsFirst, Descending;
      Counted();
      JoinsFirstFine(View(), |nodes|, byPrio, flag, prio, MessageOf(nodes[node]));
      JoinFirst(node);
    }

    /** The node goes to the front and a receiver is woken. */
    method JoinFirst(node: nat)
      requires InShape() && node in layout.flying && node < |nodes|
      modifies this
      ensures InShape() && |nodes| == |old(nodes)| && layout.flying == old(layout).flying - {node}
      ensures old(View()).flying > 0 && View() == JoinsFirst(old(View()), MessageOf(old(nodes)[node]))
    {
      hide Shape, Messages, ReceiverWoken, MessageOf;
      ghost var m := MessageOf(nodes[node]);
      EnterFirst(node);
      accepted := accepted + [m];
      urgent := true;
      WakeReceiver();
    }

    /** `_rt_mq_recv` up to the message it takes, by a thread that comes or was woken to receive. */
    method RecvBegin(t: nat, wait: bool) returns (r: Outcome, node: nat)
      requires Valid() && (Free(View().crowd, prio, t) || t in View().crowd.wokenReceivers)
      modifies `head, `tail, `entry, `layout, `delivered, `receivers, `wokenReceivers, `wokenSenders, `since, `clock
      ensures Valid() && t < |prio| && Orderly(old(View()).crowd, flag, prio)
      ensures (View(), r) == RecvBegun(old(View()), flag, prio, t, wait)
      ensures r == if old(View()).queue != [] then Done else if wait then Suspended else Timeout
      ensures r == Suspended && flag == Fifo ==> receivers == old(receivers) + [t]
      ensures r != Suspended ==> receivers == old(receivers)
      ensures layout.flying == old(layout).flying + if r == Done then {node} else {}
      ensures r == Done ==> old(View()).queue != [] && node in layout.flying && node < |nodes|
                            && MessageOf(nodes[node]) == old(View()).queue[0]
    {
      hide Fine, View, InShape, Known, Free, Orderly, Leaves, RunsOn, ReceiverSleeps, MessageOf;
      Counted();
      RecvBegunFine(View(), |nodes|, byPrio, flag, prio, t, wait);
      node := 0;
      Arrive(t);
      Counted();
      if entry == 0 {
        if !wait {
          r := Timeout;
          return;
        }
        SleepAsReceiver(t);
        r := Suspended;
        return;
      }
      node := UnlinkAndLog();
      r := Done;
    }

    /** The first message leaves the queue. */
    method UnlinkAndLog() returns (node: nat)
      requires InShape() && head != -1
      modifies `head, `tail, `entry, `layout, `delivered
      ensures InShape() && node in layout.flying && layout.flying == old(layout).flying + {node} && node < |nodes|
      ensures old(View()).queue != [] && View() == Leaves(old(View()))
      ensures MessageOf(nodes[node]) == old(View()).queue[0]
    {
      hide Shape, Messages;
      ghost var before := View();
      node := Unlink();
      delivered := delivered + [before.queue[0]];
    }

    /** The rest of `_rt_mq_recv`: as many bytes as fit are handed over and the node is free again. */
    method RecvEnd(node: nat, size: nat) returns (bytes: seq<Byte>, priority: int)
      requires Valid() && node in layout.flying && node < |nodes|
      modifies this
      ensures Valid() && |nodes| == |old(nodes)| && layout.flying == old(layout).flying - {node}
      ensures old(View()).flying > 0 && View() == Freed(old(View()))
      ensures priority == old(nodes)[node].prio
      ensures bytes == old(nodes)[node].body[..if size < |old(nodes)[node].body| then size else |old(nodes)[node].body|]
      ensures free == node && nodes == old(nodes)[node := old(nodes)[node].(next := old(free))]
    {
      hide Fine, InShape, View, Freed;
      FlyingCounted(layout, node);
      Counted();
      FreedFine(View(), |nodes|, byPrio, flag, prio);
      var len := |nodes[node].body|;
      if len > size {
        len := size;
      }
      bytes, priority := nodes[node].body[..len], nodes[node].prio;
      ReleaseAndWake(node);
    }

    /** The node is free again and a sender is woken. */
    method ReleaseAndWake(node: nat)
      requires InShape() && node in layout.flying && node < |nodes|
      modifies `nodes, `free, `layout, `senders, `wokenSenders
      ensures InShape() && |nodes| == |old(nodes)| && layout.flying == old(layout).flying - {node}
      ensures old(View()).flying > 0 && View() == Freed(old(View()))
      ensures free == node && nodes == old(nodes)[node := old(nodes)[node].(next := old(free))]
    {
      hide Shape, Messages, SenderWoken;
      Release(node);
      WakeSender();
    }

    /** The timer of a sleeping thread takes it out of its list (`_thread_timeout`). */
    method Expire(t: nat)
      requires Valid()
      modifies `receivers, `senders
      ensures Valid()
      ensures receivers == Without(old(receivers), t) && senders == Without(old(senders), t)
    {
      ExpireOrderly(View().crowd, flag, prio, t);
      hide Orderly, Without, Messages, Shape, Logged;
      receivers := Without(receivers, t);
      senders := Without(senders, t);
    }
  }

  lemma FineOrderly(s: State, max: nat, byPrio: bool, flag: Flag, prio: seq<nat>, t: nat)
    requires Fine(s, max, byPrio, flag, prio) && Free(s.crowd, prio, t)
    ensures Orderly(s.crowd, flag, prio) && t < |prio|
  {
  }

  lemma FlyingCounted(l: Layout, node: nat)
    requires node in l.flying
    ensures |l.flying| > 0
  {
  }

  lemma ClaimedFine(s: State, max: nat, byPrio: bool, flag: Flag, prio: seq<nat>)
    requires Fine(s, max, byPrio, flag, prio) && s.free > 0
    ensures Fine(Claimed(s), max, byPrio, flag, prio)
  {
    OneLessFree(s.crowd, |s.queue|, |s.queue| + s.free);
  }

  /** A node has come back to the free list. */
  lemma ReleaseShape(nodes: seq<Node>, head: int, tail: int, free: int, entry: nat, l: Layout, x: nat)
    requires Shape(nodes, head, tail, free, entry, l) && x in l.flying
    ensures x < |nodes|
    ensures var after := nodes[x := nodes[x].(next := free)];
            && Shape(after, head, tail, x, entry, l.(freed := [x] + l.freed, flying := l.flying - {x}))
            && Messages(after, l.queued) == Messages(nodes, l.queued)
  {
    FlyingElsewhere(nodes, l, x, nodes[x].(next := free));
    FreeTidy(l, |nodes|, x);
    TailNode(nodes, l, x);
    assert forall i :: 0 <= i < |l.freed| ==> l.freed[i] in l.freed;
    var after, ids := nodes[x := nodes[x].(next := free)], [x] + l.freed;
    hide Tidy, InPool;
    forall i | 0 <= i < |ids| ensures ChainedAt(after, ids, i) {
      if i > 0 { assert ChainedAt(after, l.freed, i - 1); }
    }
    assert InPool(after, ids) by { PoolWith(after, x, l.freed); }
  }

  lemma PoolWith(nodes: seq<Node>, x: nat, ids: seq<nat>)
    requires InPool(nodes, ids) && x < |nodes|
    ensures InPool(nodes, [x] + ids)
  {
  }

  lemma PositionIs(queue: seq<Message>, prio: int, p: nat)
    requires p <= |queue| && (forall i :: 0 <= i < p ==> queue[i].prio >= prio)
    requires p < |queue| ==> queue[p].prio < prio
    ensures Position(queue, prio) == p
  {
  }

  function MessageOf(node: Node): Message {
    Message(node.body, node.prio)
  }

  /** A thread's node has joined the queue at place `p`. */
  ghost predicate LinkedView(before: State, after: State, p: nat, m: Message) {
    && p <= |before.queue| && before.flying > 0
    && after == before.(queue := before.queue[..p] + [m] + before.queue[p..], flying := before.flying - 1)
  }

  /** A node that a thread holds is in neither list. */
  lemma FlyingElsewhere(nodes: seq<Node>, l: Layout, node: nat, cell: Node)
    requires Tidy(l, |nodes|) && Chained(nodes, l.queued) && Chained(nodes, l.freed) && node in l.flying
    ensures node < |nodes|
    ensures Chained(nodes[node := cell], l.queued) && Chained(nodes[node := cell], l.freed)
    ensures Messages(nodes[node := cell], l.queued) == Messages(nodes, l.queued)
  {
    assert forall i :: 0 <= i < |l.queued| ==> l.queued[i] in l.queued;
    assert forall i :: 0 <= i < |l.freed| ==> l.freed[i] in l.freed;
    ChainedElsewhere(nodes, l.queued, nodes[node := cell]);
    ChainedElsewhere(nodes, l.freed, nodes[node := cell]);
  }

  /** The link of a new node and of the one in front of it are set, nothing else. */
  ghost predicate OnlyLinks(before: seq<Node>, ids: seq<nat>, p: nat, x: nat, after: seq<Node>) {
    && |after| == |before| && x < |before| && p <= |ids| && InPool(before, ids)
    && after[x] == before[x].(next := if p < |ids| then ids[p] else -1)
    && (p > 0 ==> after[ids[p - 1]] == before[ids[p - 1]].(next := x))
    && (forall y :: 0 <= y < |before| && y != x && (p > 0 ==> y != ids[p - 1]) ==> after[y] == before[y])
  }

  lemma LinkNodes(before: seq<Node>, l: Layout, p: nat, x: nat, after: seq<Node>)
    requires Tidy(l, |before|) && Chained(before, l.queued) && Chained(before, l.freed) && x in l.flying
    requires OnlyLinks(before, l.queued, p, x, after)
    ensures Chained(after, LinkedIds(l.queued, p, x)) && Chained(after, l.freed)
  {
    var ids := l.queued;
    assert forall i :: 0 <= i < |ids| ==> ids[i] in ids;
    assert forall i :: 0 <= i < |l.freed| ==> l.freed[i] in l.freed;
    hide Chained;
    ChainedElsewhere(before, l.freed, after);
    LinkChained(before, ids, p, x, after);
  }

  /** The last node of the queue is not the one a thread holds. */
  lemma TailNode(nodes: seq<Node>, l: Layout, node: nat)
    requires Tidy(l, |nodes|) && node in l.flying
    ensures node < |nodes| && InPool(nodes, l.queued) && InPool(nodes, l.freed)
    ensures node !in l.queued
  {
    forall i | 0 <= i < |l.queued| ensures l.queued[i] < |nodes| && l.queued[i] != node {
      assert l.queued[i] in l.queued;
    }
    forall i | 0 <= i < |l.freed| ensures l.freed[i] < |nodes| {
      assert l.freed[i] in l.freed;
    }
  }

  lemma LinkEnds(ids: seq<nat>, p: nat, x: nat)
    requires p <= |ids|
    ensures First(LinkedIds(ids, p, x)) == if p == 0 then x else First(ids)
    ensures Last(LinkedIds(ids, p, x)) == if p == |ids| then x else Last(ids)
    ensures |LinkedIds(ids, p, x)| == |ids| + 1
  {
  }

  /** The shape after the first free node is claimed. */
  lemma ClaimShape(nodes: seq<Node>, head: int, tail: int, free: int, entry: nat, l: Layout)
    requires Shape(nodes, head, tail, free, entry, l) && free != -1
    ensures l.freed != [] && free == l.freed[0] < |nodes| && l.freed[0] !in l.flying
    ensures InPool(nodes, l.queued)
    ensures Shape(nodes, head, tail, nodes[free].next, entry,
                  l.(freed := l.freed[1..], flying := l.flying + {l.freed[0]}))
  {
    ClaimTidy(l, |nodes|);
    hide Tidy;
    TailChained(nodes, l.freed);
    assert InPool(nodes, l.queued);
    hide Chained;
  }

  /** The first node has left the queue. */
  lemma UnlinkShape(nodes: seq<Node>, head: int, tail: int, free: int, entry: nat, l: Layout)
    requires Shape(nodes, head, tail, free, entry, l) && head != -1
    ensures 0 <= head < |nodes| && entry > 0 && l.queued != [] && head == l.queued[0] && head !in l.flying
    ensures Shape(nodes, nodes[head].next, if tail == head then -1 else tail, free, entry - 1,
                  l.(queued := l.queued[1..], flying := l.flying + {l.queued[0]}))
    ensures InPool(nodes, l.queued) && InPool(nodes, l.queued[1..])
    ensures Messages(nodes, l.queued[1..]) == Messages(nodes, l.queued)[1..]
    ensures Messages(nodes, l.queued)[0] == MessageOf(nodes[head])
  {
    LeaveTidy(l, |nodes|);
    TailChained(nodes, l.queued);
    OnlyOne(l.queued);
    hide Tidy, Chained, Distinct;
  }

  /** Links, ends and count together: the node has joined the queue. */
  lemma LinkShape(before: seq<Node>, head: int, tail: int, free: int, entry: nat, l: Layout, p: nat, x: nat,
                  after: seq<Node>)
    requires Shape(before, head, tail, free, entry, l) && x in l.flying && OnlyLinks(before, l.queued, p, x, after)
    ensures var ids := LinkedIds(l.queued, p, x);
            |after| == |before|
            && Shape(after, if p == 0 then x else head, if p == |l.queued| then x else tail, free, entry + 1,
                     l.(queued := ids, flying := l.flying - {x}))
            && Messages(after, ids)
               == Messages(before, l.queued)[..p] + [MessageOf(before[x])] + Messages(before, l.queued)[p..]
  {
    LinkTidy(l, |before|, p, x);
    LinkNodes(before, l, p, x, after);
    LinkEnds(l.queued, p, x);
    hide Tidy, LinkedIds, ChainedAt;
    LinkMessages(before, l.queued, p, x, after);
  }

  lemma LinkMessages(before: seq<Node>, ids: seq<nat>, p: nat, x: nat, after: seq<Node>)
    requires OnlyLinks(before, ids, p, x, after) && InPool(after, LinkedIds(ids, p, x))
    ensures Messages(after, LinkedIds(ids, p, x))
         == Messages(before, ids)[..p] + [MessageOf(before[x])] + Messages(before, ids)[p..]
  {
    var ms := Messages(before, ids);
    SplicedMessages(before, ids, p, x, after, LinkedIds(ids, p, x), ms[..p] + [MessageOf(before[x])] + ms[p..]);
  }

  lemma SplicedMessages(before: seq<Node>, ids: seq<nat>, p: nat, x: nat, after: seq<Node>, r: seq<nat>,
                        ms: seq<Message>)
    requires OnlyLinks(before, ids, p, x, after) && InPool(after, r) && |r| == |ids| + 1 == |ms|
    requires r[p] == x && ms[p] == MessageOf(before[x])
    requires forall i :: 0 <= i < p ==> r[i] == ids[i] && ms[i] == Messages(before, ids)[i]
    requires forall i :: p < i < |r| ==> r[i] == ids[i - 1] && ms[i] == Messages(before, ids)[i - 1]
    ensures Messages(after, r) == ms
  {
    var a := Messages(after, r);
    forall i | 0 <= i < |r| ensures a[i] == ms[i] {
      assert a[i] == MessageOf(after[r[i]]) == MessageOf(before[r[i]]);
      if i < p {
        assert ms[i] == MessageOf(before[ids[i]]);
      } else if i > p {
        assert ms[i] == MessageOf(before[ids[i - 1]]);
      }
    }
  }

  /** The first node is the last only if it is the only one. */
  lemma OnlyOne(ids: seq<nat>)
    requires Distinct(ids) && ids != []
    ensures Last(ids) == ids[0] <==> |ids| == 1
  {
  }

  lemma FreshLayout(nodes: seq<Node>, l: Layout, n: nat)
    requires |nodes| == n > 0 && forall i :: 0 <= i < n ==> nodes[i].next == i - 1
    requires l.queued == [] && l.flying == {} && |l.freed| == n && forall i :: 0 <= i < n ==> l.freed[i] == n - 1 - i
    ensures Tidy(l, n) && Chained(nodes, l.freed) && Chained(nodes, [])
  {
    forall i | 0 <= i < n ensures ChainedAt(nodes, l.freed, i) {
    }
  }

  // ------------------------------------------------------------------ a run out of order

  ghost predicate Alone(s: State) {
    && s.crowd.receivers == [] && s.crowd.senders == [] && s.crowd.wokenReceivers == {} && s.crowd.wokenSenders == {}
    && s.flying == 0
  }

  lemma AloneSends(s: State, m: Message, byPrio: bool)
    requires Alone(s) && s.free > 0
    ensures var r := Joins(Claimed(s.(crowd := RunsOn(s.crowd, 0))), m, byPrio);
            Alone(r) && r.free == s.free - 1 && r.queue == Linked(s.queue, m, byPrio)
  {
  }

  lemma AloneReceives(s: State)
    requires Alone(s) && s.queue != []
    ensures var r := Freed(Leaves(s.(crowd := RunsOn(s.crowd, 0))));
            Alone(r) && r.free == s.free + 1 && r.queue == s.queue[1..]
  {
  }

  /** The only thread sends a message of one byte. */
  method SendOne(q: Queue, priority: int) returns (node: nat)
    requires q.Valid() && Alone(q.View()) && q.View().free > 0 && q.prio == [0] && q.msgSize == 1
    modifies q
    ensures q.Valid() && Alone(q.View()) && |q.nodes| == |old(q.nodes)| && node == old(q.free) && node < |q.nodes|
    ensures q.View().free == old(q.View()).free - 1
    ensures q.View().queue == Linked(old(q.View()).queue, Message([0], priority), q.byPrio)
    ensures q.free == old(q.nodes)[node].next && Prios(q.nodes) == Prios(old(q.nodes))[node := priority]
  {
    hide Fine, Queue.InShape, Queue.View, Joins, Claimed, Linked, Prios;
    AloneSends(q.View(), Message([0], priority), q.byPrio);
    var r;
    r, node := q.SendBegin(0, 1, false);
    PrioSet(q.nodes, node, Node(-1, [0], q.nodes[node].prio));
    PrioAt(q.nodes, node);
    q.Fill(node, [0], true);
    q.SendEnd(node, priority);
  }

  lemma PrioAt(nodes: seq<Node>, x: nat)
    requires x < |nodes|
    ensures Prios(nodes)[x := nodes[x].prio] == Prios(nodes)
  {
  }

  /** It receives a message, whose node is then the first free one. */
  method RecvOne(q: Queue) returns (node: nat)
    requires q.Valid() && Alone(q.View()) && q.View().queue != [] && q.prio == [0]
    modifies q
    ensures q.Valid() && Alone(q.View()) && |q.nodes| == |old(q.nodes)| && node < |q.nodes| && node != old(q.free)
    ensures q.View().free == old(q.View()).free + 1 && q.View().queue == old(q.View()).queue[1..]
    ensures q.free == node && q.nodes == old(q.nodes)[node := old(q.nodes)[node].(next := old(q.free))]
    ensures q.nodes[node].prio == old(q.View()).queue[0].prio
  {
    hide Fine, Queue.InShape, Queue.View, Leaves, Freed;
    AloneReceives(q.View());
    var r, bytes, priority;
    r, node := q.RecvBegin(0, false);
    q.FlyingNotFree(node);
    bytes, priority := q.RecvEnd(node, 1);
  }

  /**
   A queue by priority left out of order: two messages of priority 0 were sent and received, one of priority 5 is
   sent, and an urgent one gets a node that was last sent with priority 0.
   */
  method OutOfOrder() returns (q: Queue)
    ensures fresh(q) && q.Valid() && q.byPrio
    ensures q.View().queue == [Message([0], 0), Message([0], 5)] && !Descending(q.View().queue)
  {
    hide Fine, Queue.InShape, Queue.View, Linked, JoinsFirst, Claimed, Prios, Descending;
    q := new Queue(2, 1, Fifo, true, [0]);
    LinkedFirst(Message([0], 0));
    LinkedEqual(Message([0], 0));
    LinkedFirst(Message([0], 5));
    var x := SendOne(q, 0);
    var y := SendOne(q, 0);
    var a := RecvOne(q);
    var b := RecvOne(q);
    var c := SendOne(q, 5);
    UrgentAfter(q, a);
  }

  /** With a message of priority 5 queued, an urgent one gets a node last sent with priority 0. */
  method UrgentAfter(q: Queue, a: nat)
    requires q.Valid() && q.byPrio && q.msgSize == 1 && a == q.free && a < |q.nodes| && q.nodes[a].prio == 0
    requires q.View().free > 0 && q.View().queue == [Message([0], 5)]
    modifies q
    ensures q.Valid() && q.View().queue == [Message([0], 0), Message([0], 5)] && !Descending(q.View().queue)
  {
    hide Fine, Queue.InShape, Queue.View, Descending;
    var r, e := q.UrgentBegin(1);
    q.Fill(e, [0], false);
    assert MessageOf(q.nodes[e]) == Message([0], 0);
    q.UrgentEnd(e);
  }

  lemma LinkedFirst(m: Message)
    ensures Linked([], m, true) == [m]
  {
  }

  lemma LinkedEqual(m: Message)
    ensures Linked([m], m, true) == [m, m]
  {
  }
}
