/** Reachable states at which recovery is not what one might expect, one for each hypothesis that the
    theorems about recovery have. */
module Counterexamples {
  import opened Events
  import opened MessageQueues
  import opened KernelRun
  import opened Survival
  import opened Places
  import opened Recovery
  import opened Rotation

  // ---- replaying short logs ----

  lemma Replayed1(e: Event, a: string, cap: nat)
    requires cap >= 1
    ensures Replayed([e], a, cap) == Applied([], e, a, cap)
    ensures Front([e]) == [] && Last([e]) == e
  {
  }

  lemma Replayed2(x: Event, y: Event, a: string, cap: nat)
    requires cap >= 1
    ensures Replayed([x, y], a, cap) == Applied(Applied([], x, a, cap), y, a, cap)
    ensures Front([x, y]) == [x] && Last([x, y]) == y
  {
    assert Front([x, y]) == [x];
    Replayed1(x, a, cap);
  }

  lemma Replayed3(x: Event, y: Event, z: Event, a: string, cap: nat)
    requires cap >= 1
    ensures Replayed([x, y, z], a, cap) == Applied(Applied(Applied([], x, a, cap), y, a, cap), z, a, cap)
    ensures Front([x, y, z]) == [x, y] && Last([x, y, z]) == z
  {
    assert Front([x, y, z]) == [x, y];
    Replayed2(x, y, a, cap);
  }

  function Sent(n: int, m: Message): Event {
    Event(n, n, m.from, MessageSent(m.id, m.from, m.to, m.content, |m.content|))
  }

  function Delivered(n: int, m: Message): Event {
    Event(n, n, m.to, MessageDelivered(m.id, m.to, "pull"))
  }

  /** The message as a replay brings it back. */
  function Back(n: int, m: Message): Message {
    m.(timestamp := n)
  }

  // ---- states reached by a few steps ----

  /** One message sent. */
  function SentOne(m: Message): Kernel {
    Kernel([Sent(1, m)], 0, [m], [], map[], [], [])
  }

  /** One message sent and queued. */
  function QueuedOne(m: Message): Kernel {
    Kernel([Sent(1, m)], 0, [], [], map[m.to := [m]], [], [])
  }

  lemma ReachSentOne(m: Message, cap: nat)
    requires cap >= 1 && m.to != ""
    ensures Reachable(SentOne(m), cap)
  {
    StartIsReachable(cap);
    ReachesNext(INIT, LogSend(m, 1), cap);
    assert Apply(INIT, LogSend(m, 1), cap) == SentOne(m);
  }

  lemma ReachQueuedOne(m: Message, cap: nat)
    requires cap >= 1 && m.to != ""
    ensures Reachable(QueuedOne(m), cap)
  {
    ReachSentOne(m, cap);
    ReachesNext(SentOne(m), TriggerQueue(0), cap);
    assert Without([m], 0) == [] && Enqueued([], m, cap) == [m];
    assert Apply(SentOne(m), TriggerQueue(0), cap) == QueuedOne(m);
  }

  // ---- a rotated log read out of order ----

  /** Send x, rotate, send y. */
  function RotatedBetween(x: Message, y: Message): Kernel {
    Kernel([Sent(1, x), Sent(2, y)], 1, [x, y], [], map[], [], [])
  }

  lemma ReachRotatedBetween(x: Message, y: Message, cap: nat)
    requires cap >= 1 && x.to == y.to != "" && x.id != y.id
    ensures Reachable(RotatedBetween(x, y), cap)
  {
    var k0 := SentOne(x);
    ReachSentOne(x, cap);
    ReachesNext(k0, Rotate, cap);
    ReachesNext(k0.(cut := 1), LogSend(y, 2), cap);
    assert Apply(k0.(cut := 1), LogSend(y, 2), cap) == RotatedBetween(x, y);
  }

  /** A rotation between two sends: no replay meets a full queue, yet a restart gives the two messages in
      the wrong order. */
  lemma RotatedOrderDiffers(x: Message, y: Message, cap: nat)
    requires cap >= 2 && x.to == y.to != "" && x.id != y.id
    ensures var k := RotatedBetween(x, y);
            && Reachable(k, cap) && k.cut <= |k.log|
            && NeverFull(ReplayOrder(k), x.to, cap) && NeverFull(k.log, x.to, cap)
            && Recovered(k, x.to, cap) == [Back(2, y), Back(1, x)] && Replayed(k.log, x.to, cap) == [Back(1, x), Back(2, y)]
            && !ReadsInOrder(k, x.to, cap)
  {
    var k := RotatedBetween(x, y);
    ReachRotatedBetween(x, y, cap);
    assert ReplayOrder(k) == [Sent(2, y), Sent(1, x)];
    Replayed2(Sent(2, y), Sent(1, x), x.to, cap);
    Replayed2(Sent(1, x), Sent(2, y), x.to, cap);
    Replayed1(Sent(2, y), x.to, cap);
    Replayed1(Sent(1, x), x.to, cap);
    assert Recovered(k, x.to, cap)[0].id != Replayed(k.log, x.to, cap)[0].id;
  }

  /** Send and queue x, rotate, receive it. */
  function RotatedBeforeDelivery(x: Message): Kernel {
    Kernel([Sent(1, x), Delivered(2, x)], 1, [], [], map[], [], [])
  }

  lemma ReachRotatedBeforeDelivery(x: Message, cap: nat)
    requires cap >= 1 && x.to != ""
    ensures Reachable(RotatedBeforeDelivery(x), cap)
  {
    var k0, k := QueuedOne(x).(cut := 1), RotatedBeforeDelivery(x);
    var k1 := k0.(queues := map[], handed := [x]);
    ReachQueuedOne(x, cap);
    ReachesNext(QueuedOne(x), Rotate, cap);
    ReachesNext(k0, Take(x.to, 1), cap);
    assert [] + [x][..1] == [x];
    assert Apply(k0, Take(x.to, 1), cap) == k1;
    ReachesNext(k1, LogDelivery(0, "pull", 2), cap);
    assert Without([x], 0) == [];
    assert Apply(k1, LogDelivery(0, "pull", 2), cap) == k;
  }

  /** A rotation between a message and its delivery: nothing is in flight and the live queue is empty, yet a
      restart brings the delivered message back. */
  lemma DeliveredComesBack(x: Message, cap: nat)
    requires cap >= 1 && x.to != ""
    ensures var k := RotatedBeforeDelivery(x);
            && Reachable(k, cap) && k.cut <= |k.log| && NeverFull(ReplayOrder(k), x.to, cap)
            && Deliveries(k.log, x.to, x.id) == 1 && Recovered(k, x.to, cap) == [Back(1, x)]
            && !NoneReturns(k, x.to, cap) && !Balanced(LedgerOf(Restarted(k, cap), x.to, x.id))
  {
    var k := RotatedBeforeDelivery(x);
    ReachRotatedBeforeDelivery(x, cap);
    assert ReplayOrder(k) == [Delivered(2, x), Sent(1, x)];
    Replayed2(Delivered(2, x), Sent(1, x), x.to, cap);
    Replayed1(Delivered(2, x), x.to, cap);
    Deliveries2(Sent(1, x), Delivered(2, x), x.to, x.id);
    ReachedIsCausal(k, cap);
    BackUnbalances(k, x, cap);
  }

  /** A delivered message that a restart queues again is in two places. */
  lemma BackUnbalances(k: Kernel, x: Message, cap: nat)
    requires cap >= 1 && k.cut <= |k.log| && Inv(k, cap)
    requires Deliveries(k.log, x.to, x.id) == 1 && Recovered(k, x.to, cap) == [Back(1, x)]
    ensures !NoneReturns(k, x.to, cap) && !Balanced(LedgerOf(Restarted(k, cap), x.to, x.id))
  {
    assert Count([Back(1, x)], x.to, x.id) == Entry(Back(1, x), x.to, x.id) + Count([], x.to, x.id) == 1;
    NoneReturnsIff(k, x.to, cap);
    RestartLedger(k, cap, x.to, x.id);
    SentOnce(k.log, x.to, x.id);
  }

  lemma ReachedIsCausal(k: Kernel, cap: nat)
    requires Reachable(k, cap)
    ensures Inv(k, cap)
  {
    ReachableIff(k, cap);
    var ks, acts :| Run(ks, acts, cap) && ks[|acts|] == k;
    RunKeeps(ks, acts, cap, |acts|);
  }

  lemma Deliveries1(x: Event, a: string, id: string)
    ensures Deliveries([x], a, id) == DeliveryEntry(x, a, id) && Sents([x], a) == SentBy(x, a)
  {
    assert Front([x]) == [] && Last([x]) == x;
  }

  lemma Deliveries2(x: Event, y: Event, a: string, id: string)
    ensures Deliveries([x, y], a, id) == DeliveryEntry(x, a, id) + DeliveryEntry(y, a, id)
    ensures Sents([x, y], a) == SentBy(x, a) + SentBy(y, a)
  {
    assert [x, y] == [x] + [y];
    LogConcat([x], [y], a, id);
    Deliveries1(x, a, id);
    Deliveries1(y, a, id);
  }

  lemma Deliveries3(x: Event, y: Event, z: Event, a: string, id: string)
    ensures Deliveries([x, y, z], a, id) == DeliveryEntry(x, a, id) + DeliveryEntry(y, a, id) + DeliveryEntry(z, a, id)
    ensures Sents([x, y, z], a) == SentBy(x, a) + SentBy(y, a) + SentBy(z, a)
  {
    assert [x, y, z] == [x, y] + [z];
    LogConcat([x, y], [z], a, id);
    Deliveries2(x, y, a, id);
    Deliveries1(z, a, id);
  }

  lemma Undelivered1(m: Message, log: seq<Event>, a: string)
    ensures Undelivered([m], log, a) == if Deliveries(log, a, m.id) == 0 then [m] else []
  {
    assert [m][1..] == [];
  }

  lemma Unlogged1(m: Message, log: seq<Event>)
    ensures Unlogged([m], log) == if Deliveries(log, m.to, m.id) == 0 then [m] else []
  {
    assert [m][1..] == [];
  }

  lemma Undelivered2(m: Message, n: Message, log: seq<Event>, a: string)
    ensures Undelivered([m, n], log, a) == Undelivered([m], log, a) + Undelivered([n], log, a)
  {
    assert [m, n] == [m] + [n];
    UndeliveredConcat([m], [n], log, a);
  }

  lemma NeverFull3(x: Event, y: Event, z: Event, a: string, cap: nat)
    requires cap >= 1 && y.data.MessageDelivered? && z.data.MessageSent?
    ensures NeverFull([x, y, z], a, cap) <==> (z.data.to == a ==> |Replayed([x, y], a, cap)| < cap)
  {
    Replayed3(x, y, z, a, cap);
    Replayed2(x, y, a, cap);
    Replayed1(x, a, cap);
    assert NeverFull([x], a, cap) && NeverFull([x, y], a, cap);
  }

  lemma FullAtSecond(x: Event, y: Event, z: Event, a: string, cap: nat)
    requires cap >= 1 && y.data.MessageSent? && y.data.to == a && |Replayed([x], a, cap)| >= cap
    ensures !NeverFull([x, y, z], a, cap)
  {
    assert Front([x, y, z]) == [x, y] && Front([x, y]) == [x];
  }

  lemma Discarded3(x: Event, y: Event, z: Event, cap: nat)
    requires cap >= 1
    ensures Discarded([x, y, z], cap) == DiscardedBy([], x, cap) + DiscardedBy([x], y, cap) + DiscardedBy([x, y], z, cap)
  {
    assert Front([x]) == [] && Front([x, y]) == [x] && Front([x, y, z]) == [x, y];
    assert Discarded([x], cap) == [] + DiscardedBy([], x, cap) == DiscardedBy([], x, cap);
    assert Discarded([x, y], cap) == Discarded([x], cap) + DiscardedBy([x], y, cap);
  }

  // ---- the two hypotheses of RotationTidyIff ----

  /** Send and queue x, rotate, send y, queue it in place of x, receive it. */
  function RotatedAndDropped(x: Message, y: Message): Kernel {
    Kernel([Sent(1, x), Sent(2, y), Delivered(3, y)], 1, [], [], map[], [], [x])
  }

  /** Before y is received. */
  function RotatedAndQueued(x: Message, y: Message): Kernel {
    Kernel([Sent(1, x), Sent(2, y)], 1, [], [], map[x.to := [y]], [], [x])
  }

  lemma ReachRotatedAndQueued(x: Message, y: Message)
    requires x.to == y.to != "" && x.id != y.id
    ensures Reachable(RotatedAndQueued(x, y), 1)
  {
    var k0 := QueuedOne(x).(cut := 1);
    var k1 := k0.(log := [Sent(1, x), Sent(2, y)], awaiting := [y]);
    ReachQueuedOne(x, 1);
    ReachesNext(QueuedOne(x), Rotate, 1);
    ReachesNext(k0, LogSend(y, 2), 1);
    assert Apply(k0, LogSend(y, 2), 1) == k1;
    ReachesNext(k1, TriggerQueue(0), 1);
    assert Without([y], 0) == [] && Enqueued([x], y, 1) == [y];
    assert Apply(k1, TriggerQueue(0), 1) == RotatedAndQueued(x, y);
  }

  lemma ReachRotatedAndDropped(x: Message, y: Message)
    requires x.to == y.to != "" && x.id != y.id
    ensures Reachable(RotatedAndDropped(x, y), 1)
  {
    var k2 := RotatedAndQueued(x, y);
    var k3 := k2.(queues := map[], handed := [y]);
    ReachRotatedAndQueued(x, y);
    ReachesNext(k2, Take(x.to, 1), 1);
    assert [] + [y][..1] == [y];
    assert Apply(k2, Take(x.to, 1), 1) == k3;
    ReachesNext(k3, LogDelivery(0, "pull", 3), 1);
    assert Without([y], 0) == [];
    assert Apply(k3, LogDelivery(0, "pull", 3), 1) == RotatedAndDropped(x, y);
  }

  /** That the replay of a tidy rotation meets no full queue is not enough: a replay in append order may
      drop a message that the restart brings back. */
  lemma InOrderReplayMayDrop(x: Message, y: Message)
    requires x.to == y.to != "" && x.id != y.id
    ensures var k := RotatedAndDropped(x, y);
            && Reachable(k, 1) && k.cut <= |k.log| && NeverFull(ReplayOrder(k), x.to, 1) && Tidy(k, x.to)
            && Recovered(k, x.to, 1) == [Back(1, x)] && Replayed(k.log, x.to, 1) == [] && !NeverFull(k.log, x.to, 1)
  {
    var k, a := RotatedAndDropped(x, y), x.to;
    var s1, s2, d := Sent(1, x), Sent(2, y), Delivered(3, y);
    ReachRotatedAndDropped(x, y);
    assert ReplayOrder(k) == [s2, d, s1];
    Replayed3(s2, d, s1, a, 1);
    Replayed2(s2, d, a, 1);
    Replayed1(s2, a, 1);
    Replayed3(s1, s2, d, a, 1);
    Replayed2(s1, s2, a, 1);
    Replayed1(s1, a, 1);
    NeverFull3(s2, d, s1, a, 1);
    FullAtSecond(s1, s2, d, a, 1);
    DroppedIsTidy(x, y);
  }

  lemma DroppedIsTidy(x: Message, y: Message)
    requires x.to == y.to && x.id != y.id
    ensures Tidy(RotatedAndDropped(x, y), x.to)
  {
    var k, a := RotatedAndDropped(x, y), x.to;
    var s1, s2, d := Sent(1, x), Sent(2, y), Delivered(3, y);
    assert OlderPart(k) == [s1] && NewerPart(k) == [s2, d];
    forall id ensures !Crosses([s1], [s2, d], a, id) {
      Deliveries2(s2, d, a, id);
      Deliveries1(s1, a, id);
      assert SentCount([s1], a, id) == Count([Back(1, x)], a, id) == Entry(Back(1, x), a, id) + Count([], a, id);
    }
    Deliveries2(s2, d, a, y.id);
    assert Sents([s2, d], a) == [Back(2, y)];
    Undelivered1(Back(2, y), [s2, d], a);
  }

  // ---- the condition on restarts of Capacity ----

  /** Send, queue and receive x, rotate, send y. */
  function RotatedAfterDelivery(x: Message, y: Message): Kernel {
    Kernel([Sent(1, x), Delivered(2, x), Sent(3, y)], 2, [y], [], map[], [], [])
  }

  function ReceivedOne(x: Message): Kernel {
    Kernel([Sent(1, x), Delivered(2, x)], 0, [], [], map[], [], [])
  }

  lemma ReachReceivedOne(x: Message)
    requires x.to != ""
    ensures Reachable(ReceivedOne(x), 1)
  {
    var k0 := QueuedOne(x).(queues := map[], handed := [x]);
    ReachQueuedOne(x, 1);
    ReachesNext(QueuedOne(x), Take(x.to, 1), 1);
    assert [] + [x][..1] == [x];
    assert Apply(QueuedOne(x), Take(x.to, 1), 1) == k0;
    ReachesNext(k0, LogDelivery(0, "pull", 2), 1);
    assert Without([x], 0) == [];
    assert Apply(k0, LogDelivery(0, "pull", 2), 1) == ReceivedOne(x);
  }

  lemma ReachRotatedAfterDelivery(x: Message, y: Message)
    requires x.to == y.to != "" && x.id != y.id
    ensures Reachable(RotatedAfterDelivery(x, y), 1)
  {
    var k1 := ReceivedOne(x);
    ReachReceivedOne(x);
    ReachesNext(k1, Rotate, 1);
    ReachesNext(k1.(cut := 2), LogSend(y, 3), 1);
    assert Apply(k1.(cut := 2), LogSend(y, 3), 1) == RotatedAfterDelivery(x, y);
  }

  /** The log never shows more undelivered messages than the queue holds and the rotation is tidy, yet the
      replay of the rotated log meets a full queue: an undelivered message is dropped by the restart. */
  lemma RestartMayDrop(x: Message, y: Message)
    requires x.to == y.to != "" && x.id != y.id
    ensures var k := RotatedAfterDelivery(x, y);
            && Reachable(k, 1) && k.cut <= |k.log| && WithinCap(k.log, x.to, 1)
            && Deliveries(k.log, x.to, y.id) == 0 && Recovered(k, x.to, 1) == [] && Restarted(k, 1).dropped == [Back(3, y)]
            && NeverFull(k.log, x.to, 1) && Tidy(k, x.to) && !ReadsInOrder(k, x.to, 1)
  {
    var k, a := RotatedAfterDelivery(x, y), x.to;
    var s1, d, s3 := Sent(1, x), Delivered(2, x), Sent(3, y);
    ReachRotatedAfterDelivery(x, y);
    assert ReplayOrder(k) == [s3, s1, d];
    Replayed3(s3, s1, d, a, 1);
    Replayed2(s3, s1, a, 1);
    Replayed1(s3, a, 1);
    Discarded3(s3, s1, d, 1);
    Deliveries3(s1, d, s3, a, y.id);
    assert Discarded([s3, s1, d], 1) == [Back(3, y)];
    Unlogged1(Back(3, y), k.log);
    forall n | 0 <= n <= |k.log| ensures |Pending(k.log[..n], a)| <= 1 {
      PrefixPending(s1, d, s3, x, a, n);
    }
    Replayed3(s1, d, s3, a, 1);
    Replayed2(s1, d, a, 1);
    NeverFull3(s1, d, s3, a, 1);
    DeliveredIsTidy(x, y);
  }

  lemma DeliveredIsTidy(x: Message, y: Message)
    requires x.to == y.to && x.id != y.id
    ensures Tidy(RotatedAfterDelivery(x, y), x.to)
  {
    var k, a := RotatedAfterDelivery(x, y), x.to;
    var s1, d, s3 := Sent(1, x), Delivered(2, x), Sent(3, y);
    assert OlderPart(k) == [s1, d] && NewerPart(k) == [s3];
    forall id ensures !Crosses([s1, d], [s3], a, id) {
      Deliveries1(s3, a, id);
    }
    Deliveries2(s1, d, a, x.id);
    assert Sents([s1, d], a) == [Back(1, x)];
    Undelivered1(Back(1, x), [s1, d], a);
  }

  lemma PrefixPending(s1: Event, d: Event, s3: Event, x: Message, a: string, n: nat)
    requires s1.data.MessageSent? && s3.data.MessageSent? && d.data.MessageDelivered? && n <= 3
    requires s1.data.to == d.data.to == s3.data.to == a && s1.data.id == d.data.id == x.id
    ensures |Pending([s1, d, s3][..n], a)| <= 1
  {
    var log := [s1, d, s3];
    if n == 1 {
      assert log[..n] == [s1];
      Deliveries1(s1, a, x.id);
      Undelivered1(MessageOf(s1), [s1], a);
    } else if n == 2 {
      assert log[..n] == [s1, d];
      Deliveries2(s1, d, a, x.id);
      Undelivered1(MessageOf(s1), [s1, d], a);
    } else if n == 3 {
      assert log[..n] == log;
      Deliveries3(s1, d, s3, a, x.id);
      Undelivered2(MessageOf(s1), MessageOf(s3), log, a);
      Undelivered1(MessageOf(s1), log, a);
      Undelivered1(MessageOf(s3), log, a);
      assert Sents(log, a) == [MessageOf(s1), MessageOf(s3)];
    }
  }

  // ---- the order hypothesis of PullAgents ----

  /** Send x, send y, queue y, queue x. */
  function QueuedOutOfOrder(x: Message, y: Message): Kernel {
    Kernel([Sent(1, x), Sent(2, y)], 0, [], [], map[x.to := [y, x]], [], [])
  }

  function SentTwo(x: Message, y: Message): Kernel {
    Kernel([Sent(1, x), Sent(2, y)], 0, [x, y], [], map[], [], [])
  }

  lemma ReachSentTwo(x: Message, y: Message, cap: nat)
    requires cap >= 1 && x.to == y.to != "" && x.id != y.id
    ensures Reachable(SentTwo(x, y), cap)
  {
    ReachSentOne(x, cap);
    ReachesNext(SentOne(x), LogSend(y, 2), cap);
    assert Apply(SentOne(x), LogSend(y, 2), cap) == SentTwo(x, y);
  }

  function QueuedSecond(x: Message, y: Message): Kernel {
    Kernel([Sent(1, x), Sent(2, y)], 0, [x], [], map[x.to := [y]], [], [])
  }

  lemma ReachQueuedSecond(x: Message, y: Message, cap: nat)
    requires cap >= 1 && x.to == y.to != "" && x.id != y.id
    ensures Reachable(QueuedSecond(x, y), cap)
  {
    ReachSentTwo(x, y, cap);
    ReachesNext(SentTwo(x, y), TriggerQueue(1), cap);
    assert Without([x, y], 1) == [x] && Enqueued([], y, cap) == [y];
    assert Apply(SentTwo(x, y), TriggerQueue(1), cap) == QueuedSecond(x, y);
  }

  lemma ReachQueuedOutOfOrder(x: Message, y: Message, cap: nat)
    requires cap >= 2 && x.to == y.to != "" && x.id != y.id
    ensures Reachable(QueuedOutOfOrder(x, y), cap)
  {
    ReachQueuedSecond(x, y, cap);
    ReachesNext(QueuedSecond(x, y), TriggerQueue(0), cap);
    assert Without([x], 0) == [] && Enqueued([y], x, cap) == [y, x];
    assert Apply(QueuedSecond(x, y), TriggerQueue(0), cap) == QueuedOutOfOrder(x, y);
  }

  /** Two sends to one agent queued against log order: one log file, nothing in flight, and yet the live
      queue is not the one a restart builds. */
  lemma OutOfOrderQueuesDiffer(x: Message, y: Message, cap: nat)
    requires cap >= 2 && x.to == y.to != "" && x.id != y.id
    ensures var k := QueuedOutOfOrder(x, y);
            && Reachable(k, cap) && InOrder(k) && QueueOf(k.queues, x.to) == [y, x]
            && QueueOf(Restarted(k, cap).queues, x.to) == [Back(1, x), Back(2, y)]
  {
    var k := QueuedOutOfOrder(x, y);
    ReachQueuedOutOfOrder(x, y, cap);
    InOrderReads(k, x.to, cap);
    Replayed2(Sent(1, x), Sent(2, y), x.to, cap);
    RestartedQueues(k, x.to, cap);
  }
}
