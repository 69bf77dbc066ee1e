/** When no agent ever has more undelivered messages than its queue holds, nothing is lost:
    not live, not across restarts. */
module Capacity {
  import opened Events
  import opened MessageQueues
  import opened KernelRun
  import opened Places
  import opened Recovery
  import opened Rotation
  import opened Survival

  /** A list of one agent's messages is no longer than another one that has each id at least as often. */
  lemma {:induction false} CountLength(s: seq<Message>, t: seq<Message>, a: string)
    requires (forall m <- s :: m.to == a) && forall id :: Count(s, a, id) <= Count(t, a, id)
    ensures |s| <= |t|
  {
    if s != [] {
      var x := s[0].id;
      assert Count(s, a, x) > 0;
      CountMember(t, a, x);
      var j :| 0 <= j < |t| && t[j].to == a && t[j].id == x;
      forall id ensures Count(s[1..], a, id) <= Count(Without(t, j), a, id) {
        CountWithout(t, j, a, id);
        assert Count(s, a, id) <= Count(t, a, id);
      }
      CountLength(s[1..], Without(t, j), a);
    }
  }

  ghost predicate NoneDropped(k: Kernel, a: string) {
    forall id :: Count(k.dropped, a, id) == 0
  }

  /** A message on its way to the queue finds room there. */
  lemma RoomInQueue(k: Kernel, m: Message, cap: nat)
    requires Inv(k, cap) && AllBalanced(k, m.to) && |Pending(k.log, m.to)| <= cap
    requires Count(k.awaiting, m.to, m.id) + Count(k.delivering, m.to, m.id) > 0
    ensures |QueueOf(k.queues, m.to)| < cap
  {
    var a := m.to;
    var q := QueueOf(k.queues, a);
    assert Addressed(k, a, cap);
    forall id ensures Count(q + [m], a, id) <= Count(Pending(k.log, a), a, id) {
      CountAppend(q, m, a, id);
      assert Balanced(LedgerOf(k, a, id)) && Kept(LedgerOf(k, a, id));
      PendingCount(k.log, a, id);
    }
    CountLength(q + [m], Pending(k.log, a), a);
  }

  lemma PutDropsNothing(k: Kernel, m: Message, cap: nat, a: string)
    requires cap >= 1 && NoneDropped(k, a)
    requires m.to == a ==> |QueueOf(k.queues, a)| < cap
    requires m.to != a ==> Addressed(k, m.to, cap)
    ensures NoneDropped(Put(k, m, cap), a)
  {
    var q := QueueOf(k.queues, m.to);
    if |q| >= cap {
      forall id ensures Count(k.dropped + [q[0]], a, id) == 0 {
        CountAppend(k.dropped, q[0], a, id);
      }
    }
  }

  // ---- restarts ----

  /** The replay of a restart meets no full queue, and no message crosses the rotation: a condition on the log. */
  ghost predicate Safe(k: Kernel, a: string, cap: nat)
    requires cap >= 1 && k.cut <= |k.log|
  {
    NeverFull(ReplayOrder(k), a, cap) && forall id :: !Crosses(OlderPart(k), NewerPart(k), a, id)
  }

  /** Before state n every restart was safe for `a`. */
  ghost predicate RestartsSafe(ks: seq<Kernel>, acts: seq<Action>, cap: nat, a: string, n: nat)
    requires n < |ks| == |acts| + 1
  {
    n == 0 ||
    (RestartsSafe(ks, acts, cap, a, n - 1) &&
     (acts[n - 1].Restart? ==> Enabled(ks[n - 1], Restart, cap) && Safe(ks[n - 1], a, cap)))
  }

  /** Within capacity, a restart that reads the log in append order is safe and exact. */
  lemma InOrderIsSafe(k: Kernel, cap: nat, a: string)
    requires cap >= 1 && Inv(k, cap) && InOrder(k) && WithinCap(k.log, a, cap)
    ensures Safe(k, a, cap) && Recovered(k, a, cap) == Pending(k.log, a)
  {
    InOrderReads(k, a, cap);
    CausalIsReplayable(k.log, a);
    WithinCapNeverFull(k.log, a, cap);
    ReplayIsPending(k.log, a, cap);
    assert k.cut == 0 ==> OlderPart(k) == [];
    assert k.cut == |k.log| ==> NewerPart(k) == [];
  }

  lemma WithinCapPrefix(log: seq<Event>, longer: seq<Event>, a: string, cap: nat)
    requires log <= longer && WithinCap(longer, a, cap)
    ensures WithinCap(log, a, cap)
  {
    assert forall n :: 0 <= n <= |log| ==> log[..n] == longer[..n];
  }

  lemma SingleFileSafeAt(ks: seq<Kernel>, acts: seq<Action>, cap: nat, a: string, n: nat)
    requires cap >= 1 && Run(ks, acts, cap) && n < |ks| && (forall i :: 0 <= i < n ==> !acts[i].Rotate?) && WithinCap(ks[n].log, a, cap)
    ensures ks[n].cut <= |ks[n].log| && Safe(ks[n], a, cap)
  {
    NeverRotated(ks, acts, cap, n);
    RunKeeps(ks, acts, cap, n);
    InOrderIsSafe(ks[n], cap, a);
  }

  /** With a single log file every restart within capacity is safe. */
  lemma {:induction false} SingleFileIsSafe(ks: seq<Kernel>, acts: seq<Action>, cap: nat, a: string, n: nat)
    requires Run(ks, acts, cap) && n < |ks| && (forall i :: 0 <= i < n ==> !acts[i].Rotate?) && WithinCap(ks[n].log, a, cap)
    ensures RestartsSafe(ks, acts, cap, a, n)
  {
    if n > 0 {
      LogStep(ks, acts, cap, n);
      WithinCapPrefix(ks[n - 1].log, ks[n].log, a, cap);
      SingleFileIsSafe(ks, acts, cap, a, n - 1);
      RestartEnabled(ks, acts, cap, n);
      if acts[n - 1].Restart? {
        SingleFileSafeAt(ks, acts, cap, a, n - 1);
      }
    }
  }

  lemma RestartEnabled(ks: seq<Kernel>, acts: seq<Action>, cap: nat, n: nat)
    requires Run(ks, acts, cap) && 0 < n < |ks|
    ensures acts[n - 1].Restart? ==> Enabled(ks[n - 1], Restart, cap)
  {
    assert Step(ks, acts, cap, n);
  }

  /** A safe restart brings back exactly the undelivered messages, each once. */
  lemma SafeRecovery(k: Kernel, cap: nat, a: string, id: string)
    requires cap >= 1 && Inv(k, cap) && Safe(k, a, cap)
    ensures Count(Recovered(k, a, cap), a, id) == Count(Pending(k.log, a), a, id)
  {
    RecoveredCount(k, cap, a, id);
    PendingOnce(k.log, a, id);
    ReplayConserves(ReplayOrder(k), cap, a, id);
    ReplayOrderCounts(k, a, id);
  }

  // ---- which restarts drop a message ----

  /** How often a restart drops the undelivered id: as often as its replay discards it. */
  lemma DroppedCount(k: Kernel, cap: nat, a: string, id: string)
    requires cap >= 1 && k.cut <= |k.log|
    ensures Count(Restarted(k, cap).dropped, a, id)
         == if Deliveries(k.log, a, id) == 0 then Count(Discarded(ReplayOrder(k), cap), a, id) else 0
  {
    UnloggedCount(Discarded(ReplayOrder(k), cap), k.log, a, id);
  }

  lemma RoomyDropsNothing(k: Kernel, cap: nat, a: string)
    requires cap >= 1 && Inv(k, cap) && NeverFull(ReplayOrder(k), a, cap)
    ensures NoneDropped(Restarted(k, cap), a)
  {
    forall id ensures Count(Restarted(k, cap).dropped, a, id) == 0 {
      DroppedCount(k, cap, a, id);
      RecoveredCount(k, cap, a, id);
      ReplayConserves(ReplayOrder(k), cap, a, id);
      ReplayOrderCounts(k, a, id);
      SentOnce(k.log, a, id);
    }
  }

  /** What is pending in the newer part alone is pending in the whole log. */
  lemma NewerPending(older: seq<Event>, newer: seq<Event>, a: string)
    requires Causal(older + newer)
    ensures |Pending(newer, a)| <= |Pending(older + newer, a)|
  {
    forall id ensures Count(Pending(newer, a), a, id) <= Count(Pending(older + newer, a), a, id) {
      PendingCount(newer, a, id);
      PendingCount(older + newer, a, id);
      LogConcat(older, newer, a, id);
      SplitCausal(older, newer, a, id);
    }
    PendingAddressed(newer, a);
    CountLength(Pending(newer, a), Pending(older + newer, a), a);
  }

  lemma {:induction false} CausalPrefix(log: seq<Event>, n: nat)
    requires Causal(log) && n <= |log|
    ensures Causal(log[..n])
  {
    if n == |log| {
      assert log[..n] == log;
    } else {
      CausalPrefix(Front(log), n);
      assert Front(log)[..n] == log[..n];
    }
  }

  /** Within capacity the newer part replayed alone meets no full queue. */
  lemma NewerNeverFull(older: seq<Event>, newer: seq<Event>, a: string, cap: nat)
    requires cap >= 1 && Causal(older + newer) && WithinCap(older + newer, a, cap)
    ensures NeverFull(newer, a, cap)
  {
    var log := older + newer;
    forall n | 0 <= n <= |newer| ensures |Pending(newer[..n], a)| <= cap {
      assert log[..|older| + n] == older + newer[..n];
      CausalPrefix(log, |older| + n);
      NewerPending(older, newer[..n], a);
      assert |Pending(log[..|older| + n], a)| <= cap;
    }
    SplitCausal(older, newer, a, "");
    WithinCapNeverFull(newer, a, cap);
  }

  lemma {:induction false} NeverFullJoin(x: seq<Event>, y: seq<Event>, a: string, cap: nat)
    requires cap >= 1 && NeverFull(x, a, cap) && NeverFullAfter(x, y, a, cap)
    ensures NeverFull(x + y, a, cap)
  {
    if y == [] {
      assert x + y == x;
    } else {
      NeverFullJoin(x, Front(y), a, cap);
      Regrow(x, y);
      LogGrows(x + Front(y), Last(y));
    }
  }

  /** The first full queue that the older part meets discards the oldest message pending in the newer part. */
  lemma {:induction false} FirstFull(newer: seq<Event>, older: seq<Event>, a: string, cap: nat)
    requires cap >= 1 && Replayable(older, a) && Replayable(newer, a) && Disjoint(newer, older, a)
    requires NeverFull(newer, a, cap) && WithinCap(older, a, cap) && !NeverFullAfter(newer, older, a, cap)
    ensures Pending(newer, a) != [] && Count(Discarded(newer + older, cap), a, Pending(newer, a)[0].id) > 0
  {
    var front, e := Front(older), Last(older);
    DisjointFront(newer, older, a);
    WithinCapFront(older, a, cap);
    Regrow(newer, older);
    if NeverFullAfter(newer, front, a, cap) {
      ReplayOlder(newer, front, a, cap);
      assert older == front + [e];
      FullNow(newer, front, e, a, cap);
    } else {
      FirstFull(newer, front, a, cap);
      DiscardedGrowth(newer + front, e, cap, a, Pending(newer, a)[0].id);
    }
  }

  lemma FullNow(newer: seq<Event>, front: seq<Event>, e: Event, a: string, cap: nat)
    requires cap >= 1 && SendsTo(e, a) && |Replayed(newer + front, a, cap)| >= cap
    requires Replayable(front + [e], a) && |Pending(front + [e], a)| <= cap
    requires Replayed(newer + front, a, cap) == Pending(newer, a) + Pending(front, a)
    ensures Pending(newer, a) != [] && Count(Discarded((newer + front) + [e], cap), a, Pending(newer, a)[0].id) > 0
  {
    PendingGrowth(front, e, a);
    var m := Replayed(newer + front, a, cap)[0];
    PendingAddressed(newer, a);
    assert m == Pending(newer, a)[0] && m in Pending(newer, a);
    DiscardedGrowth(newer + front, e, cap, a, m.id);
    assert DiscardedBy(newer + front, e, cap) == [m];
    CountMember([m], a, m.id);
  }

  lemma FullDrops(k: Kernel, cap: nat, a: string)
    requires cap >= 1 && Inv(k, cap) && WithinCap(k.log, a, cap) && !NeverFull(ReplayOrder(k), a, cap)
    ensures !NoneDropped(Restarted(k, cap), a)
  {
    var older, newer := OlderPart(k), NewerPart(k);
    assert k.log == older + newer;
    NewerNeverFull(older, newer, a, cap);
    if NeverFullAfter(newer, older, a, cap) {
      NeverFullJoin(newer, older, a, cap);
      assert false;
    }
    forall id ensures SentCount(newer, a, id) > 0 ==> SentCount(older, a, id) == 0 && Deliveries(older, a, id) == 0 {
      SplitCausal(older, newer, a, id);
    }
    SplitCausal(older, newer, a, "");
    CausalIsReplayable(older, a);
    WithinCapPrefix(older, k.log, a, cap);
    FirstFull(newer, older, a, cap);
    OldestIsUndelivered(k, a);
    DroppedCount(k, cap, a, Pending(newer, a)[0].id);
  }

  lemma OldestIsUndelivered(k: Kernel, a: string)
    requires k.cut <= |k.log| && Causal(k.log) && Pending(NewerPart(k), a) != []
    ensures Deliveries(k.log, a, Pending(NewerPart(k), a)[0].id) == 0
  {
    var older, newer := OlderPart(k), NewerPart(k);
    var m := Pending(newer, a)[0];
    assert k.log == older + newer && m in Pending(newer, a);
    PendingAddressed(newer, a);
    CountMember(Pending(newer, a), a, m.id);
    PendingCount(newer, a, m.id);
    SplitCausal(older, newer, a, m.id);
    LogConcat(older, newer, a, m.id);
  }

  /** Within capacity a restart drops no message for `a` if and only if its replay meets no full queue. */
  lemma RestartDropsIff(k: Kernel, cap: nat, a: string)
    requires cap >= 1 && Inv(k, cap) && WithinCap(k.log, a, cap)
    ensures NoneDropped(Restarted(k, cap), a) <==> NeverFull(ReplayOrder(k), a, cap)
  {
    if NeverFull(ReplayOrder(k), a, cap) {
      RoomyDropsNothing(k, cap, a);
    } else {
      FullDrops(k, cap, a);
    }
  }

  // ---- every step ----

  lemma QueueStepDropsNothing(k: Kernel, k0: Kernel, m: Message, cap: nat, a: string)
    requires cap >= 1 && Inv(k, cap) && AllBalanced(k, a) && NoneDropped(k, a) && |Pending(k.log, a)| <= cap
    requires k0 == k.(awaiting := k0.awaiting, delivering := k0.delivering) && m in k.awaiting + k.delivering
    ensures NoneDropped(Put(k0, m, cap), a)
  {
    CountMember(k.awaiting, m.to, m.id);
    CountMember(k.delivering, m.to, m.id);
    if m.to == a {
      RoomInQueue(k, m, cap);
    }
    assert Addressed(k, m.to, cap) && NoneDropped(k0, a);
    PutDropsNothing(k0, m, cap, a);
  }

  /** Within capacity a step keeps each message for `a` in one place and drops none, if and only if it is not
      an unsafe restart. */
  lemma StepIff(k: Kernel, act: Action, cap: nat, a: string)
    requires Inv(k, cap) && Enabled(k, act, cap) && AllBalanced(k, a) && NoneDropped(k, a) && WithinCap(k.log, a, cap)
    ensures AllBalanced(Apply(k, act, cap), a) && NoneDropped(Apply(k, act, cap), a) <==> (act.Restart? ==> Safe(k, a, cap))
  {
    StepBalancesIff(k, act, cap, a);
    if act.Restart? {
      RestartDropsIff(k, cap, a);
      if NeverFull(ReplayOrder(k), a, cap) {
        RoomyReturnsIff(k, cap, a);
      }
    } else {
      StepDropsNothing(k, act, cap, a);
    }
  }

  lemma StepDropsNothing(k: Kernel, act: Action, cap: nat, a: string)
    requires Inv(k, cap) && Enabled(k, act, cap) && !act.Restart? && AllBalanced(k, a)
    requires NoneDropped(k, a) && WithinCap(k.log, a, cap)
    ensures NoneDropped(Apply(k, act, cap), a)
  {
    assert k.log[..|k.log|] == k.log;
    match act
    case TriggerQueue(i) =>
      QueueStepDropsNothing(k, k.(awaiting := Without(k.awaiting, i)), k.awaiting[i], cap, a);
    case PushFail(i) =>
      QueueStepDropsNothing(k, k.(delivering := Without(k.delivering, i)), k.delivering[i], cap, a);
    case _ =>
  }

  /** At every state up to n each message for `a` is in exactly one place, and none is dropped. */
  ghost predicate NothingLostUpTo(ks: seq<Kernel>, a: string, n: nat)
    requires n < |ks|
  {
    AllBalanced(ks[n], a) && NoneDropped(ks[n], a) && (n > 0 ==> NothingLostUpTo(ks, a, n - 1))
  }

  lemma RunStepIff(ks: seq<Kernel>, acts: seq<Action>, cap: nat, n: nat, a: string)
    requires Run(ks, acts, cap) && 0 < n < |ks|
    requires AllBalanced(ks[n - 1], a) && NoneDropped(ks[n - 1], a) && WithinCap(ks[n - 1].log, a, cap)
    ensures AllBalanced(ks[n], a) && NoneDropped(ks[n], a)
       <==> (acts[n - 1].Restart? ==> Enabled(ks[n - 1], Restart, cap) && Safe(ks[n - 1], a, cap))
  {
    assert Step(ks, acts, cap, n);
    RunKeeps(ks, acts, cap, n - 1);
    StepIff(ks[n - 1], acts[n - 1], cap, a);
  }

  /** While the log shows at most cap undelivered messages for `a`: at every state each is in exactly one
      place and none is dropped, if and only if every restart was safe. */
  lemma {:induction false} NothingDroppedIff(ks: seq<Kernel>, acts: seq<Action>, cap: nat, n: nat, a: string)
    requires Run(ks, acts, cap) && n < |ks| && WithinCap(ks[n].log, a, cap)
    ensures NothingLostUpTo(ks, a, n) <==> RestartsSafe(ks, acts, cap, a, n)
  {
    if n == 0 {
      EmptyBalances(a);
    } else {
      LogStep(ks, acts, cap, n);
      WithinCapPrefix(ks[n - 1].log, ks[n].log, a, cap);
      NothingDroppedIff(ks, acts, cap, n - 1, a);
      if NothingLostUpTo(ks, a, n - 1) {
        RunStepIff(ks, acts, cap, n, a);
      }
    }
  }

  /** The pending messages are those sent and not logged as delivered, each once. */
  lemma PendingOnce(log: seq<Event>, a: string, id: string)
    requires Causal(log)
    ensures Count(Pending(log, a), a, id) == if SentCount(log, a, id) > 0 && Deliveries(log, a, id) == 0 then 1 else 0
  {
    PendingCount(log, a, id);
    SentOnce(log, a, id);
  }

  lemma NotDropped(k: Kernel, a: string)
    requires NoneDropped(k, a)
    ensures forall id :: !At(LedgerOf(k, a, id), Dropped)
  {
    forall id ensures !At(LedgerOf(k, a, id), Dropped) {
      assert Count(k.dropped, a, id) == 0;
    }
  }

  /** With webhooks, retries, interleavings of any kind and crashes at any step: as long as the log never
      shows more than cap undelivered messages for `a` and restarts are safe, no message for `a` is ever
      dropped, and a safe restart queues exactly the messages without a logged delivery, each once - in
      sending order if the log is read in append order. */
  lemma NothingLost(ks: seq<Kernel>, acts: seq<Action>, cap: nat, n: nat, a: string)
    requires cap >= 1 && Run(ks, acts, cap) && n < |ks| && RestartsSafe(ks, acts, cap, a, n)
    requires WithinCap(ks[n].log, a, cap)
    ensures ks[n].cut <= |ks[n].log|
    ensures forall id :: !At(LedgerOf(ks[n], a, id), Dropped)
    ensures InOrder(ks[n]) ==> QueueOf(Restarted(ks[n], cap).queues, a) == Pending(ks[n].log, a)
    ensures Safe(ks[n], a, cap) ==> forall id :: Count(QueueOf(Restarted(ks[n], cap).queues, a), a, id)
                                              == if SentCount(ks[n].log, a, id) > 0 && Deliveries(ks[n].log, a, id) == 0 then 1 else 0
  {
    NothingDroppedIff(ks, acts, cap, n, a);
    NotDropped(ks[n], a);
    RunKeeps(ks, acts, cap, n);
    RestartedQueues(ks[n], a, cap);
    if InOrder(ks[n]) {
      InOrderIsSafe(ks[n], cap, a);
    }
    if Safe(ks[n], a, cap) {
      forall id ensures Count(Recovered(ks[n], a, cap), a, id)
                     == if SentCount(ks[n].log, a, id) > 0 && Deliveries(ks[n].log, a, id) == 0 then 1 else 0 {
        SafeRecovery(ks[n], cap, a, id);
        PendingOnce(ks[n].log, a, id);
      }
    }
  }

  /** At rest and within capacity, a safe restart changes at most the order of the queue: the same
      messages are in it, once each. */
  lemma RestIsRecovered(ks: seq<Kernel>, acts: seq<Action>, cap: nat, n: nat, a: string, id: string)
    requires cap >= 1 && Run(ks, acts, cap) && n < |ks| && RestartsSafe(ks, acts, cap, a, n)
    requires WithinCap(ks[n].log, a, cap) && ks[n].cut <= |ks[n].log| && Safe(ks[n], a, cap)
    requires forall m <- ks[n].awaiting + ks[n].delivering + ks[n].handed :: m.to != a
    ensures Count(QueueOf(ks[n].queues, a), a, id) == Count(QueueOf(Restarted(ks[n], cap).queues, a), a, id)
  {
    NothingDroppedIff(ks, acts, cap, n, a);
    RunKeeps(ks, acts, cap, n);
    RestartedQueues(ks[n], a, cap);
    SafeRecovery(ks[n], cap, a, id);
    QueuedArePending(ks[n], cap, a, id);
  }

  lemma QueuedArePending(k: Kernel, cap: nat, a: string, id: string)
    requires Inv(k, cap) && AllBalanced(k, a) && NoneDropped(k, a)
    requires forall m <- k.awaiting + k.delivering + k.handed :: m.to != a
    ensures Count(QueueOf(k.queues, a), a, id) == Count(Pending(k.log, a), a, id)
  {
    assert Balanced(LedgerOf(k, a, id)) && Kept(LedgerOf(k, a, id)) && Count(k.dropped, a, id) == 0;
    PendingCount(k.log, a, id);
    CountMember(k.awaiting, a, id);
    CountMember(k.delivering, a, id);
    CountMember(k.handed, a, id);
  }
}
