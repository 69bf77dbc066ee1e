/** Conservation of messages: where each sent message is, at every state of every run. */
module Places {
  import opened Events
  import opened MessageQueues
  import opened KernelRun

  /** How often one id occurs, for one recipient, in each place and among the ids sent. */
  datatype Ledger = Ledger(
    awaiting: nat,
    delivering: nat,
    queued: nat,
    handed: nat,
    logged: nat,
    dropped: nat,
    sent: nat)

  /** The occurrences that are not a logged delivery. */
  function Open(l: Ledger): nat {
    l.awaiting + l.delivering + l.queued + l.handed + l.dropped
  }

  /** How many more places the id has than sends. */
  function Surplus(l: Ledger): int {
    Open(l) + l.logged - l.sent
  }

  predicate Balanced(l: Ledger) {
    Surplus(l) == 0
  }

  function LedgerOf(k: Kernel, a: string, id: string): Ledger {
    Ledger(Count(k.awaiting, a, id), Count(k.delivering, a, id), Count(QueueOf(k.queues, a), a, id),
           Count(k.handed, a, id), Deliveries(k.log, a, id), Count(k.dropped, a, id), SentCount(k.log, a, id))
  }

  ghost predicate Addressed(k: Kernel, a: string, cap: nat) {
    |QueueOf(k.queues, a)| <= cap && forall m <- QueueOf(k.queues, a) :: m.to == a
  }

  /** An id is sent at most once and is open at most once; until its delivery is logged it is open exactly
      when it was sent. */
  predicate Kept(l: Ledger) {
    && l.sent <= 1
    && Open(l) <= 1
    && (l.logged == 0 ==> Open(l) == l.sent)
    && (l.sent == 0 ==> l.logged == 0)
  }

  /** What every state of every run has, whatever its restarts read. */
  ghost predicate Inv(k: Kernel, cap: nat) {
    && k.cut <= |k.log|
    && Causal(k.log)
    && (forall a, id :: Kept(LedgerOf(k, a, id)))
    && (forall a :: Addressed(k, a, cap))
  }

  // ---- moving a message between places ----

  /** queueMessage adds the message to its recipient's queue, or trades the oldest one for it. */
  lemma PutKeeps(k: Kernel, m: Message, cap: nat, a: string, id: string)
    requires cap >= 1 && Addressed(k, m.to, cap)
    ensures Addressed(k, a, cap) ==> Addressed(Put(k, m, cap), a, cap)
    ensures Count(QueueOf(Put(k, m, cap).queues, a), a, id) + Count(Put(k, m, cap).dropped, a, id)
         == Count(QueueOf(k.queues, a), a, id) + Count(k.dropped, a, id) + Entry(m, a, id)
  {
    var q := QueueOf(k.queues, m.to);
    if |q| >= cap {
      CountAppend(k.dropped, q[0], a, id);
    }
    if m.to == a {
      CountEnqueued(q, m, cap, a, id);
    }
  }

  lemma TakeKeeps(k: Kernel, a: string, n: nat, b: string, cap: nat, id: string)
    requires n <= |QueueOf(k.queues, a)| && Addressed(k, a, cap) && Addressed(k, b, cap)
    ensures QueueOf(AfterTake(k.queues, a, n), b) == if a == b then QueueOf(k.queues, a)[n..] else QueueOf(k.queues, b)
    ensures Count(QueueOf(AfterTake(k.queues, a, n), b), b, id) + Count(k.handed + QueueOf(k.queues, a)[..n], b, id)
         == Count(QueueOf(k.queues, b), b, id) + Count(k.handed, b, id)
  {
    var q := QueueOf(k.queues, a);
    CountConcat(k.handed, q[..n], b, id);
    if a == b {
      CountConcat(q[..n], q[n..], b, id);
      assert q == q[..n] + q[n..];
    } else {
      ToNone(q[..n], b);
      CountTo(q[..n], b, id);
    }
  }

  // ---- one step: how the ledger of one id changes ----

  /** Any step but a restart neither makes nor loses an occurrence: what is sent is open, and what is
      logged was open. */
  predicate Moves(l: Ledger, l': Ledger) {
    Surplus(l') == Surplus(l) && l'.sent >= l.sent && l'.logged >= l.logged
  }

  lemma LogSendMoves(k: Kernel, m: Message, e: Event, a: string, id: string)
    requires e.data.MessageSent? && Entry(MessageOf(e), a, id) == Entry(m, a, id)
    ensures Moves(LedgerOf(k, a, id), LedgerOf(k.(log := k.log + [e], awaiting := k.awaiting + [m]), a, id))
  {
    SentGrowth(k.log, e, a, id);
    CountAppend(k.awaiting, m, a, id);
  }

  lemma LogDeliveryMoves(k: Kernel, i: nat, e: Event, a: string, id: string)
    requires i < |k.handed| && !e.data.MessageSent? && DeliveryEntry(e, a, id) == Entry(k.handed[i], a, id)
    ensures Moves(LedgerOf(k, a, id), LedgerOf(k.(log := k.log + [e], handed := Without(k.handed, i)), a, id))
  {
    SentGrowth(k.log, e, a, id);
    CountWithout(k.handed, i, a, id);
  }

  lemma LogOtherMoves(k: Kernel, e: Event, a: string, id: string)
    requires !e.data.MessageSent? && !e.data.MessageDelivered?
    ensures LedgerOf(k.(log := k.log + [e]), a, id) == LedgerOf(k, a, id)
  {
    SentGrowth(k.log, e, a, id);
  }

  /** A message leaves its sender's or its delivery's hands for the recipient's queue. */
  lemma PutMoves(k: Kernel, k0: Kernel, m: Message, cap: nat, a: string, id: string)
    requires cap >= 1 && Addressed(k, a, cap) && Addressed(k, m.to, cap)
    requires k0 == k.(awaiting := k0.awaiting, delivering := k0.delivering)
    requires Count(k.awaiting, a, id) + Count(k.delivering, a, id)
          == Count(k0.awaiting, a, id) + Count(k0.delivering, a, id) + Entry(m, a, id)
    ensures Moves(LedgerOf(k, a, id), LedgerOf(Put(k0, m, cap), a, id)) && Addressed(Put(k0, m, cap), a, cap)
  {
    PutKeeps(k0, m, cap, a, id);
    assert Put(k0, m, cap).log == k.log && Put(k0, m, cap).handed == k.handed;
  }

  lemma TriggerQueueMoves(k: Kernel, i: nat, cap: nat, a: string, id: string)
    requires Enabled(k, TriggerQueue(i), cap) && Addressed(k, a, cap) && Addressed(k, k.awaiting[i].to, cap)
    ensures Moves(LedgerOf(k, a, id), LedgerOf(Apply(k, TriggerQueue(i), cap), a, id))
    ensures Addressed(Apply(k, TriggerQueue(i), cap), a, cap)
  {
    CountWithout(k.awaiting, i, a, id);
    PutMoves(k, k.(awaiting := Without(k.awaiting, i)), k.awaiting[i], cap, a, id);
  }

  lemma PushFailMoves(k: Kernel, i: nat, cap: nat, a: string, id: string)
    requires Enabled(k, PushFail(i), cap) && Addressed(k, a, cap) && Addressed(k, k.delivering[i].to, cap)
    ensures Moves(LedgerOf(k, a, id), LedgerOf(Apply(k, PushFail(i), cap), a, id))
    ensures Addressed(Apply(k, PushFail(i), cap), a, cap)
  {
    CountWithout(k.delivering, i, a, id);
    PutMoves(k, k.(delivering := Without(k.delivering, i)), k.delivering[i], cap, a, id);
  }

  lemma TriggerPushMoves(k: Kernel, i: nat, cap: nat, a: string, id: string)
    requires Enabled(k, TriggerPush(i), cap)
    ensures Moves(LedgerOf(k, a, id), LedgerOf(Apply(k, TriggerPush(i), cap), a, id))
  {
    CountWithout(k.awaiting, i, a, id);
    CountAppend(k.delivering, k.awaiting[i], a, id);
  }

  lemma PushOkMoves(k: Kernel, i: nat, cap: nat, a: string, id: string)
    requires Enabled(k, PushOk(i), cap)
    ensures Moves(LedgerOf(k, a, id), LedgerOf(Apply(k, PushOk(i), cap), a, id))
  {
    CountWithout(k.delivering, i, a, id);
    CountAppend(k.handed, k.delivering[i], a, id);
  }

  lemma TakeMoves(k: Kernel, b: string, limit: int, cap: nat, a: string, id: string)
    requires Enabled(k, Take(b, limit), cap) && Addressed(k, a, cap) && Addressed(k, b, cap)
    ensures Moves(LedgerOf(k, a, id), LedgerOf(Apply(k, Take(b, limit), cap), a, id))
    ensures Addressed(Apply(k, Take(b, limit), cap), a, cap)
  {
    TakeKeeps(k, b, TakeCount(k.queues, b, limit), a, cap, id);
  }

  lemma StepMoves(k: Kernel, act: Action, cap: nat, a: string, id: string)
    requires Enabled(k, act, cap) && !act.Restart? && forall b :: Addressed(k, b, cap)
    ensures Moves(LedgerOf(k, a, id), LedgerOf(Apply(k, act, cap), a, id))
    ensures Addressed(Apply(k, act, cap), a, cap)
  {
    assert Addressed(k, a, cap);
    match act
    case LogSend(m, ts) => LogSendMoves(k, m, SentEvent(k, m, ts), a, id);
    case LogDelivery(i, how, ts) => LogDeliveryMoves(k, i, DeliveredEvent(k, k.handed[i], how, ts), a, id);
    case LogOther(agent, data, ts) => LogOtherMoves(k, Event(NextSequence(k.log), ts, agent, data), a, id);
    case TriggerQueue(i) =>
      assert Addressed(k, k.awaiting[i].to, cap);
      TriggerQueueMoves(k, i, cap, a, id);
    case PushFail(i) =>
      assert Addressed(k, k.delivering[i].to, cap);
      PushFailMoves(k, i, cap, a, id);
    case TriggerPush(i) => TriggerPushMoves(k, i, cap, a, id);
    case PushOk(i) => PushOkMoves(k, i, cap, a, id);
    case Take(b, limit) =>
      assert Addressed(k, b, cap);
      TakeMoves(k, b, limit, cap, a, id);
    case Rotate =>
  }

  // ---- a restart ----

  /** After a restart an id is queued or discarded by the replay, as often as the replay says; the ones
      discarded count when their delivery is not logged. */
  lemma RestartLedger(k: Kernel, cap: nat, a: string, id: string)
    requires cap >= 1 && k.cut <= |k.log|
    ensures var l := LedgerOf(Restarted(k, cap), a, id);
            && l.sent == SentCount(k.log, a, id) && l.logged == Deliveries(k.log, a, id)
            && l.queued == Count(Recovered(k, a, cap), a, id)
            && Open(l) == l.queued + (if l.logged == 0 then Count(Discarded(ReplayOrder(k), cap), a, id) else 0)
            && Open(l) <= l.sent && (l.logged == 0 ==> Open(l) == l.sent)
    ensures Addressed(Restarted(k, cap), a, cap)
  {
    RestartedQueues(k, a, cap);
    ReplayedAddressed(ReplayOrder(k), a, cap);
    ReplayConserves(ReplayOrder(k), cap, a, id);
    ReplayOrderCounts(k, a, id);
    UnloggedCount(Discarded(ReplayOrder(k), cap), k.log, a, id);
  }

  // ---- every step keeps the invariant ----

  lemma MovesKeep(l: Ledger, l': Ledger)
    requires Kept(l) && Moves(l, l') && l'.sent <= 1 && (l'.sent == 0 ==> l'.logged == 0)
    ensures Kept(l')
  {
  }

  lemma StepKeepsCausal(k: Kernel, act: Action, cap: nat)
    requires Inv(k, cap) && Enabled(k, act, cap)
    ensures Causal(Apply(k, act, cap).log)
  {
    match act
    case LogSend(m, ts) => LogGrows(k.log, SentEvent(k, m, ts));
    case LogDelivery(i, how, ts) =>
      var m := k.handed[i];
      LogGrows(k.log, DeliveredEvent(k, m, how, ts));
      CountWithout(k.handed, i, m.to, m.id);
      assert Kept(LedgerOf(k, m.to, m.id));
    case LogOther(agent, data, ts) => LogGrows(k.log, Event(NextSequence(k.log), ts, agent, data));
    case _ =>
  }

  lemma StepKeepsOne(k: Kernel, act: Action, cap: nat, a: string, id: string)
    requires Inv(k, cap) && Enabled(k, act, cap)
    ensures Kept(LedgerOf(Apply(k, act, cap), a, id)) && Addressed(Apply(k, act, cap), a, cap)
  {
    StepKeepsCausal(k, act, cap);
    SentOnce(Apply(k, act, cap).log, a, id);
    assert Kept(LedgerOf(k, a, id));
    if act.Restart? {
      RestartLedger(k, cap, a, id);
    } else {
      StepMoves(k, act, cap, a, id);
      MovesKeep(LedgerOf(k, a, id), LedgerOf(Apply(k, act, cap), a, id));
    }
  }

  lemma StepKeeps(k: Kernel, act: Action, cap: nat)
    requires Inv(k, cap) && Enabled(k, act, cap)
    ensures Inv(Apply(k, act, cap), cap)
  {
    StepKeepsCausal(k, act, cap);
    forall a, id ensures Kept(LedgerOf(Apply(k, act, cap), a, id)) {
      StepKeepsOne(k, act, cap, a, id);
    }
    forall a ensures Addressed(Apply(k, act, cap), a, cap) {
      StepKeepsOne(k, act, cap, a, "");
    }
  }

  lemma {:induction false} RunKeeps(ks: seq<Kernel>, acts: seq<Action>, cap: nat, n: nat)
    requires Run(ks, acts, cap) && n < |ks|
    ensures Inv(ks[n], cap)
  {
    if n > 0 {
      RunKeeps(ks, acts, cap, n - 1);
      assert Step(ks, acts, cap, n);
      StepKeeps(ks[n - 1], acts[n - 1], cap);
    }
  }

  // ---- the results ----

  datatype Place = AwaitingTrigger | InDelivery | Queued | HandedOver | DeliveryLogged | Dropped

  predicate At(l: Ledger, p: Place) {
    match p
    case AwaitingTrigger => l.awaiting > 0
    case InDelivery => l.delivering > 0
    case Queued => l.queued > 0
    case HandedOver => l.handed > 0
    case DeliveryLogged => l.logged > 0
    case Dropped => l.dropped > 0
  }

  predicate Elsewhere(l: Ledger, p: Place) {
    p != DeliveryLogged && At(l, p)
  }

  /** Through sends, pulls, webhook deliveries and their failures, rotations, and crashes at any step with
      a replay in whatever order: an id that was never sent is nowhere; a sent one is somewhere, in at most
      one place besides its logged delivery, and there once. */
  lemma SomePlaceInAnyRun(ks: seq<Kernel>, acts: seq<Action>, cap: nat, n: nat, a: string, id: string)
    requires Run(ks, acts, cap) && n < |ks|
    ensures SentCount(ks[n].log, a, id) <= 1 && Open(LedgerOf(ks[n], a, id)) <= 1
    ensures SentCount(ks[n].log, a, id) > 0 <==> exists p :: At(LedgerOf(ks[n], a, id), p)
    ensures forall p, q :: Elsewhere(LedgerOf(ks[n], a, id), p) && Elsewhere(LedgerOf(ks[n], a, id), q) ==> p == q
  {
    RunKeeps(ks, acts, cap, n);
    assert Kept(LedgerOf(ks[n], a, id));
    SomePlace(LedgerOf(ks[n], a, id));
  }

  lemma SomePlace(l: Ledger)
    requires Kept(l)
    ensures l.sent > 0 <==> exists p :: At(l, p)
    ensures forall p, q :: Elsewhere(l, p) && Elsewhere(l, q) ==> p == q
  {
    if l.sent == 1 {
      var p := if l.logged > 0 then DeliveryLogged
               else if l.awaiting == 1 then AwaitingTrigger else if l.delivering == 1 then InDelivery
               else if l.queued == 1 then Queued else if l.handed == 1 then HandedOver else Dropped;
      assert At(l, p);
    }
  }

  lemma SurplusStep(ks: seq<Kernel>, acts: seq<Action>, cap: nat, n: nat, a: string, id: string)
    requires Run(ks, acts, cap) && 0 < n < |ks| && !acts[n - 1].Restart?
    ensures Moves(LedgerOf(ks[n - 1], a, id), LedgerOf(ks[n], a, id))
  {
    RunKeeps(ks, acts, cap, n - 1);
    assert Step(ks, acts, cap, n);
    StepMoves(ks[n - 1], acts[n - 1], cap, a, id);
  }

  /** Between two restarts the surplus of an id does not change. */
  lemma {:induction false} SurplusStays(ks: seq<Kernel>, acts: seq<Action>, cap: nat, j: nat, n: nat, a: string, id: string)
    requires Run(ks, acts, cap) && j <= n < |ks| && forall i :: j <= i < n ==> !acts[i].Restart?
    ensures Surplus(LedgerOf(ks[n], a, id)) == Surplus(LedgerOf(ks[j], a, id))
  {
    if j < n {
      SurplusStays(ks, acts, cap, j, n - 1, a, id);
      SurplusStep(ks, acts, cap, n, a, id);
    }
  }

  /** Before any restart each sent message is in exactly one place. */
  lemma BalancedUntilRestart(ks: seq<Kernel>, acts: seq<Action>, cap: nat, n: nat, a: string, id: string)
    requires Run(ks, acts, cap) && n < |ks| && forall i :: 0 <= i < n ==> !acts[i].Restart?
    ensures Balanced(LedgerOf(ks[n], a, id))
  {
    SurplusStays(ks, acts, cap, 0, n, a, id);
  }

  lemma RestartAt(ks: seq<Kernel>, acts: seq<Action>, cap: nat, n: nat, a: string, id: string)
    requires Run(ks, acts, cap) && 0 < n < |ks| && acts[n - 1].Restart?
    ensures cap >= 1 && ks[n - 1].cut <= |ks[n - 1].log| && Kept(LedgerOf(ks[n - 1], a, id))
    ensures var l, l' := LedgerOf(ks[n - 1], a, id), LedgerOf(ks[n], a, id);
            && l'.sent == l.sent && l'.logged == l.logged && l'.queued == Count(Recovered(ks[n - 1], a, cap), a, id)
            && Open(l') <= l'.sent && Open(l') == if l.logged == 0 then l'.sent else l'.queued
  {
    assert Step(ks, acts, cap, n);
    RunKeeps(ks, acts, cap, n - 1);
    RestartOne(ks[n - 1], ks[n], cap, a, id);
  }

  lemma RestartReturns(ks: seq<Kernel>, acts: seq<Action>, cap: nat, n: nat, a: string, id: string)
    requires Run(ks, acts, cap) && 0 < n < |ks| && acts[n - 1].Restart?
    ensures ks[n - 1].cut <= |ks[n - 1].log|
    ensures ReturnsId(ks[n - 1], a, id, cap) <==> Deliveries(ks[n - 1].log, a, id) > 0 && LedgerOf(ks[n], a, id).queued > 0
  {
    assert Step(ks, acts, cap, n);
    RunKeeps(ks, acts, cap, n - 1);
    ReturnsWhen(ks[n - 1], ks[n], cap, a, id);
  }

  lemma ReturnsWhen(k: Kernel, k': Kernel, cap: nat, a: string, id: string)
    requires cap >= 1 && Inv(k, cap) && k' == Restarted(k, cap)
    ensures ReturnsId(k, a, id, cap) <==> Deliveries(k.log, a, id) > 0 && LedgerOf(k', a, id).queued > 0
  {
    ReturnsIdIff(k, a, id, cap);
    RestartedQueues(k, a, cap);
  }

  lemma RestartOne(k: Kernel, k': Kernel, cap: nat, a: string, id: string)
    requires cap >= 1 && Inv(k, cap) && k' == Restarted(k, cap)
    ensures Kept(LedgerOf(k, a, id))
    ensures var l, l' := LedgerOf(k, a, id), LedgerOf(k', a, id);
            && l'.sent == l.sent && l'.logged == l.logged && l'.queued == Count(Recovered(k, a, cap), a, id)
            && Open(l') <= l'.sent && Open(l') == if l.logged == 0 then l'.sent else l'.queued
  {
    assert Kept(LedgerOf(k, a, id));
    RestartLedger(k, cap, a, id);
  }

  /** Exactly when a delivered message is in the system again: it returned at the last restart, which led
      to state j, and it has not been delivered since. */
  lemma DeliveredAgainIff(ks: seq<Kernel>, acts: seq<Action>, cap: nat, j: nat, n: nat, a: string, id: string)
    requires Run(ks, acts, cap) && 0 < j <= n < |ks| && acts[j - 1].Restart? && forall i :: j <= i < n ==> !acts[i].Restart?
    requires Deliveries(ks[n].log, a, id) > 0
    ensures cap >= 1 && ks[j - 1].cut <= |ks[j - 1].log|
    ensures Open(LedgerOf(ks[n], a, id)) > 0
       <==> Deliveries(ks[n].log, a, id) == Deliveries(ks[j - 1].log, a, id) && ReturnsId(ks[j - 1], a, id, cap)
  {
    RestartAt(ks, acts, cap, j, a, id);
    RestartReturns(ks, acts, cap, j, a, id);
    SurplusStays(ks, acts, cap, j, n, a, id);
    LogOnlyGrows(ks, acts, cap, j, n);
    PrefixCounts(ks[j].log, ks[n].log, a, id);
    RunKeeps(ks, acts, cap, n);
    assert Kept(LedgerOf(ks[n], a, id));
    AgainIff(LedgerOf(ks[j - 1], a, id), LedgerOf(ks[j], a, id), LedgerOf(ks[n], a, id));
  }

  /** The same on ledgers: before the restart, after it, and now. */
  lemma AgainIff(before: Ledger, after: Ledger, now: Ledger)
    requires Kept(before) && Kept(now) && Surplus(now) == Surplus(after) && now.logged > 0
    requires after.sent == before.sent <= now.sent && after.logged == before.logged <= now.logged
    requires before.logged > 0 ==> Open(after) == after.queued
    requires Open(after) <= after.sent && (before.logged == 0 ==> Open(after) == after.sent)
    ensures Open(now) > 0 <==> now.logged == before.logged && after.queued > 0
  {
  }

  lemma LogStep(ks: seq<Kernel>, acts: seq<Action>, cap: nat, n: nat)
    requires Run(ks, acts, cap) && 0 < n < |ks|
    ensures ks[n - 1].log <= ks[n].log
  {
    assert Step(ks, acts, cap, n);
  }

  lemma {:induction false} LogOnlyGrows(ks: seq<Kernel>, acts: seq<Action>, cap: nat, j: nat, n: nat)
    requires Run(ks, acts, cap) && j <= n < |ks|
    ensures ks[j].log <= ks[n].log
  {
    if j < n {
      LogOnlyGrows(ks, acts, cap, j, n - 1);
      LogStep(ks, acts, cap, n);
    }
  }

  lemma PrefixCounts(log: seq<Event>, longer: seq<Event>, a: string, id: string)
    requires log <= longer
    ensures Deliveries(log, a, id) <= Deliveries(longer, a, id) && SentCount(log, a, id) <= SentCount(longer, a, id)
  {
    assert longer == log + longer[|log|..];
    LogConcat(log, longer[|log|..], a, id);
  }

  /** At every restart before state n, no message for `a` whose delivery is logged returns: the log's later
      events in rotated files leave no room for one that crosses the rotation. */
  ghost predicate NoneBroughtBack(ks: seq<Kernel>, acts: seq<Action>, cap: nat, a: string, n: nat)
    requires n < |ks| == |acts| + 1
  {
    n == 0 ||
    (NoneBroughtBack(ks, acts, cap, a, n - 1) &&
     (acts[n - 1].Restart? ==> Enabled(ks[n - 1], Restart, cap) && NoneReturns(ks[n - 1], a, cap)))
  }

  ghost predicate AllBalanced(k: Kernel, a: string) {
    forall id :: Balanced(LedgerOf(k, a, id))
  }

  lemma EmptyBalances(a: string)
    ensures AllBalanced(INIT, a)
  {
  }

  /** A restart keeps the messages for `a` balanced exactly when none returns. */
  lemma RestartBalancesIff(k: Kernel, cap: nat, a: string)
    requires Inv(k, cap) && cap >= 1 && AllBalanced(k, a)
    ensures AllBalanced(Restarted(k, cap), a) <==> NoneReturns(k, a, cap)
  {
    NoneReturnsIff(k, a, cap);
    if AllBalanced(Restarted(k, cap), a) {
      forall id | Deliveries(k.log, a, id) > 0 ensures Count(Recovered(k, a, cap), a, id) == 0 {
        assert Balanced(LedgerOf(Restarted(k, cap), a, id));
        RestartBalancesOne(k, cap, a, id);
      }
    }
    if NoneReturns(k, a, cap) {
      forall id ensures Balanced(LedgerOf(Restarted(k, cap), a, id)) {
        RestartBalancesOne(k, cap, a, id);
      }
    }
  }

  lemma RestartBalancesOne(k: Kernel, cap: nat, a: string, id: string)
    requires Inv(k, cap) && cap >= 1 && AllBalanced(k, a)
    ensures Balanced(LedgerOf(Restarted(k, cap), a, id))
       <==> (Deliveries(k.log, a, id) > 0 ==> Count(Recovered(k, a, cap), a, id) == 0)
  {
    assert Balanced(LedgerOf(k, a, id)) && Kept(LedgerOf(k, a, id));
    RestartLedger(k, cap, a, id);
  }

  lemma StepBalancesIff(k: Kernel, act: Action, cap: nat, a: string)
    requires Inv(k, cap) && Enabled(k, act, cap) && AllBalanced(k, a)
    ensures AllBalanced(Apply(k, act, cap), a) <==> (act.Restart? ==> NoneReturns(k, a, cap))
  {
    if act.Restart? {
      RestartBalancesIff(k, cap, a);
    } else {
      forall id ensures Balanced(LedgerOf(Apply(k, act, cap), a, id)) {
        assert Balanced(LedgerOf(k, a, id));
        StepMoves(k, act, cap, a, id);
      }
    }
  }

  lemma BalancesIff(ks: seq<Kernel>, acts: seq<Action>, cap: nat, n: nat, a: string)
    requires Run(ks, acts, cap) && 0 < n < |ks| && AllBalanced(ks[n - 1], a)
    ensures AllBalanced(ks[n], a)
       <==> (acts[n - 1].Restart? ==> Enabled(ks[n - 1], Restart, cap) && NoneReturns(ks[n - 1], a, cap))
  {
    assert Step(ks, acts, cap, n);
    RunKeeps(ks, acts, cap, n - 1);
    StepBalancesIff(ks[n - 1], acts[n - 1], cap, a);
  }

  /** At every state up to n each message for `a` is in exactly one place. */
  ghost predicate AllBalancedUpTo(ks: seq<Kernel>, a: string, n: nat)
    requires n < |ks|
  {
    AllBalanced(ks[n], a) && (n > 0 ==> AllBalancedUpTo(ks, a, n - 1))
  }

  /** At every state up to n each message for `a` is in exactly one place - awaiting its trigger, in
      delivery, queued, handed over but unlogged, delivery logged, or dropped - if and only if at no
      restart until then one returns whose delivery is logged. */
  lemma {:induction false} ExactlyOnePlaceIff(ks: seq<Kernel>, acts: seq<Action>, cap: nat, n: nat, a: string)
    requires Run(ks, acts, cap) && n < |ks|
    ensures AllBalancedUpTo(ks, a, n) <==> NoneBroughtBack(ks, acts, cap, a, n)
  {
    if n == 0 {
      EmptyBalances(a);
    } else {
      ExactlyOnePlaceIff(ks, acts, cap, n - 1, a);
      if AllBalancedUpTo(ks, a, n - 1) {
        BalancesIff(ks, acts, cap, n, a);
      }
    }
  }

  /** With one file, or whenever a restart gives `a` the queue of a replay in append order, none returns. */
  lemma {:induction false} ReadInOrderIsEnough(ks: seq<Kernel>, acts: seq<Action>, cap: nat, n: nat, a: string)
    requires Run(ks, acts, cap) && n < |ks| && RestartsReadInOrder(ks, acts, cap, a, n)
    ensures NoneBroughtBack(ks, acts, cap, a, n)
  {
    if n > 0 {
      ReadInOrderIsEnough(ks, acts, cap, n - 1, a);
      if acts[n - 1].Restart? {
        assert Step(ks, acts, cap, n);
        RunKeeps(ks, acts, cap, n - 1);
        ReadInOrderNoneReturns(ks[n - 1], a, cap);
      }
    }
  }

  /** In such a run a sent message is in exactly one place, once, at every state. */
  lemma ExactlyOnePlace(ks: seq<Kernel>, acts: seq<Action>, cap: nat, n: nat, a: string, id: string)
    requires Run(ks, acts, cap) && n < |ks| && NoneBroughtBack(ks, acts, cap, a, n)
    ensures var l := LedgerOf(ks[n], a, id); Balanced(l) && l.sent == SentCount(ks[n].log, a, id) <= 1
    ensures SentCount(ks[n].log, a, id) > 0 <==> exists p :: At(LedgerOf(ks[n], a, id), p)
    ensures forall p, q :: At(LedgerOf(ks[n], a, id), p) && At(LedgerOf(ks[n], a, id), q) ==> p == q
  {
    ExactlyOnePlaceIff(ks, acts, cap, n, a);
    assert AllBalanced(ks[n], a);
    RunKeeps(ks, acts, cap, n);
    assert Kept(LedgerOf(ks[n], a, id)) && Balanced(LedgerOf(ks[n], a, id));
    OnlyOne(LedgerOf(ks[n], a, id));
  }

  lemma OnlyOne(l: Ledger)
    requires Kept(l) && Balanced(l)
    ensures l.sent > 0 <==> exists p :: At(l, p)
    ensures forall p, q :: At(l, p) && At(l, q) ==> p == q
  {
    SomePlace(l);
  }
}
