/** The message path of the running kernel as a step system.  Each action is one critical section
    of the code: an append under the log's lock, a queue operation under the router's lock, the end of a
    webhook delivery, a rotation, or a crash followed by a restart.  Any number of requests may be between
    two of their steps at the same time. */
module KernelRun {
  import opened Events
  import opened MessageQueues
  import opened Survival

  /** `log` is every event in append order; the first `cut` of them are in rotated files.
      `dropped` is a history variable: the messages that drop-oldest discarded, live or in the last replay. */
  datatype Kernel = Kernel(
    log: seq<Event>,
    cut: nat,
    awaiting: seq<Message>,
    delivering: seq<Message>,
    queues: map<string, seq<Message>>,
    handed: seq<Message>,
    dropped: seq<Message>)

  datatype Action =
    | LogSend(m: Message, ts: int)              // Send: append message_sent
    | TriggerQueue(i: nat)                      // the webhook trigger finds no URL: QueueForPull
    | TriggerPush(i: nat)                       // the webhook trigger starts a delivery goroutine
    | PushOk(i: nat)                            // an attempt succeeded; its event is not logged yet
    | PushFail(i: nat)                          // the delivery gave up: fallback to the pull queue
    | Take(a: string, limit: int)               // Receive: the part under the lock
    | LogDelivery(i: nat, how: string, ts: int) // append message_delivered, after a pull or a push
    | LogOther(agent: string, data: Payload, ts: int)
    | Rotate
    | Restart

  const INIT := Kernel([], 0, [], [], map[], [], [])

  /** Replay reads events.jsonl first: its name sorts before every events_<nanos>.jsonl. */
  function ReplayOrder(k: Kernel): seq<Event>
    requires k.cut <= |k.log|
  {
    k.log[k.cut..] + k.log[..k.cut]
  }

  /** The queue of `a` that a restart would build. */
  function Recovered(k: Kernel, a: string, cap: nat): seq<Message>
    requires cap >= 1 && k.cut <= |k.log|
  {
    Replayed(ReplayOrder(k), a, cap)
  }

  function Recipients(log: seq<Event>): set<string> {
    set e | e in log && e.data.MessageSent? :: e.data.to
  }

  /** EventLog.Append numbers events from 1, or on from the last one. */
  function NextSequence(log: seq<Event>): int {
    if log == [] then 1 else Last(log).sequence + 1
  }

  function SentEvent(k: Kernel, m: Message, ts: int): Event {
    Event(NextSequence(k.log), ts, m.from, MessageSent(m.id, m.from, m.to, m.content, |m.content|))
  }

  function DeliveredEvent(k: Kernel, m: Message, how: string, ts: int): Event {
    Event(NextSequence(k.log), ts, m.to, MessageDelivered(m.id, m.to, how))
  }

  /** queueMessage. */
  function Put(k: Kernel, m: Message, cap: nat): Kernel
    requires cap >= 1
  {
    var q := QueueOf(k.queues, m.to);
    var k' := k.(queues := PutQueue(k.queues, m, cap));
    if |q| >= cap then k'.(dropped := k.dropped + [q[0]]) else k'
  }

  predicate Enabled(k: Kernel, act: Action, cap: nat) {
    cap >= 1 && k.cut <= |k.log| &&
    match act
    case LogSend(m, _) => m.to != "" && FreshId(k.log, m.id)
    case TriggerQueue(i) => i < |k.awaiting|
    case TriggerPush(i) => i < |k.awaiting|
    case PushOk(i) => i < |k.delivering|
    case PushFail(i) => i < |k.delivering|
    case LogDelivery(i, _, _) => i < |k.handed|
    case LogOther(_, data, _) => !data.MessageSent? && !data.MessageDelivered?
    case _ => true
  }

  function Apply(k: Kernel, act: Action, cap: nat): Kernel
    requires Enabled(k, act, cap)
  {
    match act
    case LogSend(m, ts) => k.(log := k.log + [SentEvent(k, m, ts)], awaiting := k.awaiting + [m])
    case TriggerQueue(i) => Put(k.(awaiting := Without(k.awaiting, i)), k.awaiting[i], cap)
    case TriggerPush(i) =>
      k.(awaiting := Without(k.awaiting, i), delivering := k.delivering + [k.awaiting[i]])
    case PushOk(i) => k.(delivering := Without(k.delivering, i), handed := k.handed + [k.delivering[i]])
    case PushFail(i) => Put(k.(delivering := Without(k.delivering, i)), k.delivering[i], cap)
    case Take(a, limit) =>
      var n := TakeCount(k.queues, a, limit);
      k.(queues := AfterTake(k.queues, a, n), handed := k.handed + QueueOf(k.queues, a)[..n])
    case LogDelivery(i, how, ts) =>
      k.(log := k.log + [DeliveredEvent(k, k.handed[i], how, ts)], handed := Without(k.handed, i))
    case LogOther(agent, data, ts) => k.(log := k.log + [Event(NextSequence(k.log), ts, agent, data)])
    case Rotate => k.(cut := |k.log|)
    case Restart => Restarted(k, cap)
  }

  /** A crash loses everything but the log; the queues are rebuilt by replaying it. */
  function Restarted(k: Kernel, cap: nat): Kernel
    requires cap >= 1 && k.cut <= |k.log|
  {
    Kernel(k.log, k.cut, [], [],
           map a | a in Recipients(k.log) && Recovered(k, a, cap) != [] :: Recovered(k, a, cap),
           [],
           Unlogged(Discarded(ReplayOrder(k), cap), k.log))
  }

  /** Action n - 1 leads to state n. */
  ghost predicate Step(ks: seq<Kernel>, acts: seq<Action>, cap: nat, n: nat)
    requires 0 < n < |ks| == |acts| + 1
  {
    Enabled(ks[n - 1], acts[n - 1], cap) && ks[n] == Apply(ks[n - 1], acts[n - 1], cap)
  }

  /** Each action leads from one state to the next. */
  ghost predicate Chain(ks: seq<Kernel>, acts: seq<Action>, cap: nat) {
    |ks| == |acts| + 1 && forall n :: 0 < n < |ks| ==> Step(ks, acts, cap, n)
  }

  /** ks[0], ks[1], ... are the states of a run that starts empty and takes the given actions. */
  ghost predicate Run(ks: seq<Kernel>, acts: seq<Action>, cap: nat) {
    Chain(ks, acts, cap) && ks[0] == INIT
  }

  /** The log is in replay order at this state: nothing rotated, or nothing since. */
  predicate InOrder(k: Kernel) {
    k.cut == 0 || k.cut == |k.log|
  }

  /** A restart would give `a` the queue that a replay in append order gives. */
  predicate ReadsInOrder(k: Kernel, a: string, cap: nat)
    requires cap >= 1 && k.cut <= |k.log|
  {
    Recovered(k, a, cap) == Replayed(k.log, a, cap)
  }

  /** The parts of the log in rotated files and in the current one. */
  function OlderPart(k: Kernel): seq<Event>
    requires k.cut <= |k.log|
  {
    k.log[..k.cut]
  }

  function NewerPart(k: Kernel): seq<Event>
    requires k.cut <= |k.log|
  {
    k.log[k.cut..]
  }

  /** The message was sent in the older part, and every delivery of it is in the newer one. */
  predicate Crosses(older: seq<Event>, newer: seq<Event>, a: string, id: string) {
    SentCount(older, a, id) > 0 && Deliveries(older, a, id) == 0 && Deliveries(newer, a, id) > 0
  }

  /** What a restart reads after event p. */
  function ReadAfter(k: Kernel, p: nat): seq<Event>
    requires k.cut <= |k.log| && p < |k.log|
  {
    if p < k.cut then k.log[p + 1..k.cut] else k.log[p + 1..] + k.log[..k.cut]
  }

  /** Event p sends a message to `a` that crosses the rotation, and the events after it in rotated files
      leave room for it: a condition on the log. */
  predicate Returns(k: Kernel, p: nat, a: string, cap: nat)
    requires p < k.cut <= |k.log|
  {
    SendsTo(k.log[p], a) && Crosses(OlderPart(k), NewerPart(k), a, k.log[p].data.id) && Room(k.log[p + 1..k.cut], a, cap)
  }

  predicate NoneReturns(k: Kernel, a: string, cap: nat)
    requires k.cut <= |k.log|
  {
    forall p :: 0 <= p < k.cut ==> !Returns(k, p, a, cap)
  }

  /** Before state n every restart gave `a` the queue of a replay in append order. */
  predicate RestartsReadInOrder(ks: seq<Kernel>, acts: seq<Action>, cap: nat, a: string, n: nat)
    requires n < |ks| == |acts| + 1
  {
    n == 0 ||
    (RestartsReadInOrder(ks, acts, cap, a, n - 1) &&
     (acts[n - 1].Restart? ==> Enabled(ks[n - 1], Restart, cap) && ReadsInOrder(ks[n - 1], a, cap)))
  }

  lemma InOrderReads(k: Kernel, a: string, cap: nat)
    requires cap >= 1 && k.cut <= |k.log| && InOrder(k)
    ensures ReplayOrder(k) == k.log && ReadsInOrder(k, a, cap)
  {
  }

  /** With one file, or nothing logged since the last rotation, at every restart. */
  lemma {:induction false} InOrderRestarts(ks: seq<Kernel>, acts: seq<Action>, cap: nat, a: string, n: nat)
    requires Run(ks, acts, cap) && n < |ks|
    requires forall i :: 0 <= i < n && acts[i].Restart? ==> InOrder(ks[i])
    ensures RestartsReadInOrder(ks, acts, cap, a, n)
  {
    if n > 0 {
      InOrderRestarts(ks, acts, cap, a, n - 1);
      if acts[n - 1].Restart? {
        assert Step(ks, acts, cap, n);
        InOrderReads(ks[n - 1], a, cap);
      }
    }
  }

  lemma {:induction false} NeverRotated(ks: seq<Kernel>, acts: seq<Action>, cap: nat, n: nat)
    requires Run(ks, acts, cap) && n < |ks| && forall i :: 0 <= i < n ==> !acts[i].Rotate?
    ensures ks[n].cut == 0
  {
    if n > 0 {
      NeverRotated(ks, acts, cap, n - 1);
      assert Step(ks, acts, cap, n);
    }
  }

  /** With a single log file every restart reads it in append order. */
  lemma SingleFile(ks: seq<Kernel>, acts: seq<Action>, cap: nat, a: string, n: nat)
    requires cap >= 1 && Run(ks, acts, cap) && n < |ks| && forall i :: 0 <= i < n ==> !acts[i].Rotate?
    ensures RestartsReadInOrder(ks, acts, cap, a, n)
    ensures InOrder(ks[n]) && ReadsInOrder(ks[n], a, cap)
  {
    forall i | 0 <= i < n && acts[i].Restart? ensures InOrder(ks[i]) {
      NeverRotated(ks, acts, cap, i);
    }
    InOrderRestarts(ks, acts, cap, a, n);
    NeverRotated(ks, acts, cap, n);
    InOrderReads(ks[n], a, cap);
  }

  lemma ReplayOrderCounts(k: Kernel, a: string, id: string)
    requires k.cut <= |k.log|
    ensures SentCount(ReplayOrder(k), a, id) == SentCount(k.log, a, id)
    ensures Deliveries(ReplayOrder(k), a, id) == Deliveries(k.log, a, id)
  {
    LogConcat(k.log[k.cut..], k.log[..k.cut], a, id);
    LogConcat(k.log[..k.cut], k.log[k.cut..], a, id);
    assert k.log == k.log[..k.cut] + k.log[k.cut..];
  }

  lemma PartsApart(k: Kernel, a: string, id: string)
    requires k.cut <= |k.log| && Causal(k.log)
    ensures SentCount(OlderPart(k), a, id) + SentCount(NewerPart(k), a, id) == SentCount(k.log, a, id) <= 1
    ensures Deliveries(OlderPart(k), a, id) + Deliveries(NewerPart(k), a, id) == Deliveries(k.log, a, id)
    ensures Deliveries(k.log, a, id) > 0 ==> SentCount(k.log, a, id) == 1
  {
    assert k.log == OlderPart(k) + NewerPart(k);
    SentOnce(k.log, a, id);
    LogConcat(OlderPart(k), NewerPart(k), a, id);
  }

  lemma ReadOnce(k: Kernel, a: string)
    requires k.cut <= |k.log| && Causal(k.log)
    ensures OnceEach(ReplayOrder(k), a)
  {
    forall id ensures SentCount(ReplayOrder(k), a, id) <= 1 {
      ReplayOrderCounts(k, a, id);
      SentOnce(k.log, a, id);
    }
  }

  /** A restart at any state brings a message back if and only if no delivery of it is read after it and what
      is read after it leaves room for it: for any rotation layout, drop-oldest included. */
  lemma RecoveredIff(k: Kernel, p: nat, a: string, cap: nat)
    requires cap >= 1 && k.cut <= |k.log| && Causal(k.log) && p < |k.log| && SendsTo(k.log[p], a)
    ensures Count(Recovered(k, a, cap), a, k.log[p].data.id) > 0 <==> Outlives(k.log[p].data.id, ReadAfter(k, p), a, cap)
  {
    var order := ReplayOrder(k);
    var i := if p < k.cut then |k.log| - k.cut + p else p - k.cut;
    ReadOnce(k, a);
    assert order[i] == k.log[p] && order[i + 1..] == ReadAfter(k, p);
    SurvivesIff(order, i, a, cap);
  }

  /** A delivered message comes back exactly when it returns in that sense. */
  lemma ReturnsIff(k: Kernel, p: nat, a: string, cap: nat)
    requires cap >= 1 && k.cut <= |k.log| && Causal(k.log) && p < |k.log| && SendsTo(k.log[p], a)
    requires Deliveries(k.log, a, k.log[p].data.id) > 0
    ensures Count(Recovered(k, a, cap), a, k.log[p].data.id) > 0 <==> p < k.cut && Returns(k, p, a, cap)
  {
    var id := k.log[p].data.id;
    RecoveredIff(k, p, a, cap);
    PartsApart(k, a, id);
    DeliveredAfter(k.log, p, a);
    if p < k.cut {
      assert OlderPart(k)[p] == k.log[p];
      SentAt(OlderPart(k), a, id);
      assert OlderPart(k) == k.log[..p + 1] + k.log[p + 1..k.cut];
      LogConcat(k.log[..p + 1], k.log[p + 1..k.cut], a, id);
    } else {
      LogConcat(k.log[p + 1..], k.log[..k.cut], a, id);
    }
  }

  /** In a causal log every delivery of a message comes after its message_sent event. */
  lemma {:induction false} DeliveredAfter(log: seq<Event>, p: nat, a: string)
    requires Causal(log) && p < |log| && SendsTo(log[p], a)
    ensures Deliveries(log[..p + 1], a, log[p].data.id) == 0
    ensures Deliveries(log[p + 1..], a, log[p].data.id) == Deliveries(log, a, log[p].data.id)
  {
    var id := log[p].data.id;
    assert log == log[..p + 1] + log[p + 1..];
    LogConcat(log[..p + 1], log[p + 1..], a, id);
    UndeliveredBefore(log, p, a);
  }

  lemma {:induction false} UndeliveredBefore(log: seq<Event>, p: nat, a: string)
    requires Causal(log) && p < |log| && SendsTo(log[p], a)
    ensures Deliveries(log[..p + 1], a, log[p].data.id) == 0
  {
    if p == |log| - 1 {
      assert log[..p + 1] == log && log == Front(log) + [log[p]];
      FreshAbsent(Front(log), log[p].data.id, a);
      SentGrowth(Front(log), log[p], a, log[p].data.id);
    } else {
      UndeliveredBefore(Front(log), p, a);
      assert Front(log)[..p + 1] == log[..p + 1];
    }
  }

  /** So a restart brings back no message whose delivery is logged if and only if none returns. */
  lemma NoneReturnsIff(k: Kernel, a: string, cap: nat)
    requires cap >= 1 && k.cut <= |k.log| && Causal(k.log)
    ensures NoneReturns(k, a, cap) <==> forall id :: Deliveries(k.log, a, id) > 0 ==> Count(Recovered(k, a, cap), a, id) == 0
  {
    forall id | Deliveries(k.log, a, id) > 0 && NoneReturns(k, a, cap) ensures Count(Recovered(k, a, cap), a, id) == 0 {
      SentOnce(k.log, a, id);
      SentAt(k.log, a, id);
      var p :| 0 <= p < |k.log| && SendsTo(k.log[p], a) && k.log[p].data.id == id;
      ReturnsIff(k, p, a, cap);
    }
    if p :| 0 <= p < k.cut && Returns(k, p, a, cap) {
      PartsApart(k, a, k.log[p].data.id);
      ReturnsIff(k, p, a, cap);
    }
  }

  /** The message with this id returns. */
  ghost predicate ReturnsId(k: Kernel, a: string, id: string, cap: nat)
    requires k.cut <= |k.log|
  {
    exists p :: 0 <= p < k.cut && Returns(k, p, a, cap) && k.log[p].data.id == id
  }

  lemma ReturnsIdIff(k: Kernel, a: string, id: string, cap: nat)
    requires cap >= 1 && k.cut <= |k.log| && Causal(k.log)
    ensures ReturnsId(k, a, id, cap) <==> Deliveries(k.log, a, id) > 0 && Count(Recovered(k, a, cap), a, id) > 0
  {
    PartsApart(k, a, id);
    SentAt(k.log, a, id);
    if Deliveries(k.log, a, id) > 0 && Count(Recovered(k, a, cap), a, id) > 0 {
      var p :| 0 <= p < |k.log| && SendsTo(k.log[p], a) && k.log[p].data.id == id;
      ReturnsIff(k, p, a, cap);
    }
    if p :| 0 <= p < k.cut && Returns(k, p, a, cap) && k.log[p].data.id == id {
      ReturnsIff(k, p, a, cap);
    }
  }

  lemma ReadInOrderNoneReturns(k: Kernel, a: string, cap: nat)
    requires cap >= 1 && k.cut <= |k.log| && Causal(k.log) && ReadsInOrder(k, a, cap)
    ensures NoneReturns(k, a, cap)
  {
    forall id | Deliveries(k.log, a, id) > 0 ensures Count(Recovered(k, a, cap), a, id) == 0 {
      DeliveredStaysOut(k.log, cap, a, id);
    }
    NoneReturnsIff(k, a, cap);
  }

  lemma {:induction false} NoRecipient(log: seq<Event>, a: string, cap: nat)
    requires cap >= 1 && a !in Recipients(log)
    ensures Replayed(log, a, cap) == [] && Sents(log, a) == []
  {
    if log != [] {
      NoRecipient(Front(log), a, cap);
      assert Last(log) in log;
    }
  }

  lemma SameRecipients(k: Kernel)
    requires k.cut <= |k.log|
    ensures Recipients(ReplayOrder(k)) == Recipients(k.log)
  {
    assert k.log == k.log[..k.cut] + k.log[k.cut..];
    assert forall e :: e in k.log <==> e in ReplayOrder(k);
  }

  lemma RestartedQueues(k: Kernel, a: string, cap: nat)
    requires cap >= 1 && k.cut <= |k.log|
    ensures QueueOf(Restarted(k, cap).queues, a) == Recovered(k, a, cap)
  {
    if a !in Recipients(k.log) {
      SameRecipients(k);
      NoRecipient(ReplayOrder(k), a, cap);
    }
  }

  // ---- steps one after the other ----

  /** The actions lead from k to k'. */
  ghost predicate Leads(k: Kernel, acts: seq<Action>, k': Kernel, cap: nat) {
    exists ks :: Chain(ks, acts, cap) && ks[0] == k && ks[|acts|] == k'
  }

  lemma ChainConcat(ks: seq<Kernel>, x: seq<Action>, js: seq<Kernel>, y: seq<Action>, cap: nat)
    requires Chain(ks, x, cap) && Chain(js, y, cap) && ks[|x|] == js[0]
    ensures Chain(ks + js[1..], x + y, cap)
  {
    var all, acts := ks + js[1..], x + y;
    forall n | 0 < n < |all| ensures Step(all, acts, cap, n) {
      if n < |ks| {
        assert Step(ks, x, cap, n);
      } else {
        assert Step(js, y, cap, n - |x|);
        assert all[n - 1] == js[n - |x| - 1] && all[n] == js[n - |x|] && acts[n - 1] == y[n - |x| - 1];
      }
    }
  }

  lemma StaysPut(k: Kernel, cap: nat)
    ensures Leads(k, [], k, cap)
  {
    assert Chain([k], [], cap);
  }

  lemma LeadsOne(k: Kernel, act: Action, cap: nat)
    requires Enabled(k, act, cap)
    ensures Leads(k, [act], Apply(k, act, cap), cap)
  {
    var ks := [k, Apply(k, act, cap)];
    assert Step(ks, [act], cap, 1);
    assert Chain(ks, [act], cap);
  }

  lemma LeadsOn(k: Kernel, x: seq<Action>, k1: Kernel, y: seq<Action>, k2: Kernel, cap: nat)
    requires Leads(k, x, k1, cap) && Leads(k1, y, k2, cap)
    ensures Leads(k, x + y, k2, cap)
  {
    var ks :| Chain(ks, x, cap) && ks[0] == k && ks[|x|] == k1;
    var js :| Chain(js, y, cap) && js[0] == k1 && js[|y|] == k2;
    ChainConcat(ks, x, js, y, cap);
  }

  lemma LeadsThen(k: Kernel, acts: seq<Action>, k1: Kernel, act: Action, cap: nat)
    requires Leads(k, acts, k1, cap) && Enabled(k1, act, cap)
    ensures Leads(k, acts + [act], Apply(k1, act, cap), cap)
  {
    LeadsOne(k1, act, cap);
    LeadsOn(k, acts, k1, [act], Apply(k1, act, cap), cap);
  }

  /** A run goes on with such steps. */
  lemma RunGoesOn(ks: seq<Kernel>, acts: seq<Action>, more: seq<Action>, k': Kernel, cap: nat)
    requires Run(ks, acts, cap) && Leads(ks[|acts|], more, k', cap)
    ensures exists ks' :: Run(ks', acts + more, cap) && ks <= ks' && ks'[|acts + more|] == k'
  {
    var js :| Chain(js, more, cap) && js[0] == ks[|acts|] && js[|more|] == k';
    ChainConcat(ks, acts, js, more, cap);
    assert Run(ks + js[1..], acts + more, cap);
  }

  ghost predicate Reachable(k: Kernel, cap: nat) {
    exists acts :: Leads(INIT, acts, k, cap)
  }

  /** The reachable states are the last states of runs. */
  lemma ReachableIff(k: Kernel, cap: nat)
    ensures Reachable(k, cap) <==> exists ks, acts :: Run(ks, acts, cap) && ks[|acts|] == k
  {
    if ks, acts :| Run(ks, acts, cap) && ks[|acts|] == k {
      assert Leads(INIT, acts, k, cap);
    }
  }

  lemma ReachesNext(k: Kernel, act: Action, cap: nat)
    requires Reachable(k, cap) && Enabled(k, act, cap)
    ensures Reachable(Apply(k, act, cap), cap)
  {
    var acts :| Leads(INIT, acts, k, cap);
    LeadsThen(INIT, acts, k, act, cap);
  }

  lemma StartIsReachable(cap: nat)
    ensures Reachable(INIT, cap)
  {
    StaysPut(INIT, cap);
  }
}
