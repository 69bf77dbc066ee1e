/** The methods of the router, the webhook delivery and the recovery, each run without interruption, are runs
    of the step system over the log files and queues they change - rotations of the log included.  The
    methods here call the real ones and say which steps of the step system they took. */
module Refinement {
  import opened Events
  import opened MessageQueues
  import opened EventLogs
  import opened KernelRun
  import opened Messaging
  import opened Webhook

  /** k is the state of the step system that the log files and the queues stand for.  What is in flight
      between two calls is k's alone. */
  ghost predicate Abstracts(k: Kernel, log: EventLog, router: Router)
    reads log, router
  {
    && Laid(log.files, log.rotations)
    && k.log == log.History()
    && k.cut == log.Cut()
    && k.queues == router.queues
  }

  lemma NextIsLast(log: EventLog)
    requires log.Valid()
    ensures NextSequence(log.History()) == log.lastSeq + 1
  {
  }

  lemma WithoutLast(s: seq<Message>, m: Message)
    ensures Without(s + [m], |s|) == s && (s + [m])[|s|] == m
  {
    assert s + [] == s;
  }

  // ---- an append, and the rotation it may cause ----

  function Turned(k: Kernel, rotated: bool): Kernel {
    if rotated then k.(cut := |k.log|) else k
  }

  function Turn(rotated: bool): seq<Action> {
    if rotated then [Rotate] else []
  }

  lemma AppendLeads(k: Kernel, acts: seq<Action>, k1: Kernel, act: Action, rotated: bool, cap: nat)
    requires Leads(k, acts, k1, cap) && Enabled(k1, act, cap) && Apply(k1, act, cap).cut <= |Apply(k1, act, cap).log|
    ensures Leads(k, acts + [act] + Turn(rotated), Turned(Apply(k1, act, cap), rotated), cap)
  {
    LeadsThen(k, acts, k1, act, cap);
    if rotated {
      LeadsThen(k, acts + [act], Apply(k1, act, cap), Rotate, cap);
    } else {
      assert acts + [act] + [] == acts + [act];
    }
  }

  /** Any other append, of a registration or of a state write, is a step of its own and moves no message. */
  method AppendOther(router: Router, log: EventLog, agent: string, data: Payload, ts: int, nanos: nat, ghost k: Kernel)
    returns (ghost acts: seq<Action>, ghost k': Kernel)
    requires router.Valid() && log.Valid() && Clock(log.rotations + [nanos])
    requires Abstracts(k, log, router) && !data.MessageSent? && !data.MessageDelivered?
    modifies log
    ensures log.Valid()
    ensures Leads(k, acts, k', router.maxQueuePerAgent) && Abstracts(k', log, router)
    ensures acts == [] + [LogOther(agent, data, ts)] + Turn(log.rotations != old(log.rotations))
    ensures k'.awaiting == k.awaiting && k'.delivering == k.delivering && k'.handed == k.handed && k'.queues == k.queues
  {
    NextIsLast(log);
    var e := log.Append(ts, agent, data, nanos);
    ghost var act, rotated := LogOther(agent, data, ts), log.rotations != old(log.rotations);
    StaysPut(k, router.maxQueuePerAgent);
    AppendLeads(k, [], k, act, rotated, router.maxQueuePerAgent);
    acts := [] + [act] + Turn(rotated);
    k' := Turned(Apply(k, act, router.maxQueuePerAgent), rotated);
  }

  // ---- Send ----

  function SendActions(k: Kernel, m: Message, ts: int, rotated: bool, push: bool): seq<Action> {
    [] + [LogSend(m, ts)] + Turn(rotated) + [if push then TriggerPush(|k.awaiting|) else TriggerQueue(|k.awaiting|)]
  }

  function AfterSend(k: Kernel, m: Message, ts: int, rotated: bool, push: bool, cap: nat): Kernel
    requires cap >= 1
  {
    var k1 := Turned(k.(log := k.log + [SentEvent(k, m, ts)]), rotated);
    if push then k1.(delivering := k.delivering + [m]) else Put(k1, m, cap)
  }

  lemma SendLeads(k: Kernel, m: Message, ts: int, rotated: bool, push: bool, cap: nat)
    requires Enabled(k, LogSend(m, ts), cap)
    ensures Leads(k, SendActions(k, m, ts, rotated, push), AfterSend(k, m, ts, rotated, push, cap), cap)
  {
    var k1 := Turned(Apply(k, LogSend(m, ts), cap), rotated);
    StaysPut(k, cap);
    AppendLeads(k, [], k, LogSend(m, ts), rotated, cap);
    WithoutLast(k.awaiting, m);
    var act := if push then TriggerPush(|k.awaiting|) else TriggerQueue(|k.awaiting|);
    LeadsThen(k, [] + [LogSend(m, ts)] + Turn(rotated), k1, act, cap);
    assert k1.(awaiting := k.awaiting) == Turned(k.(log := k.log + [SentEvent(k, m, ts)]), rotated);
  }

  /** Send: the append step, a rotation if the file is full, and then the queue step or the start of a
      delivery; a refused message takes no step. */
  method Send(router: Router, log: EventLog, from: string, to: string, content: string, id: string, hasWebhook: bool,
              sentAt: int, loggedAt: int, nanos: nat, ghost k: Kernel)
    returns (r: Result<Message, SendError>, push: bool, ghost acts: seq<Action>, ghost k': Kernel)
    requires router.Valid() && log.Valid() && Clock(log.rotations + [nanos])
    requires Abstracts(k, log, router) && FreshId(k.log, id)
    modifies router, log
    ensures router.Valid() && log.Valid()
    ensures Leads(k, acts, k', router.maxQueuePerAgent) && Abstracts(k', log, router)
    ensures r.Err? <==> to == "" || |content| > router.maxContentLength
    ensures r.Err? ==> acts == []
    ensures r.Ok? ==> acts == SendActions(k, r.value, loggedAt, log.rotations != old(log.rotations), push) && push == hasWebhook
    ensures k'.awaiting == k.awaiting && k'.handed == k.handed
    ensures k'.delivering == if r.Ok? && push then k.delivering + [r.value] else k.delivering
  {
    NextIsLast(log);
    r, push := router.Send(log, from, to, content, id, hasWebhook, sentAt, loggedAt, nanos);
    if r.Err? {
      acts, k' := [], k;
      StaysPut(k, router.maxQueuePerAgent);
    } else {
      ghost var rotated := log.rotations != old(log.rotations);
      acts := SendActions(k, r.value, loggedAt, rotated, push);
      k' := AfterSend(k, r.value, loggedAt, rotated, push, router.maxQueuePerAgent);
      SendLeads(k, r.value, loggedAt, rotated, push, router.maxQueuePerAgent);
    }
  }

  // ---- the delivery it may start ----

  function DeliverActions(k: Kernel, i: nat, loggedAt: int, rotated: bool, pushed: bool): seq<Action> {
    if pushed then [] + [PushOk(i)] + [LogDelivery(|k.handed|, "push", loggedAt)] + Turn(rotated) else [PushFail(i)]
  }

  function AfterDeliver(k: Kernel, i: nat, loggedAt: int, rotated: bool, pushed: bool, cap: nat): Kernel
    requires cap >= 1 && i < |k.delivering|
  {
    var k1 := k.(delivering := Without(k.delivering, i));
    if pushed then Turned(k1.(log := k.log + [DeliveredEvent(k, k.delivering[i], "push", loggedAt)]), rotated)
    else Put(k1, k.delivering[i], cap)
  }

  lemma DeliverLeads(k: Kernel, i: nat, loggedAt: int, rotated: bool, pushed: bool, cap: nat)
    requires cap >= 1 && k.cut <= |k.log| && i < |k.delivering|
    ensures Leads(k, DeliverActions(k, i, loggedAt, rotated, pushed), AfterDeliver(k, i, loggedAt, rotated, pushed, cap), cap)
  {
    if pushed {
      var k1 := Apply(k, PushOk(i), cap);
      var act := LogDelivery(|k.handed|, "push", loggedAt);
      StaysPut(k, cap);
      LeadsThen(k, [], k, PushOk(i), cap);
      WithoutLast(k.handed, k.delivering[i]);
      AppendLeads(k, [] + [PushOk(i)], k1, act, rotated, cap);
      assert Apply(k1, act, cap) == k.(delivering := Without(k.delivering, i),
                                       log := k.log + [DeliveredEvent(k, k.delivering[i], "push", loggedAt)]);
    } else {
      LeadsOne(k, PushFail(i), cap);
    }
  }

  /** Deliver: the successful attempt, its append and a rotation if the file is full; or the fallback step. */
  method Deliver(delivery: Delivery, router: Router, log: EventLog, msg: Message, startedAt: nat, finishedAt: nat,
                 succeeds: seq<bool>, stops: seq<bool>, loggedAt: int, nanos: nat, ghost k: Kernel, ghost i: nat)
    returns (ending: Ending, ghost acts: seq<Action>, ghost k': Kernel)
    requires delivery.Valid() && router.Valid() && log.Valid() && Clock(log.rotations + [nanos])
    requires |succeeds| == |stops| == delivery.maxRetries + 1
    requires Abstracts(k, log, router) && i < |k.delivering| && k.delivering[i] == msg
    modifies delivery, router, log
    ensures delivery.Valid() && router.Valid() && log.Valid()
    ensures Leads(k, acts, k', router.maxQueuePerAgent) && Abstracts(k', log, router)
    ensures acts == DeliverActions(k, i, loggedAt, log.rotations != old(log.rotations), ending.Pushed?)
    ensures k'.awaiting == k.awaiting && k'.handed == k.handed && k'.delivering == Without(k.delivering, i)
  {
    NextIsLast(log);
    var attempts, waited;
    ending, attempts, waited := delivery.Deliver(log, router, msg, startedAt, finishedAt, succeeds, stops, loggedAt, nanos);
    ghost var rotated := log.rotations != old(log.rotations);
    acts := DeliverActions(k, i, loggedAt, rotated, ending.Pushed?);
    k' := AfterDeliver(k, i, loggedAt, rotated, ending.Pushed?, router.maxQueuePerAgent);
    DeliverLeads(k, i, loggedAt, rotated, ending.Pushed?, router.maxQueuePerAgent);
  }

  // ---- Receive ----

  /** The delivery appends of one Receive, first message first, each with the rotation it caused; `at` is
      where the messages start among those handed over. */
  function PullActions(at: nat, times: seq<int>, rotated: seq<bool>): seq<Action>
    requires |rotated| <= |times|
  {
    if rotated == [] then []
    else
      var n := |rotated| - 1;
      PullActions(at, times, rotated[..n]) + [LogDelivery(at, "pull", times[n])] + Turn(rotated[n])
  }

  function LastSequence(log: seq<Event>): int {
    NextSequence(log) - 1
  }

  /** After the appends for the first n messages. */
  function AfterPulls(k: Kernel, handed: seq<Message>, messages: seq<Message>, agent: string, times: seq<int>,
                      rotated: seq<bool>, n: nat): Kernel
    requires n <= |messages| == |rotated| <= |times|
  {
    k.(handed := handed + messages[n..],
       log := k.log + PullEvents(messages[..n], agent, LastSequence(k.log), times),
       cut := CutAfter(k.cut, |k.log|, rotated[..n]))
  }

  lemma {:induction false} PullsLead(k: Kernel, handed: seq<Message>, messages: seq<Message>, agent: string, times: seq<int>,
                                     rotated: seq<bool>, n: nat, cap: nat)
    requires cap >= 1 && k.cut <= |k.log| && k.handed == handed + messages && n <= |messages| == |rotated| <= |times|
    requires forall m <- messages :: m.to == agent
    ensures Leads(k, PullActions(|handed|, times, rotated[..n]), AfterPulls(k, handed, messages, agent, times, rotated, n), cap)
    ensures AfterPulls(k, handed, messages, agent, times, rotated, n).cut <= |k.log| + n
  {
    if n == 0 {
      assert messages[0..] == messages && k.log + [] == k.log;
      StaysPut(k, cap);
    } else {
      PullsLead(k, handed, messages, agent, times, rotated, n - 1, cap);
      PullLeads(k, handed, messages, agent, times, rotated, n, cap);
      assert rotated[..n][..n - 1] == rotated[..n - 1];
    }
  }

  lemma PullLeads(k: Kernel, handed: seq<Message>, messages: seq<Message>, agent: string, times: seq<int>,
                  rotated: seq<bool>, n: nat, cap: nat)
    requires cap >= 1 && 0 < n <= |messages| == |rotated| <= |times| && forall m <- messages :: m.to == agent
    requires Leads(k, PullActions(|handed|, times, rotated[..n - 1]), AfterPulls(k, handed, messages, agent, times, rotated, n - 1), cap)
    requires AfterPulls(k, handed, messages, agent, times, rotated, n - 1).cut <= |k.log| + n - 1
    ensures Leads(k, PullActions(|handed|, times, rotated[..n - 1]) + [LogDelivery(|handed|, "pull", times[n - 1])] + Turn(rotated[n - 1]),
                  AfterPulls(k, handed, messages, agent, times, rotated, n), cap)
    ensures AfterPulls(k, handed, messages, agent, times, rotated, n).cut <= |k.log| + n
  {
    var k1 := AfterPulls(k, handed, messages, agent, times, rotated, n - 1);
    var act := LogDelivery(|handed|, "pull", times[n - 1]);
    AppendLeads(k, PullActions(|handed|, times, rotated[..n - 1]), k1, act, rotated[n - 1], cap);
    PullStep(k, handed, messages, agent, times, rotated, n, cap);
  }

  /** One append on the state after the first n - 1. */
  lemma PullStep(k: Kernel, handed: seq<Message>, messages: seq<Message>, agent: string, times: seq<int>,
                 rotated: seq<bool>, n: nat, cap: nat)
    requires cap >= 1 && 0 < n <= |messages| == |rotated| <= |times| && messages[n - 1].to == agent
    requires AfterPulls(k, handed, messages, agent, times, rotated, n - 1).cut <= |k.log| + n - 1
    ensures var k1 := AfterPulls(k, handed, messages, agent, times, rotated, n - 1);
            var act := LogDelivery(|handed|, "pull", times[n - 1]);
            && Enabled(k1, act, cap)
            && AfterPulls(k, handed, messages, agent, times, rotated, n) == Turned(Apply(k1, act, cap), rotated[n - 1])
  {
    var k1 := AfterPulls(k, handed, messages, agent, times, rotated, n - 1);
    assert k1.handed[|handed|] == messages[n - 1] && Without(k1.handed, |handed|) == handed + messages[n..];
    NextAfterPulls(k.log, messages[..n - 1], agent, times);
    PullEventsNext(k.log, messages, agent, LastSequence(k.log), times, n - 1);
    CutNext(k.cut, |k.log|, rotated[..n - 1], rotated[n - 1]);
    assert rotated[..n] == rotated[..n - 1] + [rotated[n - 1]];
  }

  lemma NextAfterPulls(log: seq<Event>, messages: seq<Message>, agent: string, times: seq<int>)
    requires |messages| <= |times|
    ensures NextSequence(log + PullEvents(messages, agent, LastSequence(log), times)) == NextSequence(log) + |messages|
  {
    if messages == [] {
      assert log + [] == log;
    } else {
      var es := PullEvents(messages, agent, LastSequence(log), times);
      assert Last(log + es) == es[|es| - 1];
    }
  }

  /** The dequeue, on the step system. */
  lemma TakeThenPulls(k: Kernel, agent: string, limit: int, times: seq<int>, rotated: seq<bool>, cap: nat)
    requires cap >= 1 && k.cut <= |k.log| && |rotated| == TakeCount(k.queues, agent, limit) <= |times|
    requires forall m <- QueueOf(k.queues, agent) :: m.to == agent
    ensures var n := TakeCount(k.queues, agent, limit); var messages := QueueOf(k.queues, agent)[..n];
            Leads(k, [Take(agent, limit)] + PullActions(|k.handed|, times, rotated),
                  k.(queues := AfterTake(k.queues, agent, n),
                     log := k.log + PullEvents(messages, agent, LastSequence(k.log), times),
                     cut := CutAfter(k.cut, |k.log|, rotated)), cap)
  {
    var n := TakeCount(k.queues, agent, limit);
    var messages := QueueOf(k.queues, agent)[..n];
    var k1 := Apply(k, Take(agent, limit), cap);
    LeadsOne(k, Take(agent, limit), cap);
    PullsLead(k1, k.handed, messages, agent, times, rotated, n, cap);
    assert rotated[..n] == rotated && messages[..n] == messages && k.handed + messages[n..] == k.handed;
    LeadsOn(k, [Take(agent, limit)], k1, PullActions(|k.handed|, times, rotated),
            AfterPulls(k1, k.handed, messages, agent, times, rotated, n), cap);
  }

  /** Receive: the dequeue step, then one append step per message, each with the rotation it caused; nothing
      stays handed over but unlogged. */
  method Receive(router: Router, log: EventLog, agent: string, limit: int, times: seq<int>, stamps: seq<nat>, ghost k: Kernel)
    returns (messages: seq<Message>, remaining: nat, ghost rotated: seq<bool>, ghost acts: seq<Action>, ghost k': Kernel)
    requires router.Valid() && log.Valid() && |times| == |stamps| == 100 && Clock(log.rotations + stamps)
    requires Abstracts(k, log, router) && forall m <- QueueOf(k.queues, agent) :: m.to == agent
    modifies router, log
    ensures router.Valid() && log.Valid()
    ensures Leads(k, acts, k', router.maxQueuePerAgent) && Abstracts(k', log, router)
    ensures |rotated| == |messages| <= 100 && acts == [Take(agent, limit)] + PullActions(|k.handed|, times, rotated)
    ensures messages == QueueOf(k.queues, agent)[..TakeCount(k.queues, agent, limit)]
    ensures var queue := QueueOf(k.queues, agent);
            && (1 <= limit <= 100 ==> |messages| == if limit < |queue| then limit else |queue|)
            && (limit <= 0 ==> |messages| == if 50 < |queue| then 50 else |queue|)
            && (limit > 100 ==> |messages| == if 100 < |queue| then 100 else |queue|)
    ensures k'.awaiting == k.awaiting && k'.handed == k.handed && k'.delivering == k.delivering
  {
    NextIsLast(log);
    messages, remaining, rotated := router.Receive(log, agent, limit, times, stamps);
    TakeThenPulls(k, agent, limit, times, rotated, router.maxQueuePerAgent);
    acts := [Take(agent, limit)] + PullActions(|k.handed|, times, rotated);
    k' := k.(queues := AfterTake(k.queues, agent, |messages|),
             log := k.log + PullEvents(messages, agent, LastSequence(k.log), times),
             cut := CutAfter(k.cut, |k.log|, rotated));
  }

  // ---- recovery ----

  /** Recovery from the log files is the restart step, for any rotation layout. */
  method RecoverQueues(log: EventLog, maxContentLength: nat, maxQueuePerAgent: nat, ghost k: Kernel)
    returns (router: Router, ghost k': Kernel)
    requires log.Valid() && maxQueuePerAgent >= 1 && k.log == log.History() && k.cut == log.Cut()
    ensures fresh(router) && router.Valid() && router.maxQueuePerAgent == maxQueuePerAgent
    ensures Leads(k, [Restart], k', maxQueuePerAgent) && Abstracts(k', log, router)
    ensures forall a :: forall m <- QueueOf(router.queues, a) :: m.to == a && RecordedIn(k.log, m)
  {
    router := Recover(log, maxContentLength, maxQueuePerAgent);
    k' := Restarted(k, maxQueuePerAgent);
    LeadsOne(k, Restart, maxQueuePerAgent);
    forall a ensures QueueOf(router.queues, a) == QueueOf(k'.queues, a) {
      RecoverIsRestart(log.files, log.rotations, k, a, maxQueuePerAgent);
    }
    SameQueues(router.queues, k'.queues);
  }

  lemma SameQueues(x: map<string, seq<Message>>, y: map<string, seq<Message>>)
    requires (forall a <- x :: x[a] != []) && (forall a <- y :: y[a] != [])
    requires forall a :: QueueOf(x, a) == QueueOf(y, a)
    ensures x == y
  {
    forall a ensures a in x <==> a in y {
      assert QueueOf(x, a) == QueueOf(y, a);
    }
    forall a | a in x && a in y ensures x[a] == y[a] {
      assert QueueOf(x, a) == QueueOf(y, a);
    }
  }
}
