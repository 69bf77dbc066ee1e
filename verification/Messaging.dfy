/** The message router, and the kernel's recovery of its queues from the event log. */
module Messaging {
  import opened Events
  import opened MessageQueues
  import opened EventLogs
  import KernelRun

  datatype SendError = EmptyRecipient | ContentTooLong

  class Router {
    var queues: map<string, seq<Message>>
    const maxContentLength: nat
    const maxQueuePerAgent: nat

    predicate Valid()
      reads this
    {
      maxQueuePerAgent >= 1 && forall a <- queues :: queues[a] != [] && |queues[a]| <= maxQueuePerAgent
    }

    constructor (maxContentLength: nat, maxQueuePerAgent: nat)
      requires maxQueuePerAgent >= 1
      ensures Valid() && queues == map[]
      ensures this.maxContentLength == maxContentLength && this.maxQueuePerAgent == maxQueuePerAgent
    {
      queues := map[];
      this.maxContentLength := maxContentLength;
      this.maxQueuePerAgent := maxQueuePerAgent;
    }

    /** queueMessage, also QueueForPull and ApplyMessageSent. */
    method QueueMessage(msg: Message)
      requires Valid()
      modifies this
      ensures Valid() && queues == PutQueue(old(queues), msg, maxQueuePerAgent)
    {
      var queue := if msg.to in queues then queues[msg.to] else [];
      if |queue| >= maxQueuePerAgent {
        queue := queue[1..];
      }
      queues := queues[msg.to := queue + [msg]];
    }

    /** Send, for an agent without (push == false) or with a webhook: a message is logged before it is
        queued or handed to a delivery; a refused one leaves no trace. */
    method Send(log: EventLog, from: string, to: string, content: string, id: string, hasWebhook: bool,
                sentAt: int, loggedAt: int, nanos: nat)
      returns (r: Result<Message, SendError>, push: bool)
      requires Valid() && log.Valid() && Clock(log.rotations + [nanos])
      modifies this, log
      ensures Valid() && log.Valid()
      ensures r.Err? <==> to == "" || |content| > maxContentLength
      ensures r.Err? ==> r.error == if to == "" then EmptyRecipient else ContentTooLong
      ensures r.Err? ==> !push && queues == old(queues) && log.History() == old(log.History())
      ensures r.Ok? ==> r.value == Message(id, from, to, content, sentAt) && push == hasWebhook
      ensures var e := Event(old(log.lastSeq) + 1, loggedAt, from, MessageSent(id, from, to, content, |content|));
              r.Ok? ==> log.History() == old(log.History()) + [e]
      ensures log.Cut() == if log.rotations == old(log.rotations) then old(log.Cut()) else |log.History()|
      ensures r.Err? ==> log.rotations == old(log.rotations)
      ensures r.Ok? ==> queues == if push then old(queues) else PutQueue(old(queues), r.value, maxQueuePerAgent)
    {
      push := false;
      if to == "" {
        return Err(EmptyRecipient), push;
      }
      if |content| > maxContentLength {
        return Err(ContentTooLong), push;
      }
      var msg := Message(id, from, to, content, sentAt);
      var _ := log.Append(loggedAt, from, MessageSent(id, from, to, content, |content|), nanos);
      if hasWebhook {
        push := true;
      } else {
        QueueMessage(msg);
      }
      r := Ok(msg);
    }

    /** The part of Receive under the lock. */
    method Take(agent: string, limit: int) returns (messages: seq<Message>, remaining: nat)
      requires Valid()
      modifies this
      ensures Valid()
      ensures messages == QueueOf(old(queues), agent)[..TakeCount(old(queues), agent, limit)]
      ensures var queue := QueueOf(old(queues), agent);
              && (1 <= limit <= 100 ==> |messages| == if limit < |queue| then limit else |queue|)
              && (limit <= 0 ==> |messages| == if 50 < |queue| then 50 else |queue|)
              && (limit > 100 ==> |messages| == if 100 < |queue| then 100 else |queue|)
      ensures queues == AfterTake(old(queues), agent, |messages|)
      ensures remaining == |QueueOf(queues, agent)| && messages + QueueOf(queues, agent) == QueueOf(old(queues), agent)
    {
      var n := if limit <= 0 then 50 else limit;
      if n > 100 {
        n := 100;
      }
      var queue := if agent in queues then queues[agent] else [];
      if n > |queue| {
        n := |queue|;
      }
      messages := queue[..n];
      queues := queues[agent := queue[n..]];
      remaining := |queues[agent]|;
      if remaining == 0 {
        queues := queues - {agent};
      }
    }

    /** Receive: hand over the oldest messages, then log a delivery for each, in order.  `times` and
        `stamps` give the time and the rotation stamp of each append; `rotated` tells which appends
        filled the file. */
    method Receive(log: EventLog, agent: string, limit: int, times: seq<int>, stamps: seq<nat>)
      returns (messages: seq<Message>, remaining: nat, ghost rotated: seq<bool>)
      requires Valid() && log.Valid() && |times| == |stamps| == 100 && Clock(log.rotations + stamps)
      modifies this, log
      ensures Valid() && log.Valid()
      ensures messages == QueueOf(old(queues), agent)[..TakeCount(old(queues), agent, limit)]
      ensures var queue := QueueOf(old(queues), agent);
              && (1 <= limit <= 100 ==> |messages| == if limit < |queue| then limit else |queue|)
              && (limit <= 0 ==> |messages| == if 50 < |queue| then 50 else |queue|)
              && (limit > 100 ==> |messages| == if 100 < |queue| then 100 else |queue|)
      ensures queues == AfterTake(old(queues), agent, |messages|) && remaining == |QueueOf(queues, agent)|
      ensures |messages| <= 100
      ensures log.History() == old(log.History()) + PullEvents(messages, agent, old(log.lastSeq), times)
      ensures |rotated| == |messages| && log.Cut() == CutAfter(old(log.Cut()), |old(log.History())|, rotated)
    {
      messages, remaining := Take(agent, limit);
      rotated := LogPulls(log, messages, agent, times, stamps);
    }

    /** The part of Receive after the lock is released. */
    static method LogPulls(log: EventLog, messages: seq<Message>, agent: string, times: seq<int>, stamps: seq<nat>)
      returns (ghost rotated: seq<bool>)
      requires log.Valid() && |messages| <= |times| == |stamps| && Clock(log.rotations + stamps)
      modifies log
      ensures log.Valid() && log.lastSeq == old(log.lastSeq) + |messages|
      ensures log.History() == old(log.History()) + PullEvents(messages, agent, old(log.lastSeq), times)
      ensures |rotated| == |messages| && log.Cut() == CutAfter(old(log.Cut()), |old(log.History())|, rotated)
    {
      ghost var start := log.lastSeq;
      ghost var before := log.History();
      rotated := [];
      assert before + [] == before && stamps[0..] == stamps;
      for i := 0 to |messages|
        invariant log.Valid() && Clock(log.rotations + stamps[i..])
        invariant log.lastSeq == start + i
        invariant log.History() == before + PullEvents(messages[..i], agent, start, times)
        invariant |rotated| == i && log.Cut() == CutAfter(old(log.Cut()), |before|, rotated)
      {
        assert stamps[i..][1..] == stamps[i + 1..];
        PullEventsNext(before, messages, agent, start, times, i);
        var e, turned := LogPull(log, messages[i].id, agent, times[i], stamps[i..]);
        CutNext(old(log.Cut()), |before|, rotated, turned);
        rotated := rotated + [turned];
      }
      assert messages[..|messages|] == messages;
    }

    static method LogPull(log: EventLog, id: string, agent: string, time: int, stamps: seq<nat>)
      returns (e: Event, ghost turned: bool)
      requires log.Valid() && stamps != [] && Clock(log.rotations + stamps)
      modifies log
      ensures log.Valid() && Clock(log.rotations + stamps[1..])
      ensures e == Event(old(log.lastSeq) + 1, time, agent, MessageDelivered(id, agent, "pull")) && log.lastSeq == e.sequence
      ensures log.History() == old(log.History()) + [e]
      ensures turned == (log.rotations != old(log.rotations))
      ensures log.Cut() == if turned then |log.History()| else old(log.Cut())
    {
      ClockNext(log.rotations, stamps);
      e := log.Append(time, agent, MessageDelivered(id, agent, "pull"), stamps[0]);
      turned := log.rotations != old(log.rotations);
    }

    /** ApplyMessageDelivered: take the first message with the id out of the queue. */
    method ApplyMessageDelivered(messageId: string, to: string)
      requires Valid()
      modifies this
      ensures Valid()
      ensures forall a :: QueueOf(queues, a) == if a == to then Removed(QueueOf(old(queues), a), messageId) else QueueOf(old(queues), a)
    {
      var queue := if to in queues then queues[to] else [];
      for i := 0 to |queue|
        invariant queues == old(queues)
        invariant forall k :: 0 <= k < i ==> queue[k].id != messageId
      {
        if queue[i].id == messageId {
          RemovedAt(queue, i, messageId);
          queues := queues[to := queue[..i] + queue[i + 1..]];
          if |queues[to]| == 0 {
            queues := queues - {to};
          }
          return;
        }
      }
      RemovedNowhere(queue, messageId);
    }
  }

  lemma {:induction false} RemovedAt(queue: seq<Message>, i: nat, id: string)
    requires i < |queue| && queue[i].id == id && forall k :: 0 <= k < i ==> queue[k].id != id
    ensures Removed(queue, id) == queue[..i] + queue[i + 1..]
  {
    if i > 0 {
      RemovedAt(queue[1..], i - 1, id);
      assert queue[..i] == [queue[0]] + queue[1..][..i - 1];
    }
  }

  lemma {:induction false} RemovedNowhere(queue: seq<Message>, id: string)
    requires forall k :: 0 <= k < |queue| ==> queue[k].id != id
    ensures Removed(queue, id) == queue
  {
    if queue != [] {
      RemovedNowhere(queue[1..], id);
      assert queue == [queue[0]] + queue[1..];
    }
  }

  /** The events Receive logs for the messages it handed over. */
  function PullEvents(messages: seq<Message>, agent: string, lastSeq: int, times: seq<int>): seq<Event>
    requires |messages| <= |times|
  {
    seq(|messages|, i requires 0 <= i < |messages| =>
      Event(lastSeq + i + 1, times[i], agent, MessageDelivered(messages[i].id, agent, "pull")))
  }

  /** How many of the events are in rotated files after some appends to a history of n events. */
  function CutAfter(cut: nat, n: nat, rotated: seq<bool>): nat {
    if rotated == [] then cut
    else if rotated[|rotated| - 1] then n + |rotated|
    else CutAfter(cut, n, rotated[..|rotated| - 1])
  }

  lemma CutNext(cut: nat, n: nat, rotated: seq<bool>, turned: bool)
    ensures CutAfter(cut, n, rotated + [turned]) == if turned then n + |rotated| + 1 else CutAfter(cut, n, rotated)
  {
    assert (rotated + [turned])[..|rotated|] == rotated;
  }

  lemma PullEventsNext(before: seq<Event>, messages: seq<Message>, agent: string, lastSeq: int, times: seq<int>, i: nat)
    requires i < |messages| <= |times|
    ensures before + PullEvents(messages[..i + 1], agent, lastSeq, times) == before + PullEvents(messages[..i], agent, lastSeq, times)
         + [Event(lastSeq + i + 1, times[i], agent, MessageDelivered(messages[i].id, agent, "pull"))]
  {
    assert PullEvents(messages[..i + 1], agent, lastSeq, times) == PullEvents(messages[..i], agent, lastSeq, times)
        + [Event(lastSeq + i + 1, times[i], agent, MessageDelivered(messages[i].id, agent, "pull"))];
  }

  /** However an append may rotate, the rest of the clock readings still lie ahead. */
  lemma ClockNext(rotations: seq<nat>, stamps: seq<nat>)
    requires Clock(rotations + stamps) && stamps != []
    ensures Clock(rotations + [stamps[0]]) && Clock(rotations + stamps[1..]) && Clock((rotations + [stamps[0]]) + stamps[1..])
  {
    var all := rotations + stamps;
    assert (rotations + [stamps[0]]) + stamps[1..] == all;
    var x := rotations + [stamps[0]];
    assert forall i :: 0 <= i < |x| ==> x[i] == all[i];
    assert forall t <- x :: t in all by {
      forall t <- x ensures t in all {
        var i :| 0 <= i < |x| && x[i] == t;
        assert all[i] == t;
      }
    }
    var y := rotations + stamps[1..];
    assert forall i :: 0 <= i < |y| ==> y[i] == all[if i < |rotations| then i else i + 1];
    forall t <- y ensures t in all {
      var i :| 0 <= i < |y| && y[i] == t;
      assert all[if i < |rotations| then i else i + 1] == t;
    }
  }

  /** A queue after replaying some more events. */
  function AppliedAll(q: seq<Message>, events: seq<Event>, a: string, cap: nat): seq<Message>
    requires cap >= 1
  {
    if events == [] then q else Applied(AppliedAll(q, Front(events), a, cap), Last(events), a, cap)
  }

  lemma {:induction false} ReplayedOn(done: seq<Event>, events: seq<Event>, a: string, cap: nat)
    requires cap >= 1
    ensures Replayed(done + events, a, cap) == AppliedAll(Replayed(done, a, cap), events, a, cap)
  {
    if events == [] {
      assert done + events == done;
    } else {
      assert done + events == (done + Front(events)) + [Last(events)];
      LogGrows(done + Front(events), Last(events));
      ReplayedOn(done, Front(events), a, cap);
    }
  }

  /** The replay callback. */
  method ReplayEvent(router: Router, e: Event)
    requires router.Valid()
    modifies router
    ensures router.Valid()
    ensures forall a :: QueueOf(router.queues, a) == Applied(QueueOf(old(router.queues), a), e, a, router.maxQueuePerAgent)
  {
    match e.data
    case MessageSent(_, _, _, _, _) => router.QueueMessage(MessageOf(e));
    case MessageDelivered(id, to, _) => router.ApplyMessageDelivered(id, to);
    case _ =>
  }

  /** replayFile. */
  method ReplayFile(router: Router, events: seq<Event>)
    requires router.Valid()
    modifies router
    ensures router.Valid()
    ensures forall a :: QueueOf(router.queues, a) == AppliedAll(QueueOf(old(router.queues), a), events, a, router.maxQueuePerAgent)
  {
    for j := 0 to |events|
      invariant router.Valid()
      invariant forall a :: QueueOf(router.queues, a) == AppliedAll(QueueOf(old(router.queues), a), events[..j], a, router.maxQueuePerAgent)
    {
      LogGrows(events[..j], events[j]);
      assert events[..j + 1] == events[..j] + [events[j]];
      ReplayEvent(router, events[j]);
    }
    assert events[..|events|] == events;
  }

  /** NewWithConfig: replay the log files in listing order into an empty router.  Every queue is what
      replaying the current file and then the rotated ones yields. */
  method Recover(log: EventLog, maxContentLength: nat, maxQueuePerAgent: nat) returns (router: Router)
    requires log.Valid() && maxQueuePerAgent >= 1
    ensures fresh(router) && router.Valid() && router.maxQueuePerAgent == maxQueuePerAgent
    ensures forall a :: QueueOf(router.queues, a) == Replayed(AllEvents(log.files), a, maxQueuePerAgent)
    ensures forall a :: forall m <- QueueOf(router.queues, a) :: m.to == a && RecordedIn(log.History(), m)
    ensures AllEvents(log.files) == log.files[CURRENT_NAME] + Older(log.files, log.rotations)
    ensures log.History() == Older(log.files, log.rotations) + log.files[CURRENT_NAME]
  {
    router := new Router(maxContentLength, maxQueuePerAgent);
    var names := Listing(log.files);
    ghost var done: seq<Event> := [];
    for i := 0 to |names|
      invariant fresh(router) && router.Valid() && router.maxQueuePerAgent == maxQueuePerAgent
      invariant (forall n <- names[..i] :: n in log.files) && done == Contents(log.files, names[..i])
      invariant forall a :: QueueOf(router.queues, a) == Replayed(done, a, maxQueuePerAgent)
    {
      var events := log.files[names[i]];
      ReplayFile(router, events);
      forall a ensures QueueOf(router.queues, a) == Replayed(done + events, a, maxQueuePerAgent) {
        ReplayedOn(done, events, a, maxQueuePerAgent);
      }
      done := done + events;
      ContentsNext(log.files, names, i);
    }
    assert names[..|names|] == names;
    ListingOrder(log.files, log.rotations);
    forall a ensures forall m <- QueueOf(router.queues, a) :: m.to == a && RecordedIn(log.History(), m) {
      RecoveredAreLogged(log.files, log.rotations, a, maxQueuePerAgent);
    }
  }

  lemma RecoveredAreLogged(dir: Directory, times: seq<nat>, a: string, cap: nat)
    requires cap >= 1 && Laid(dir, times)
    ensures forall m <- Replayed(AllEvents(dir), a, cap) :: m.to == a && RecordedIn(HistoryOf(dir, times), m)
  {
    ListingOrder(dir, times);
    ReplayedAreLogged(AllEvents(dir), a, cap);
    forall m <- Replayed(AllEvents(dir), a, cap) ensures RecordedIn(HistoryOf(dir, times), m) {
      var e :| e in AllEvents(dir) && Records(e, m);
      assert e in HistoryOf(dir, times);
    }
  }

  /** The listing order is the replay order of the step system: its restart builds the queues Recover builds. */
  lemma RecoverIsRestart(dir: Directory, times: seq<nat>, k: KernelRun.Kernel, a: string, cap: nat)
    requires Laid(dir, times) && cap >= 1
    requires k.log == HistoryOf(dir, times) && k.cut == |Older(dir, times)|
    ensures Replayed(AllEvents(dir), a, cap) == QueueOf(KernelRun.Restarted(k, cap).queues, a)
  {
    ListingOrder(dir, times);
    assert KernelRun.ReplayOrder(k) == AllEvents(dir);
    KernelRun.RestartedQueues(k, a, cap);
  }
}
