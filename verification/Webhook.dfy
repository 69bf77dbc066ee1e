/** Push delivery: retries with exponential backoff, a circuit breaker per agent, and the fallback to
    the pull queue.  The network is an oracle that says which attempt succeeds; time is in seconds. */
module Webhook {
  import opened Events
  import opened MessageQueues
  import opened EventLogs
  import opened Messaging
  import opened Powers

  datatype Circuit = Circuit(failures: nat, openUntil: int)

  /** How one call of Deliver ended. */
  datatype Ending = Rejected | Pushed | Interrupted | Exhausted

  datatype Call = Call(agent: string, ending: Ending, finishedAt: int)

  // ---- the breaker as a function of the calls made so far ----

  /** Exhausted deliveries to `a` since its last success. */
  function Failures(calls: seq<Call>, a: string): nat {
    if calls == [] then 0
    else
      var rest, c := Failures(calls[..|calls| - 1], a), calls[|calls| - 1];
      if c.agent != a then rest
      else if c.ending.Pushed? then 0
      else if c.ending.Exhausted? then rest + 1
      else rest
  }

  /** When the last exhausted delivery to `a` finished; 0 if there was none. */
  function LastExhausted(calls: seq<Call>, a: string): int {
    if calls == [] then 0
    else if calls[|calls| - 1].agent == a && calls[|calls| - 1].ending.Exhausted? then calls[|calls| - 1].finishedAt
    else LastExhausted(calls[..|calls| - 1], a)
  }

  function FailuresNext(calls: seq<Call>, c: Call, a: string): nat {
    if c.agent != a then Failures(calls, a)
    else match c.ending
      case Pushed => 0
      case Exhausted => Failures(calls, a) + 1
      case _ => Failures(calls, a)
  }

  function LastNext(calls: seq<Call>, c: Call, a: string): int {
    if c.agent == a && c.ending.Exhausted? then c.finishedAt else LastExhausted(calls, a)
  }

  lemma CallNext(calls: seq<Call>, c: Call, a: string)
    ensures Failures(calls + [c], a) == FailuresNext(calls, c, a)
    ensures LastExhausted(calls + [c], a) == LastNext(calls, c, a)
  {
    assert (calls + [c])[..|calls|] == calls;
  }

  /** The circuit of `a` is open at time t: enough failures in a row, and the last of them recent. */
  predicate Open(calls: seq<Call>, a: string, t: int, threshold: int, duration: nat) {
    Failures(calls, a) > 0 && Failures(calls, a) >= threshold && t < LastExhausted(calls, a) + duration
  }

  // ---- when a delivery is refused, on the list of calls ----

  /** No delivery to `a` succeeded from call p on. */
  predicate NoPush(calls: seq<Call>, a: string, p: nat) {
    forall i :: p <= i < |calls| && calls[i].agent == a ==> !calls[i].ending.Pushed?
  }

  /** The calls from p on that gave up on `a`. */
  function GaveUp(calls: seq<Call>, a: string, p: nat): set<int> {
    set i | p <= i < |calls| && calls[i].agent == a && calls[i].ending.Exhausted?
  }

  /** At least threshold deliveries to `a` in a row gave up, with no success among them, and the last that
      did finished less than `duration` before t. */
  ghost predicate Broken(calls: seq<Call>, a: string, t: int, threshold: int, duration: nat) {
    exists p, i ::
      && 0 <= p <= i < |calls| && NoPush(calls, a, p) && |GaveUp(calls, a, p)| >= threshold
      && i in GaveUp(calls, a, p) && GaveUp(calls, a, i + 1) == {} && t < calls[i].finishedAt + duration
  }

  lemma GaveUpNext(front: seq<Call>, c: Call, a: string, p: nat)
    requires p <= |front|
    ensures GaveUp(front + [c], a, p) == GaveUp(front, a, p) + if c.agent == a && c.ending.Exhausted? then {|front|} else {}
  {
    var calls := front + [c];
    forall i ensures i in GaveUp(calls, a, p) <==> i in GaveUp(front, a, p) || (i == |front| && c.agent == a && c.ending.Exhausted?) {
      assert 0 <= i < |front| ==> calls[i] == front[i];
    }
  }

  lemma GaveUpFront(calls: seq<Call>, a: string, p: nat)
    requires p < |calls|
    ensures var c, front := calls[|calls| - 1], calls[..|calls| - 1];
            && (c.agent == a && c.ending.Exhausted? ==>
                  GaveUp(calls, a, p) == GaveUp(front, a, p) + {|calls| - 1} && |GaveUp(calls, a, p)| == |GaveUp(front, a, p)| + 1)
            && (!(c.agent == a && c.ending.Exhausted?) ==> GaveUp(calls, a, p) == GaveUp(front, a, p))
            && (NoPush(calls, a, p) <==> NoPush(front, a, p) && !(c.agent == a && c.ending.Pushed?))
  {
    var c, front := calls[|calls| - 1], calls[..|calls| - 1];
    assert calls == front + [c];
    GaveUpNext(front, c, a, p);
    NoPushNext(front, c, a, p);
    assert |front| !in GaveUp(front, a, p);
  }

  lemma NoPushNext(front: seq<Call>, c: Call, a: string, p: nat)
    requires p <= |front|
    ensures NoPush(front + [c], a, p) <==> NoPush(front, a, p) && !(c.agent == a && c.ending.Pushed?)
  {
    var calls := front + [c];
    assert calls[|front|] == c && forall i :: 0 <= i < |front| ==> calls[i] == front[i];
  }

  lemma {:induction false} FailuresAtLeast(calls: seq<Call>, a: string, p: nat)
    requires p <= |calls| && NoPush(calls, a, p)
    ensures |GaveUp(calls, a, p)| <= Failures(calls, a)
  {
    if p == |calls| {
      assert GaveUp(calls, a, p) == {};
    } else {
      GaveUpFront(calls, a, p);
      FailuresAtLeast(calls[..|calls| - 1], a, p);
    }
  }

  lemma {:induction false} FailuresReached(calls: seq<Call>, a: string) returns (p: nat)
    ensures p <= |calls| && NoPush(calls, a, p) && |GaveUp(calls, a, p)| == Failures(calls, a)
  {
    if calls == [] {
      p := 0;
      assert GaveUp(calls, a, 0) == {};
    } else {
      var c := calls[|calls| - 1];
      if c.agent == a && c.ending.Pushed? {
        p := |calls|;
        assert GaveUp(calls, a, p) == {};
      } else {
        p := FailuresReached(calls[..|calls| - 1], a);
        GaveUpFront(calls, a, p);
      }
    }
  }

  lemma {:induction false} LastExhaustedIs(calls: seq<Call>, a: string, i: nat)
    requires i in GaveUp(calls, a, 0) && GaveUp(calls, a, i + 1) == {}
    ensures LastExhausted(calls, a) == calls[i].finishedAt
  {
    if i < |calls| - 1 {
      assert |calls| - 1 !in GaveUp(calls, a, i + 1);
      GaveUpFront(calls, a, i + 1);
      LastExhaustedIs(calls[..|calls| - 1], a, i);
    }
  }

  lemma {:induction false} LastGaveUp(calls: seq<Call>, a: string, p: nat) returns (i: nat)
    requires GaveUp(calls, a, p) != {}
    ensures i in GaveUp(calls, a, p) && GaveUp(calls, a, i + 1) == {}
  {
    var j :| j in GaveUp(calls, a, p);
    var c := calls[|calls| - 1];
    if c.agent == a && c.ending.Exhausted? {
      i := |calls| - 1;
      assert GaveUp(calls, a, i + 1) == {};
    } else {
      GaveUpFront(calls, a, p);
      i := LastGaveUp(calls[..|calls| - 1], a, p);
      GaveUpFront(calls, a, i + 1);
    }
  }

  /** The breaker is open exactly when enough deliveries in a row gave up and the last of them did recently:
      rejected and interrupted deliveries do not count, and a success starts afresh. */
  lemma OpenIff(calls: seq<Call>, a: string, t: int, threshold: int, duration: nat)
    ensures Open(calls, a, t, threshold, duration) <==> Broken(calls, a, t, threshold, duration)
  {
    if Open(calls, a, t, threshold, duration) {
      var p := FailuresReached(calls, a);
      var i := LastGaveUp(calls, a, p);
      LastExhaustedIs(calls, a, i);
      assert Broken(calls, a, t, threshold, duration);
    }
    if Broken(calls, a, t, threshold, duration) {
      var p, i :| 0 <= p <= i < |calls| && NoPush(calls, a, p) && |GaveUp(calls, a, p)| >= threshold
                  && i in GaveUp(calls, a, p) && GaveUp(calls, a, i + 1) == {} && t < calls[i].finishedAt + duration;
      FailuresAtLeast(calls, a, p);
      assert {i} <= GaveUp(calls, a, p);
      OneOfSome(GaveUp(calls, a, p), i);
      LastExhaustedIs(calls, a, i);
    }
  }

  lemma OneOfSome(s: set<int>, i: int)
    requires i in s
    ensures |s| > 0
  {
  }

  function CallsOf(calls: seq<Call>, a: string): seq<Call> {
    if calls == [] then []
    else CallsOf(calls[..|calls| - 1], a) + (if calls[|calls| - 1].agent == a then [calls[|calls| - 1]] else [])
  }

  /** One agent's breaker sees that agent's deliveries only. */
  lemma {:induction false} BreakersAreIndependent(calls: seq<Call>, a: string)
    ensures Failures(calls, a) == Failures(CallsOf(calls, a), a)
    ensures LastExhausted(calls, a) == LastExhausted(CallsOf(calls, a), a)
  {
    if calls != [] {
      var rest, c := calls[..|calls| - 1], calls[|calls| - 1];
      BreakersAreIndependent(rest, a);
      var of := CallsOf(calls, a);
      if c.agent == a {
        assert of[..|of| - 1] == CallsOf(rest, a) && of[|of| - 1] == c;
      } else {
        assert of == CallsOf(rest, a);
      }
    }
  }

  /** The attempts a call made, given what the network and the waits did: all but a last successful one
      failed, no wait before an attempt was cut off, and each wait doubled the one before. */
  predicate Tried(ending: Ending, attempts: nat, waited: nat, maxRetries: nat, succeeds: seq<bool>, stops: seq<bool>)
    requires |succeeds| == |stops| == maxRetries + 1
  {
    && 0 < attempts <= maxRetries + 1
    && (forall i :: 0 <= i < attempts ==> (succeeds[i] <==> ending.Pushed? && i == attempts - 1) && (i > 0 ==> !stops[i]))
    && waited == Pow2(attempts - 1) - 1
    && match ending
       case Rejected => false
       case Pushed => true
       case Exhausted => attempts == maxRetries + 1
       case Interrupted => attempts <= maxRetries && stops[attempts]
  }

  /** No attempt before the i-th succeeded and no wait before any of those was cut off. */
  predicate Reaches(i: nat, succeeds: seq<bool>, stops: seq<bool>)
    requires i <= |succeeds| == |stops|
  {
    forall j :: 0 <= j < i ==> !succeeds[j] && (j > 0 ==> !stops[j])
  }

  /** The network and the waits determine how a call ends: with the first attempt that succeeds, with the
      first wait cut off if that comes earlier, and else after maxRetries + 1 attempts. */
  lemma TriedIff(ending: Ending, attempts: nat, waited: nat, maxRetries: nat, succeeds: seq<bool>, stops: seq<bool>)
    requires |succeeds| == |stops| == maxRetries + 1 && Tried(ending, attempts, waited, maxRetries, succeeds, stops)
    ensures ending.Pushed? <==> exists i :: 0 <= i <= maxRetries && Reaches(i, succeeds, stops) && succeeds[i] && (i > 0 ==> !stops[i])
    ensures ending.Interrupted? <==> exists i :: 0 < i <= maxRetries && Reaches(i, succeeds, stops) && stops[i]
    ensures ending.Exhausted? <==> Reaches(maxRetries + 1, succeeds, stops)
    ensures ending.Pushed? ==> Reaches(attempts - 1, succeeds, stops) && succeeds[attempts - 1]
    ensures !ending.Pushed? ==> Reaches(attempts, succeeds, stops)
    ensures ending.Interrupted? ==> stops[attempts]
    ensures ending.Exhausted? ==> attempts == maxRetries + 1
  {
    match ending
    case Pushed => assert Reaches(attempts - 1, succeeds, stops);
    case Interrupted => assert Reaches(attempts, succeeds, stops);
    case Exhausted => assert Reaches(maxRetries + 1, succeeds, stops);
  }

  /** At most maxRetries + 1 attempts, and at most 2^maxRetries - 1 seconds of full waits. */
  lemma TriedBounds(ending: Ending, attempts: nat, waited: nat, maxRetries: nat, succeeds: seq<bool>, stops: seq<bool>)
    requires |succeeds| == |stops| == maxRetries + 1 && Tried(ending, attempts, waited, maxRetries, succeeds, stops)
    ensures attempts <= maxRetries + 1 && waited <= Pow2(maxRetries) - 1
  {
    Pow2Monotone(attempts - 1, maxRetries);
  }

  /** The stored circuits are those of the simple breaker. */
  ghost predicate Mirrors(circuits: map<string, Circuit>, calls: seq<Call>, threshold: int, duration: nat) {
    && (forall a :: a in circuits <==> Failures(calls, a) > 0)
    && (forall a <- circuits :: circuits[a].failures == Failures(calls, a))
    && (forall a <- circuits :: circuits[a].openUntil ==
          if Failures(calls, a) >= threshold then LastExhausted(calls, a) + duration else 0)
  }

  class Delivery {
    const cbThreshold: int
    const cbDuration: nat
    const maxRetries: nat
    var circuits: map<string, Circuit>
    ghost var calls: seq<Call>

    ghost predicate Valid()
      reads this
    {
      Mirrors(circuits, calls, cbThreshold, cbDuration)
    }

    constructor (cbThreshold: int, cbDuration: nat, maxRetries: nat)
      ensures Valid() && calls == []
      ensures this.cbThreshold == cbThreshold && this.cbDuration == cbDuration && this.maxRetries == maxRetries
    {
      this.cbThreshold := cbThreshold;
      this.cbDuration := cbDuration;
      this.maxRetries := maxRetries;
      circuits := map[];
      calls := [];
    }

    /** Deliver one message to its recipient's webhook.  succeeds[i] is the outcome of attempt i,
        stops[i] says whether a cancellation or a shutdown cuts off the wait before it.
        The call ends in exactly one of a logged push and the fallback to the pull queue. */
    method Deliver(log: EventLog, router: Router, msg: Message, startedAt: nat, finishedAt: nat,
                   succeeds: seq<bool>, stops: seq<bool>, loggedAt: int, nanos: nat)
      returns (ending: Ending, attempts: nat, waited: nat)
      requires Valid() && log.Valid() && router.Valid() && Clock(log.rotations + [nanos])
      requires |succeeds| == |stops| == maxRetries + 1
      modifies this, log, router
      ensures Valid() && log.Valid() && router.Valid()
      ensures calls == old(calls) + [Call(msg.to, ending, finishedAt)]
      ensures ending.Rejected? <==> Broken(old(calls), msg.to, startedAt, cbThreshold, cbDuration)
      ensures if ending.Rejected? then attempts == waited == 0 else Tried(ending, attempts, waited, maxRetries, succeeds, stops)
      ensures attempts <= maxRetries + 1 && waited <= Pow2(maxRetries) - 1
      ensures !ending.Rejected? ==>
                && (ending.Pushed? <==> exists i :: 0 <= i <= maxRetries && Reaches(i, succeeds, stops) && succeeds[i] && (i > 0 ==> !stops[i]))
                && (ending.Interrupted? <==> exists i :: 0 < i <= maxRetries && Reaches(i, succeeds, stops) && stops[i])
                && (ending.Exhausted? <==> Reaches(maxRetries + 1, succeeds, stops))
                && (ending.Exhausted? ==> attempts == maxRetries + 1)
      ensures var e := Event(old(log.lastSeq) + 1, loggedAt, msg.to, MessageDelivered(msg.id, msg.to, "push"));
              log.History() == if ending.Pushed? then old(log.History()) + [e] else old(log.History())
      ensures router.queues == if ending.Pushed? then old(router.queues)
                               else PutQueue(old(router.queues), msg, router.maxQueuePerAgent)
      ensures log.Cut() == if log.rotations == old(log.rotations) then old(log.Cut()) else |log.History()|
      ensures !ending.Pushed? ==> log.rotations == old(log.rotations)
    {
      var open := BreakerOpen(msg.to, startedAt);
      if open {
        ending, attempts, waited := Rejected, 0, 0;
        Pow2Monotone(0, maxRetries);
      } else {
        ending, attempts, waited := Attempts(succeeds, stops);
        TriedBounds(ending, attempts, waited, maxRetries, succeeds, stops);
        TriedIff(ending, attempts, waited, maxRetries, succeeds, stops);
      }
      Conclude(log, router, msg, ending, finishedAt, loggedAt, nanos);
    }

    /** What is left once the attempts are over. */
    method Conclude(log: EventLog, router: Router, msg: Message, ending: Ending, finishedAt: nat, loggedAt: int, nanos: nat)
      requires Valid() && log.Valid() && router.Valid() && Clock(log.rotations + [nanos])
      modifies this, log, router
      ensures Valid() && log.Valid() && router.Valid()
      ensures calls == old(calls) + [Call(msg.to, ending, finishedAt)]
      ensures var e := Event(old(log.lastSeq) + 1, loggedAt, msg.to, MessageDelivered(msg.id, msg.to, "push"));
              log.History() == if ending.Pushed? then old(log.History()) + [e] else old(log.History())
      ensures router.queues == if ending.Pushed? then old(router.queues)
                               else PutQueue(old(router.queues), msg, router.maxQueuePerAgent)
      ensures log.Cut() == if log.rotations == old(log.rotations) then old(log.Cut()) else |log.History()|
      ensures !ending.Pushed? ==> log.rotations == old(log.rotations)
    {
      Settle(msg.to, ending, finishedAt);
      assert log.Valid() && log.History() == old(log.History()) && log.lastSeq == old(log.lastSeq);
      assert log.Cut() == old(log.Cut()) && log.rotations == old(log.rotations);
      HandOver(log, router, msg, ending.Pushed?, loggedAt, nanos);
    }

    method BreakerOpen(agent: string, now: nat) returns (open: bool)
      requires Valid()
      ensures open <==> Open(calls, agent, now, cbThreshold, cbDuration)
      ensures open <==> Broken(calls, agent, now, cbThreshold, cbDuration)
    {
      OpenIff(calls, agent, now, cbThreshold, cbDuration);
      open := agent in circuits && now < circuits[agent].openUntil;
    }

    /** Log the push, or fall back to the pull queue. */
    static method HandOver(log: EventLog, router: Router, msg: Message, pushed: bool, loggedAt: int, nanos: nat)
      requires log.Valid() && router.Valid() && Clock(log.rotations + [nanos])
      modifies log, router
      ensures log.Valid() && router.Valid()
      ensures var e := Event(old(log.lastSeq) + 1, loggedAt, msg.to, MessageDelivered(msg.id, msg.to, "push"));
              log.History() == if pushed then old(log.History()) + [e] else old(log.History())
      ensures router.queues == if pushed then old(router.queues) else PutQueue(old(router.queues), msg, router.maxQueuePerAgent)
      ensures log.Cut() == if log.rotations == old(log.rotations) then old(log.Cut()) else |log.History()|
      ensures !pushed ==> log.rotations == old(log.rotations)
    {
      if pushed {
        var _ := log.Append(loggedAt, msg.to, MessageDelivered(msg.id, msg.to, "push"), nanos);
      } else {
        router.QueueMessage(msg);
      }
    }

    /** The breaker's bookkeeping: a success resets it, an exhausted delivery counts against it. */
    method Settle(agent: string, ending: Ending, finishedAt: nat)
      requires Valid()
      modifies this
      ensures Valid() && calls == old(calls) + [Call(agent, ending, finishedAt)]
    {
      match ending {
        case Pushed =>
          circuits := circuits - {agent};
        case Exhausted =>
          var failures := (if agent in circuits then circuits[agent].failures else 0) + 1;
          var openUntil := if failures >= cbThreshold then finishedAt + cbDuration
                           else if agent in circuits then circuits[agent].openUntil else 0;
          circuits := circuits[agent := Circuit(failures, openUntil)];
        case _ =>
      }
      ghost var was, c := calls, Call(agent, ending, finishedAt);
      calls := calls + [c];
      forall a ensures Failures(calls, a) == FailuresNext(was, c, a) && LastExhausted(calls, a) == LastNext(was, c, a) {
        CallNext(was, c, a);
      }
    }

    /** The retry loop. */
    method Attempts(succeeds: seq<bool>, stops: seq<bool>) returns (ending: Ending, attempts: nat, waited: nat)
      requires |succeeds| == |stops| == maxRetries + 1
      ensures Tried(ending, attempts, waited, maxRetries, succeeds, stops)
    {
      attempts, waited := 0, 0;
      while attempts <= maxRetries
        invariant attempts <= maxRetries + 1
        invariant waited == if attempts == 0 then 0 else Pow2(attempts - 1) - 1
        invariant forall i :: 0 <= i < attempts ==> !succeeds[i] && (i > 0 ==> !stops[i])
      {
        if attempts > 0 {
          if stops[attempts] {
            return Interrupted, attempts, waited;
          }
          waited := waited + Pow2(attempts - 1);
        }
        attempts := attempts + 1;
        if succeeds[attempts - 1] {
          return Pushed, attempts, waited;
        }
      }
      ending := Exhausted;
    }
  }
}
