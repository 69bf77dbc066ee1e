/** What a replay rebuilds, as a property of the log alone. */
module Recovery {
  import opened Events
  import opened MessageQueues

  /** No message_sent event for `a` meets a full queue while the log is replayed. */
  ghost predicate NeverFull(log: seq<Event>, a: string, cap: nat)
    requires cap >= 1
  {
    log == [] ||
    (NeverFull(Front(log), a, cap) &&
     (Last(log).data.MessageSent? && Last(log).data.to == a ==> |Replayed(Front(log), a, cap)| < cap))
  }

  /** On every prefix of the log, at most cap messages for `a` are without a logged delivery. */
  predicate WithinCap(log: seq<Event>, a: string, cap: nat) {
    forall n :: 0 <= n <= |log| ==> |Pending(log[..n], a)| <= cap
  }

  /** The log sends no id to `a` twice, or after its delivery.  A suffix of a causal log is such a log. */
  ghost predicate Replayable(log: seq<Event>, a: string) {
    log == [] ||
    (Replayable(Front(log), a) &&
     (Last(log).data.MessageSent? && Last(log).data.to == a ==>
        SentCount(Front(log), a, Last(log).data.id) == 0 && Deliveries(Front(log), a, Last(log).data.id) == 0))
  }

  lemma {:induction false} ReplayableOnce(log: seq<Event>, a: string, id: string)
    requires Replayable(log, a)
    ensures SentCount(log, a, id) <= 1
  {
    if log != [] {
      assert log == Front(log) + [Last(log)];
      ReplayableOnce(Front(log), a, id);
      SentGrowth(Front(log), Last(log), a, id);
    }
  }

  lemma {:induction false} CausalIsReplayable(log: seq<Event>, a: string)
    requires Causal(log)
    ensures Replayable(log, a)
  {
    if log != [] {
      CausalIsReplayable(Front(log), a);
      if Last(log).data.MessageSent? {
        FreshAbsent(Front(log), Last(log).data.id, a);
      }
    }
  }

  // ---- how the pending messages change with the log ----

  lemma {:induction false} UndeliveredConcat(s: seq<Message>, t: seq<Message>, log: seq<Event>, a: string)
    ensures Undelivered(s + t, log, a) == Undelivered(s, log, a) + Undelivered(t, log, a)
  {
    if s == [] {
      assert s + t == t;
    } else {
      assert (s + t)[1..] == s[1..] + t;
      UndeliveredConcat(s[1..], t, log, a);
    }
  }

  lemma {:induction false} UndeliveredSame(s: seq<Message>, log: seq<Event>, log': seq<Event>, a: string)
    requires forall m <- s :: Deliveries(log, a, m.id) == 0 <==> Deliveries(log', a, m.id) == 0
    ensures Undelivered(s, log, a) == Undelivered(s, log', a)
  {
    if s != [] {
      UndeliveredSame(s[1..], log, log', a);
    }
  }

  lemma {:induction false} UndeliveredCount(s: seq<Message>, log: seq<Event>, a: string, id: string)
    ensures Count(Undelivered(s, log, a), a, id) == if Deliveries(log, a, id) == 0 then Count(s, a, id) else 0
  {
    if s != [] {
      UndeliveredCount(s[1..], log, a, id);
      CountConcat(if Deliveries(log, a, s[0].id) == 0 then [s[0]] else [], Undelivered(s[1..], log, a), a, id);
    }
  }

  /** One more delivery, of `id`, takes the message with that id out of the undelivered ones. */
  lemma {:induction false} UndeliveredRemoves(s: seq<Message>, log: seq<Event>, log': seq<Event>, a: string, id: string)
    requires Deliveries(log', a, id) > 0
    requires forall m <- s :: m.to == a && (m.id != id ==> Deliveries(log', a, m.id) == Deliveries(log, a, m.id))
    requires Count(s, a, id) <= 1
    ensures Undelivered(s, log', a) == Removed(Undelivered(s, log, a), id)
  {
    if s != [] {
      UndeliveredRemoves(s[1..], log, log', a, id);
      if s[0].id == id {
        UndeliveredCount(s[1..], log, a, id);
      }
      RemovesHead(s[0], Undelivered(s[1..], log, a), a, id);
    }
  }

  lemma RemovesHead(m: Message, rest: seq<Message>, a: string, id: string)
    requires forall n <- rest :: n.to == a
    requires m.id == id ==> Count(rest, a, id) == 0
    ensures m.id == id ==> Removed([m] + rest, id) == rest == Removed([] + rest, id)
    ensures m.id != id ==> Removed([m] + rest, id) == [m] + Removed(rest, id)
    ensures Removed([] + rest, id) == [] + Removed(rest, id)
  {
    assert ([m] + rest)[1..] == rest && [] + rest == rest;
    if m.id == id {
      RemovedAbsent(rest, id, a);
    }
  }

  lemma PendingGrowth(log: seq<Event>, e: Event, a: string)
    requires Replayable(log + [e], a)
    ensures e.data.MessageSent? && e.data.to == a ==> Pending(log + [e], a) == Pending(log, a) + [MessageOf(e)]
    ensures e.data.MessageDelivered? && e.data.to == a ==> Pending(log + [e], a) == Removed(Pending(log, a), e.data.id)
    ensures SentBy(e, a) == [] && !(e.data.MessageDelivered? && e.data.to == a) ==> Pending(log + [e], a) == Pending(log, a)
  {
    LogGrows(log, e);
    UndeliveredConcat(Sents(log, a), SentBy(e, a), log + [e], a);
    if e.data.MessageDelivered? && e.data.to == a {
      ReplayableOnce(log, a, e.data.id);
      forall m <- Sents(log, a) ensures m.id != e.data.id ==> Deliveries(log + [e], a, m.id) == Deliveries(log, a, m.id) {
        SentGrowth(log, e, a, m.id);
      }
      SentGrowth(log, e, a, e.data.id);
      UndeliveredRemoves(Sents(log, a), log, log + [e], a, e.data.id);
    } else {
      UndeliveredSame(Sents(log, a), log, log + [e], a);
    }
  }

  lemma PendingCount(log: seq<Event>, a: string, id: string)
    ensures Count(Pending(log, a), a, id) == if Deliveries(log, a, id) == 0 then SentCount(log, a, id) else 0
  {
    UndeliveredCount(Sents(log, a), log, a, id);
  }

  lemma PendingAddressed(log: seq<Event>, a: string)
    ensures forall m <- Pending(log, a) :: m.to == a
  {
  }

  /** Where no queue overflows, the replay of a log rebuilds exactly the messages without a
      logged delivery, in sending order. */
  lemma {:induction false} ReplayIsPending(log: seq<Event>, a: string, cap: nat)
    requires cap >= 1 && Replayable(log, a) && NeverFull(log, a, cap)
    ensures Replayed(log, a, cap) == Pending(log, a)
  {
    if log != [] {
      assert log == Front(log) + [Last(log)];
      ReplayIsPending(Front(log), a, cap);
      PendingGrowth(Front(log), Last(log), a);
    }
  }

  lemma WithinCapFront(log: seq<Event>, a: string, cap: nat)
    requires log != [] && WithinCap(log, a, cap)
    ensures WithinCap(Front(log), a, cap)
    ensures |Pending(log, a)| <= cap
  {
    assert forall n :: 0 <= n <= |Front(log)| ==> Front(log)[..n] == log[..n];
    assert log[..|log|] == log;
  }

  /** If the log never has more than cap pending messages, its replay never meets a full queue. */
  lemma {:induction false} WithinCapNeverFull(log: seq<Event>, a: string, cap: nat)
    requires cap >= 1 && Replayable(log, a) && WithinCap(log, a, cap)
    ensures NeverFull(log, a, cap)
  {
    if log != [] {
      assert log == Front(log) + [Last(log)];
      WithinCapFront(log, a, cap);
      WithinCapNeverFull(Front(log), a, cap);
      ReplayIsPending(Front(log), a, cap);
      PendingGrowth(Front(log), Last(log), a);
    }
  }
}
