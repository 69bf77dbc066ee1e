/** What one agent's queue looks like after each of the router's operations, and after a replay
    of a list of log events.  These functions specify the methods of Messaging.Router. */
module MessageQueues {
  import opened Events

  /** Append, dropping the oldest message when the queue is full. */
  function Enqueued(q: seq<Message>, m: Message, cap: nat): (r: seq<Message>)
    requires cap >= 1
    ensures r != [] && r[|r| - 1] == m
    ensures |q| <= cap ==> |r| <= cap
  {
    (if |q| >= cap then q[1..] else q) + [m]
  }

  /** The queues by recipient; an agent without an entry has an empty queue. */
  function QueueOf(queues: map<string, seq<Message>>, a: string): seq<Message> {
    if a in queues then queues[a] else []
  }

  function PutQueue(queues: map<string, seq<Message>>, m: Message, cap: nat): map<string, seq<Message>>
    requires cap >= 1
  {
    queues[m.to := Enqueued(QueueOf(queues, m.to), m, cap)]
  }

  /** The queues once `a` has been handed its n oldest messages. */
  function AfterTake(queues: map<string, seq<Message>>, a: string, n: nat): map<string, seq<Message>>
    requires n <= |QueueOf(queues, a)|
  {
    if n == |QueueOf(queues, a)| then queues - {a} else queues[a := queues[a][n..]]
  }

  function ClampReceive(limit: int): nat {
    if limit <= 0 then 50 else if limit > 100 then 100 else limit
  }

  /** How many messages one Receive takes. */
  function TakeCount(queues: map<string, seq<Message>>, a: string, limit: int): (n: nat)
    ensures n <= |QueueOf(queues, a)| && n <= 100
    ensures 1 <= limit <= 100 ==> n == limit || (n < limit && n == |QueueOf(queues, a)|)
    ensures limit <= 0 ==> n == 50 || (n < 50 && n == |QueueOf(queues, a)|)
    ensures limit > 100 ==> n == 100 || (n < 100 && n == |QueueOf(queues, a)|)
  {
    if ClampReceive(limit) > |QueueOf(queues, a)| then |QueueOf(queues, a)| else ClampReceive(limit)
  }

  /** Drop the first message with the given id, if there is one. */
  function Removed(q: seq<Message>, id: string): (r: seq<Message>)
    ensures |r| <= |q|
  {
    if q == [] then [] else if q[0].id == id then q[1..] else [q[0]] + Removed(q[1..], id)
  }

  /** One replayed event, seen from the queue of agent `to`. */
  function Applied(q: seq<Message>, e: Event, to: string, cap: nat): (r: seq<Message>)
    requires cap >= 1
    ensures |q| <= cap ==> |r| <= cap
  {
    match e.data
    case MessageSent(_, _, t, _, _) => if t == to then Enqueued(q, MessageOf(e), cap) else q
    case MessageDelivered(id, t, _) => if t == to then Removed(q, id) else q
    case _ => q
  }

  /** The queue of agent `to` after replaying `log` from empty queues. */
  function Replayed(log: seq<Event>, to: string, cap: nat): (r: seq<Message>)
    requires cap >= 1
    ensures |r| <= cap
  {
    if log == [] then [] else Applied(Replayed(Front(log), to, cap), Last(log), to, cap)
  }

  /** The message that drop-oldest discards when e is replayed after `before`. */
  function DiscardedBy(before: seq<Event>, e: Event, cap: nat): seq<Message>
    requires cap >= 1
  {
    if e.data.MessageSent? && |Replayed(before, e.data.to, cap)| >= cap then [Replayed(before, e.data.to, cap)[0]] else []
  }

  /** All messages that drop-oldest discards while `log` is replayed from empty queues. */
  function Discarded(log: seq<Event>, cap: nat): seq<Message>
    requires cap >= 1
  {
    if log == [] then [] else Discarded(Front(log), cap) + DiscardedBy(Front(log), Last(log), cap)
  }

  /** Messages of `s` addressed to `a`, in order. */
  function To(s: seq<Message>, a: string): (r: seq<Message>)
    ensures forall m <- r :: m.to == a
  {
    if s == [] then [] else (if s[0].to == a then [s[0]] else []) + To(s[1..], a)
  }

  /** One occurrence, when m is for `a` and has this id. */
  function Entry(m: Message, a: string, id: string): nat {
    if m.to == a && m.id == id then 1 else 0
  }

  /** How often a message for `a` with this id occurs in a list. */
  function Count(s: seq<Message>, a: string, id: string): nat {
    if s == [] then 0 else Entry(s[0], a, id) + Count(s[1..], a, id)
  }

  function SentBy(e: Event, a: string): seq<Message> {
    if e.data.MessageSent? && e.data.to == a then [MessageOf(e)] else []
  }

  /** The messages logged as sent to `a`, in log order. */
  function Sents(log: seq<Event>, a: string): (r: seq<Message>)
    ensures forall m <- r :: m.to == a
  {
    if log == [] then [] else Sents(Front(log), a) + SentBy(Last(log), a)
  }

  function DeliveryEntry(e: Event, a: string, id: string): nat {
    if e.data.MessageDelivered? && e.data.to == a && e.data.id == id then 1 else 0
  }

  /** How often the log says that `id` was delivered to `a`. */
  function Deliveries(log: seq<Event>, a: string, id: string): nat {
    if log == [] then 0 else Deliveries(Front(log), a, id) + DeliveryEntry(Last(log), a, id)
  }

  /** The messages of `s` without a delivery to `a` in `log`. */
  function Undelivered(s: seq<Message>, log: seq<Event>, a: string): (r: seq<Message>)
    ensures forall m <- r :: m in s && Deliveries(log, a, m.id) == 0
  {
    if s == [] then []
    else (if Deliveries(log, a, s[0].id) == 0 then [s[0]] else []) + Undelivered(s[1..], log, a)
  }

  /** The messages of `s` whose delivery the log does not show. */
  function Unlogged(s: seq<Message>, log: seq<Event>): seq<Message> {
    if s == [] then []
    else (if Deliveries(log, s[0].to, s[0].id) == 0 then [s[0]] else []) + Unlogged(s[1..], log)
  }

  /** The messages sent to `a` that have no logged delivery, in sending order. */
  function Pending(log: seq<Event>, a: string): seq<Message> {
    Undelivered(Sents(log, a), log, a)
  }

  function SentCount(log: seq<Event>, a: string, id: string): nat {
    Count(Sents(log, a), a, id)
  }

  /** No message_sent event of the log, to any recipient, carries this id. */
  predicate FreshId(log: seq<Event>, id: string) {
    forall e <- log :: e.data.MessageSent? ==> e.data.id != id
  }

  /** Message ids are sent at most once, and only sent ids are delivered, to the recipient they were sent to. */
  ghost predicate Causal(log: seq<Event>) {
    log == [] ||
    (Causal(Front(log)) &&
     match Last(log).data
     case MessageSent(id, _, _, _, _) => FreshId(Front(log), id)
     case MessageDelivered(id, to, _) => SentCount(Front(log), to, id) > 0
     case _ => true)
  }

  // ---- counting ----

  lemma {:induction false} CountConcat(s: seq<Message>, t: seq<Message>, a: string, id: string)
    ensures Count(s + t, a, id) == Count(s, a, id) + Count(t, a, id)
  {
    if s == [] {
      assert s + t == t;
    } else {
      assert (s + t)[1..] == s[1..] + t;
      CountConcat(s[1..], t, a, id);
    }
  }

  lemma CountAppend(s: seq<Message>, m: Message, a: string, id: string)
    ensures Count(s + [m], a, id) == Count(s, a, id) + Entry(m, a, id)
  {
    CountConcat(s, [m], a, id);
  }

  lemma {:induction false} CountMember(s: seq<Message>, a: string, id: string)
    ensures Count(s, a, id) > 0 <==> exists m <- s :: m.to == a && m.id == id
  {
    if s != [] {
      CountMember(s[1..], a, id);
      assert s == [s[0]] + s[1..];
    }
  }

  lemma {:induction false} CountTo(s: seq<Message>, a: string, id: string)
    ensures Count(To(s, a), a, id) == Count(s, a, id)
  {
    if s != [] {
      CountTo(s[1..], a, id);
      assert To(s, a) == (if s[0].to == a then [s[0]] else []) + To(s[1..], a);
      if s[0].to == a {
        assert To(s, a)[1..] == To(s[1..], a);
      } else {
        assert To(s, a) == To(s[1..], a);
      }
    }
  }

  /** Taking element i out of a list. */
  function Without(s: seq<Message>, i: nat): seq<Message>
    requires i < |s|
  {
    s[..i] + s[i + 1..]
  }

  lemma CountWithout(s: seq<Message>, i: nat, a: string, id: string)
    requires i < |s|
    ensures Count(s, a, id) == Count(Without(s, i), a, id) + Entry(s[i], a, id)
  {
    assert s == s[..i] + [s[i]] + s[i + 1..];
    CountConcat(s[..i] + [s[i]], s[i + 1..], a, id);
    CountAppend(s[..i], s[i], a, id);
    CountConcat(s[..i], s[i + 1..], a, id);
  }

  lemma {:induction false} ToConcat(s: seq<Message>, t: seq<Message>, a: string)
    ensures To(s + t, a) == To(s, a) + To(t, a)
  {
    if s == [] {
      assert s + t == t;
    } else {
      assert (s + t)[1..] == s[1..] + t;
      ToConcat(s[1..], t, a);
    }
  }

  lemma {:induction false} ToAll(s: seq<Message>, a: string)
    requires forall m <- s :: m.to == a
    ensures To(s, a) == s
  {
    if s != [] {
      ToAll(s[1..], a);
      assert s == [s[0]] + s[1..];
    }
  }

  lemma {:induction false} ToNone(s: seq<Message>, a: string)
    requires forall m <- s :: m.to != a
    ensures To(s, a) == []
  {
    if s != [] {
      ToNone(s[1..], a);
    }
  }

  lemma ToWithout(s: seq<Message>, i: nat, a: string)
    requires i < |s|
    ensures To(s, a) == To(s[..i], a) + To([s[i]], a) + To(s[i + 1..], a)
    ensures To(Without(s, i), a) == To(s[..i], a) + To(s[i + 1..], a)
  {
    assert s == s[..i] + [s[i]] + s[i + 1..];
    ToConcat(s[..i] + [s[i]], s[i + 1..], a);
    ToConcat(s[..i], [s[i]], a);
    ToConcat(s[..i], s[i + 1..], a);
  }

  /** Removal takes out one occurrence of the id, provided the list is one agent's. */
  lemma {:induction false} CountRemoved(q: seq<Message>, gone: string, a: string, id: string)
    requires forall m <- q :: m.to == a
    ensures Count(Removed(q, gone), a, id) == Count(q, a, id) - (if id == gone && Count(q, a, id) > 0 then 1 else 0)
  {
    if q != [] && q[0].id != gone {
      CountRemoved(q[1..], gone, a, id);
      assert Removed(q, gone)[1..] == Removed(q[1..], gone);
    }
  }

  lemma {:induction false} RemovedAbsent(q: seq<Message>, id: string, a: string)
    requires forall m <- q :: m.to == a
    requires Count(q, a, id) == 0
    ensures Removed(q, id) == q
  {
    if q != [] {
      RemovedAbsent(q[1..], id, a);
      assert q == [q[0]] + q[1..];
    }
  }

  lemma {:induction false} RemovedMembers(q: seq<Message>, id: string)
    ensures forall m <- Removed(q, id) :: m in q
  {
    if q != [] && q[0].id != id {
      RemovedMembers(q[1..], id);
    }
  }

  lemma CountEnqueued(q: seq<Message>, m: Message, cap: nat, a: string, id: string)
    requires cap >= 1
    ensures Count(Enqueued(q, m, cap), a, id) + (if |q| >= cap then Entry(q[0], a, id) else 0)
         == Count(q, a, id) + Entry(m, a, id)
  {
    CountAppend(if |q| >= cap then q[1..] else q, m, a, id);
  }

  lemma {:induction false} ReplayedAddressed(log: seq<Event>, a: string, cap: nat)
    requires cap >= 1
    ensures forall m <- Replayed(log, a, cap) :: m.to == a
  {
    if log != [] {
      ReplayedAddressed(Front(log), a, cap);
      if Last(log).data.MessageDelivered? {
        RemovedMembers(Replayed(Front(log), a, cap), Last(log).data.id);
      }
    }
  }

  /** Every replayed message is one the log records, with its content and the time of its event. */
  lemma {:induction false} ReplayedAreLogged(log: seq<Event>, a: string, cap: nat)
    requires cap >= 1
    ensures forall m <- Replayed(log, a, cap) :: m.to == a && RecordedIn(log, m)
  {
    if log != [] {
      var q, e := Replayed(Front(log), a, cap), Last(log);
      assert log == Front(log) + [e];
      ReplayedAreLogged(Front(log), a, cap);
      ReplayedAddressed(log, a, cap);
      if e.data.MessageDelivered? {
        RemovedMembers(q, e.data.id);
      }
      forall m <- Replayed(log, a, cap) ensures RecordedIn(log, m) {
        if m in q {
          var d :| d in Front(log) && Records(d, m);
          assert d in log;
        } else {
          assert Records(e, m) && e in log;
        }
      }
    }
  }

  // ---- growing the log by one event ----

  lemma LogGrows(log: seq<Event>, e: Event)
    ensures Front(log + [e]) == log && Last(log + [e]) == e
  {
  }

  lemma SentGrowth(log: seq<Event>, e: Event, a: string, id: string)
    ensures Sents(log + [e], a) == Sents(log, a) + SentBy(e, a)
    ensures SentCount(log + [e], a, id) == SentCount(log, a, id) + (if e.data.MessageSent? then Entry(MessageOf(e), a, id) else 0)
    ensures Deliveries(log + [e], a, id) == Deliveries(log, a, id) + DeliveryEntry(e, a, id)
  {
    LogGrows(log, e);
    CountConcat(Sents(log, a), SentBy(e, a), a, id);
  }

  /** A fresh id was sent to nobody and, in a causal log, delivered to nobody. */
  lemma {:induction false} FreshAbsent(log: seq<Event>, id: string, a: string)
    requires FreshId(log, id)
    ensures SentCount(log, a, id) == 0
    ensures Causal(log) ==> Deliveries(log, a, id) == 0
  {
    if log != [] {
      var front, e := Front(log), Last(log);
      assert log == front + [e];
      assert e in log;
      FreshAbsent(front, id, a);
      SentGrowth(front, e, a, id);
      if e.data.MessageDelivered? && e.data.id == id {
        FreshAbsent(front, id, e.data.to);
      }
    }
  }

  /** In a causal log an id is sent at most once, and delivered only if it was sent. */
  lemma {:induction false} SentOnce(log: seq<Event>, a: string, id: string)
    requires Causal(log)
    ensures SentCount(log, a, id) <= 1
    ensures Deliveries(log, a, id) > 0 ==> SentCount(log, a, id) == 1
  {
    if log != [] {
      var front, e := Front(log), Last(log);
      assert log == front + [e];
      SentOnce(front, a, id);
      SentGrowth(front, e, a, id);
      if e.data.MessageSent? && e.data.id == id {
        FreshAbsent(front, id, a);
      }
    }
  }

  // ---- a log in two parts ----

  lemma Regrow(x: seq<Event>, y: seq<Event>)
    requires y != []
    ensures x + y != [] && x + y == (x + Front(y)) + [Last(y)]
  {
  }

  lemma {:induction false} SentsConcat(x: seq<Event>, y: seq<Event>, a: string)
    ensures Sents(x + y, a) == Sents(x, a) + Sents(y, a)
  {
    if y == [] {
      assert x + y == x;
    } else {
      var front, e := Front(y), Last(y);
      SentsConcat(x, front, a);
      Regrow(x, y);
      LogGrows(x + front, e);
      Assoc(Sents(x, a), Sents(front, a), SentBy(e, a));
    }
  }

  lemma {:induction false} DeliveriesConcat(x: seq<Event>, y: seq<Event>, a: string, id: string)
    ensures Deliveries(x + y, a, id) == Deliveries(x, a, id) + Deliveries(y, a, id)
  {
    if y == [] {
      assert x + y == x;
    } else {
      DeliveriesConcat(x, Front(y), a, id);
      Regrow(x, y);
      LogGrows(x + Front(y), Last(y));
    }
  }

  /** Sent messages and deliveries of a concatenation. */
  lemma LogConcat(x: seq<Event>, y: seq<Event>, a: string, id: string)
    ensures Sents(x + y, a) == Sents(x, a) + Sents(y, a)
    ensures SentCount(x + y, a, id) == SentCount(x, a, id) + SentCount(y, a, id)
    ensures Deliveries(x + y, a, id) == Deliveries(x, a, id) + Deliveries(y, a, id)
  {
    SentsConcat(x, y, a);
    DeliveriesConcat(x, y, a, id);
    CountConcat(Sents(x, a), Sents(y, a), a, id);
  }

  // ---- what a replay keeps and what it discards ----

  lemma {:induction false} UnloggedCount(s: seq<Message>, log: seq<Event>, a: string, id: string)
    ensures Count(Unlogged(s, log), a, id) == if Deliveries(log, a, id) == 0 then Count(s, a, id) else 0
  {
    if s != [] {
      UnloggedCount(s[1..], log, a, id);
      CountConcat(if Deliveries(log, s[0].to, s[0].id) == 0 then [s[0]] else [], Unlogged(s[1..], log), a, id);
    }
  }

  lemma DiscardedGrowth(front: seq<Event>, e: Event, cap: nat, a: string, id: string)
    requires cap >= 1
    ensures Replayed(front + [e], a, cap) == Applied(Replayed(front, a, cap), e, a, cap)
    ensures Count(Discarded(front + [e], cap), a, id)
         == Count(Discarded(front, cap), a, id) + Count(DiscardedBy(front, e, cap), a, id)
  {
    LogGrows(front, e);
    CountConcat(Discarded(front, cap), DiscardedBy(front, e, cap), a, id);
  }

  /** One replayed event conserves an id, but for its deliveries. */
  lemma AppliedConserves(front: seq<Event>, e: Event, cap: nat, a: string, id: string)
    requires cap >= 1
    ensures var q := Replayed(front, a, cap);
            && Count(Applied(q, e, a, cap), a, id) + Count(DiscardedBy(front, e, cap), a, id)
               <= Count(q, a, id) + (if e.data.MessageSent? then Entry(MessageOf(e), a, id) else 0)
            && Count(q, a, id) + (if e.data.MessageSent? then Entry(MessageOf(e), a, id) else 0)
               <= Count(Applied(q, e, a, cap), a, id) + Count(DiscardedBy(front, e, cap), a, id) + DeliveryEntry(e, a, id)
  {
    var q := Replayed(front, a, cap);
    ReplayedAddressed(front, a, cap);
    if e.data.MessageSent? {
      if e.data.to == a {
        CountEnqueued(q, MessageOf(e), cap, a, id);
      } else {
        ReplayedAddressed(front, e.data.to, cap);
      }
    } else if e.data.MessageDelivered? && e.data.to == a {
      CountRemoved(q, e.data.id, a, id);
    }
  }

  /** A replay of any log, in any order, conserves messages: what was sent is rebuilt or discarded by
      drop-oldest, except what deliveries took out. */
  lemma {:induction false} ReplayConserves(log: seq<Event>, cap: nat, a: string, id: string)
    requires cap >= 1
    ensures Count(Replayed(log, a, cap), a, id) + Count(Discarded(log, cap), a, id) <= SentCount(log, a, id)
    ensures SentCount(log, a, id)
         <= Count(Replayed(log, a, cap), a, id) + Count(Discarded(log, cap), a, id) + Deliveries(log, a, id)
  {
    if log != [] {
      var front, e := Front(log), Last(log);
      assert log == front + [e];
      ReplayConserves(front, cap, a, id);
      SentGrowth(front, e, a, id);
      DiscardedGrowth(front, e, cap, a, id);
      AppliedConserves(front, e, cap, a, id);
    }
  }

  /** A causal log replayed in its own order never brings back a delivered message. */
  lemma {:induction false} DeliveredStaysOut(log: seq<Event>, cap: nat, a: string, id: string)
    requires cap >= 1 && Causal(log) && Deliveries(log, a, id) > 0
    ensures Count(Replayed(log, a, cap), a, id) == 0
  {
    var front, e := Front(log), Last(log);
    assert log == front + [e];
    SentGrowth(front, e, a, id);
    SentOnce(front, a, id);
    AppliedConserves(front, e, cap, a, id);
    if Deliveries(front, a, id) > 0 {
      DeliveredStaysOut(front, cap, a, id);
      if e.data.MessageSent? && e.data.id == id {
        FreshAbsent(front, id, a);
      }
    } else {
      ReplayConserves(front, cap, a, id);
      ReplayedAddressed(front, a, cap);
      CountRemoved(Replayed(front, a, cap), id, a, id);
    }
  }
}
