/** Which messages a replay rebuilds, for a log read in any order and queues that may be full: a property of
    what is read after each message_sent event. */
module Survival {
  import opened Events
  import opened MessageQueues

  predicate SendsTo(e: Event, a: string) {
    e.data.MessageSent? && e.data.to == a
  }

  /** The queue of `a` after replaying `y` alone, without a bound on its length. */
  function Free(y: seq<Event>, a: string): seq<Message> {
    if y == [] then []
    else
      match Last(y).data
      case MessageSent(_, _, t, _, _) => if t == a then Free(Front(y), a) + [MessageOf(Last(y))] else Free(Front(y), a)
      case MessageDelivered(id, t, _) => if t == a then Removed(Free(Front(y), a), id) else Free(Front(y), a)
      case _ => Free(Front(y), a)
  }

  /** Replayed alone and without a bound, no prefix of `y` leaves cap messages for `a`: an older message
      keeps its place. */
  predicate Room(y: seq<Event>, a: string, cap: nat) {
    y == [] || (Room(Front(y), a, cap) && |Free(y, a)| < cap)
  }

  /** A message for `a` stays in its queue while `y` is replayed after it. */
  predicate Outlives(id: string, y: seq<Event>, a: string, cap: nat) {
    Deliveries(y, a, id) == 0 && Room(y, a, cap)
  }

  ghost predicate OnceEach(log: seq<Event>, a: string) {
    forall id :: SentCount(log, a, id) <= 1
  }

  // ---- one message ----

  /** q ends with m and then t. */
  predicate EndsWith(q: seq<Message>, m: Message, t: seq<Message>) {
    |q| > |t| && q[|q| - |t| - 1] == m && q[|q| - |t|..] == t
  }

  lemma {:induction false} FreeWereSent(y: seq<Event>, a: string, id: string)
    ensures Count(Free(y, a), a, id) <= SentCount(y, a, id) && forall m <- Free(y, a) :: m.to == a
  {
    if y != [] {
      var front, e := Front(y), Last(y);
      assert y == front + [e];
      FreeWereSent(front, a, id);
      SentGrowth(front, e, a, id);
      if SendsTo(e, a) {
        CountAppend(Free(front, a), MessageOf(e), a, id);
      } else if e.data.MessageDelivered? && e.data.to == a {
        RemovedMembers(Free(front, a), e.data.id);
        CountRemoved(Free(front, a), e.data.id, a, id);
      }
    }
  }

  lemma SendStep(q: seq<Message>, m: Message, t: seq<Message>, n: Message, cap: nat)
    requires cap >= 1 && |q| <= cap && EndsWith(q, m, t)
    ensures |t + [n]| < cap ==> EndsWith(Enqueued(q, n, cap), m, t + [n])
    ensures |t + [n]| >= cap ==> Enqueued(q, n, cap) == t + [n]
  {
    var r := if |q| >= cap then q[1..] else q;
    if |t| + 1 < cap {
      assert EndsWith(r, m, t);
      EndsAfter(r, m, t, n);
    } else {
      assert r == t;
    }
  }

  lemma EndsAfter(r: seq<Message>, m: Message, t: seq<Message>, n: Message)
    requires EndsWith(r, m, t)
    ensures EndsWith(r + [n], m, t + [n])
  {
  }

  lemma {:induction false} RemovedEarly(q: seq<Message>, i: nat, a: string, id: string)
    requires i <= |q| && (forall m <- q :: m.to == a) && Count(q[..i], a, id) > 0
    ensures |Removed(q, id)| == |q| - 1 && Removed(q, id)[i - 1..] == q[i..]
  {
    if q[0].id != id {
      assert q[..i][1..] == q[1..][..i - 1];
      RemovedEarly(q[1..], i - 1, a, id);
      assert q[1..][i - 1..] == q[i..];
    }
  }

  lemma {:induction false} RemovedLate(q: seq<Message>, i: nat, a: string, id: string)
    requires i <= |q| && (forall m <- q :: m.to == a) && Count(q[..i], a, id) == 0
    ensures Removed(q, id) == q[..i] + Removed(q[i..], id)
  {
    if i == 0 {
      assert q[..0] + Removed(q[0..], id) == Removed(q, id);
    } else {
      assert q[..i][1..] == q[1..][..i - 1] && q[1..][i - 1..] == q[i..];
      RemovedLate(q[1..], i - 1, a, id);
    }
  }

  /** Taking out another message leaves m in its place before the rest of the queue. */
  lemma DeliverStep(q: seq<Message>, m: Message, t: seq<Message>, a: string, id: string)
    requires EndsWith(q, m, t) && id != m.id && (forall n <- q :: n.to == a) && Count(q, a, id) <= 1
    ensures EndsWith(Removed(q, id), m, Removed(t, id))
  {
    var i := |q| - |t| - 1;
    assert q == q[..i] + q[i..] && q[i..] == [m] + t;
    CountConcat(q[..i], q[i..], a, id);
    CountConcat([m], t, a, id);
    if Count(q[..i], a, id) > 0 {
      RemovedEarly(q, i, a, id);
      RemovedAbsent(t, id, a);
      assert Removed(q, id)[i - 1..] == [m] + t;
    } else {
      RemovedLate(q, i, a, id);
      assert q[i..][1..] == t;
    }
  }

  /** What becomes of the message sent by `e` when `y` is replayed after it. */
  ghost predicate Fate(q: seq<Message>, e: Event, y: seq<Event>, a: string, cap: nat)
    requires e.data.MessageSent?
  {
    if Outlives(e.data.id, y, a, cap) then EndsWith(q, MessageOf(e), Free(y, a)) else Count(q, a, e.data.id) == 0
  }

  lemma FateStep(q: seq<Message>, e: Event, y: seq<Event>, f: Event, a: string, cap: nat)
    requires cap >= 1 && |q| <= cap && SendsTo(e, a) && Fate(q, e, y, a, cap)
    requires (forall n <- q :: n.to == a) && (forall id :: Count(q, a, id) <= 1)
    requires SentCount(y + [f], a, e.data.id) == 0
    ensures Fate(Applied(q, f, a, cap), e, y + [f], a, cap)
  {
    var id, t := e.data.id, Free(y, a);
    LogGrows(y, f);
    SentGrowth(y, f, a, id);
    FreeWereSent(y, a, id);
    if SendsTo(f, a) {
      CountEnqueued(q, MessageOf(f), cap, a, id);
      CountAppend(t, MessageOf(f), a, id);
      if Outlives(id, y, a, cap) {
        SendStep(q, MessageOf(e), t, MessageOf(f), cap);
      }
    } else if f.data.MessageDelivered? && f.data.to == a {
      CountRemoved(q, f.data.id, a, id);
      assert Count(q, a, f.data.id) <= 1;
      if Outlives(id, y, a, cap) && f.data.id != id {
        DeliverStep(q, MessageOf(e), t, a, f.data.id);
      }
    } else if Outlives(id, y, a, cap) {
      RoomIsShort(y, a, cap);
    }
  }

  lemma RoomIsShort(y: seq<Event>, a: string, cap: nat)
    requires cap >= 1 && Room(y, a, cap)
    ensures |Free(y, a)| < cap
  {
  }

  lemma ReplayedOnce(log: seq<Event>, a: string, cap: nat)
    requires cap >= 1 && OnceEach(log, a)
    ensures forall id :: Count(Replayed(log, a, cap), a, id) <= 1
  {
    forall id ensures Count(Replayed(log, a, cap), a, id) <= 1 {
      ReplayConserves(log, cap, a, id);
      assert SentCount(log, a, id) <= 1;
    }
  }

  lemma {:induction false} FateOf(x: seq<Event>, e: Event, y: seq<Event>, a: string, cap: nat)
    requires cap >= 1 && SendsTo(e, a) && OnceEach((x + [e]) + y, a)
    ensures Fate(Replayed((x + [e]) + y, a, cap), e, y, a, cap)
  {
    var id := e.data.id;
    if y == [] {
      assert (x + [e]) + y == x + [e];
      LogGrows(x, e);
    } else {
      var front, f := Front(y), Last(y);
      var log := (x + [e]) + front;
      assert y == front + [f] && (x + [e]) + y == log + [f];
      OnceBefore(log, f, a);
      FateOf(x, e, front, a, cap);
      ReplayedOnce(log, a, cap);
      ReplayedAddressed(log, a, cap);
      SentNowhereElse(x, e, y, a);
      LogGrows(log, f);
      FateStep(Replayed(log, a, cap), e, front, f, a, cap);
    }
  }

  lemma OnceBefore(log: seq<Event>, f: Event, a: string)
    requires OnceEach(log + [f], a)
    ensures OnceEach(log, a)
  {
    forall id ensures SentCount(log, a, id) <= 1 {
      assert SentCount(log + [f], a, id) <= 1;
      SentGrowth(log, f, a, id);
    }
  }

  lemma SentNowhereElse(x: seq<Event>, e: Event, y: seq<Event>, a: string)
    requires SendsTo(e, a) && OnceEach((x + [e]) + y, a)
    ensures SentCount(y, a, e.data.id) == 0
  {
    var id := e.data.id;
    assert SentCount((x + [e]) + y, a, id) <= 1;
    LogConcat(x + [e], y, a, id);
    SentGrowth(x, e, a, id);
  }

  /** A replayed message is in the rebuilt queue if and only if no delivery of it is read after it and what is
      read after it has room, at every point, for an older message. */
  lemma SurvivesIff(log: seq<Event>, p: nat, a: string, cap: nat)
    requires cap >= 1 && p < |log| && SendsTo(log[p], a) && OnceEach(log, a)
    ensures Count(Replayed(log, a, cap), a, log[p].data.id) > 0 <==> Outlives(log[p].data.id, log[p + 1..], a, cap)
  {
    var x, e, y := log[..p], log[p], log[p + 1..];
    assert (x + [e]) + y == log;
    FateOf(x, e, y, a, cap);
    var q := Replayed(log, a, cap);
    if Outlives(e.data.id, y, a, cap) {
      assert q[|q| - |Free(y, a)| - 1] == MessageOf(e);
      CountMember(q, a, e.data.id);
    }
  }

  // ---- the whole queue ----

  /** The messages of `s` with one of the ids, in order. */
  function Select(s: seq<Message>, ids: set<string>): seq<Message> {
    if s == [] then [] else (if s[0].id in ids then [s[0]] else []) + Select(s[1..], ids)
  }

  function Ids(s: seq<Message>): set<string> {
    set m | m in s :: m.id
  }

  lemma {:induction false} SelectConcat(s: seq<Message>, t: seq<Message>, ids: set<string>)
    ensures Select(s + t, ids) == Select(s, ids) + Select(t, ids)
  {
    if s == [] {
      assert s + t == t;
    } else {
      assert (s + t)[0] == s[0] && (s + t)[1..] == s[1..] + t;
      SelectConcat(s[1..], t, ids);
      Assoc(if s[0].id in ids then [s[0]] else [], Select(s[1..], ids), Select(t, ids));
    }
  }

  lemma {:induction false} SelectSame(s: seq<Message>, x: set<string>, y: set<string>)
    requires forall m <- s :: m.id in x <==> m.id in y
    ensures Select(s, x) == Select(s, y)
  {
    if s != [] {
      SelectSame(s[1..], x, y);
    }
  }

  lemma {:induction false} SelectTwice(s: seq<Message>, x: set<string>, y: set<string>)
    requires y <= x
    ensures Select(Select(s, x), y) == Select(s, y)
  {
    if s != [] {
      SelectTwice(s[1..], x, y);
      if s[0].id in x {
        SelectConcat([s[0]], Select(s[1..], x), y);
        assert Select([s[0]], y) == if s[0].id in y then [s[0]] else [];
      } else {
        assert Select(s, x) == Select(s[1..], x);
      }
    }
  }

  lemma {:induction false} SelectAll(s: seq<Message>)
    ensures forall ids :: Ids(s) <= ids ==> Select(s, ids) == s
  {
    if s != [] {
      SelectAll(s[1..]);
      assert s == [s[0]] + s[1..];
    }
  }

  /** What is left of a queue of distinct ids is selected by its own ids. */
  lemma {:induction false} SelectRemoved(q: seq<Message>, a: string, id: string)
    requires (forall m <- q :: m.to == a) && (forall x :: Count(q, a, x) <= 1)
    ensures Select(q, Ids(Removed(q, id))) == Removed(q, id) && Ids(Removed(q, id)) <= Ids(q)
  {
    if q != [] {
      var h, t := q[0], q[1..];
      assert q == [h] + t;
      forall x ensures Count(t, a, x) <= 1 {
        assert Count(q, a, x) <= 1;
      }
      HeadIsNew(h, t, a);
      if h.id == id {
        SelectAll(t);
        assert Select(q, Ids(t)) == Select(t, Ids(t));
      } else {
        SelectRemoved(t, a, id);
        var r := Removed(t, id);
        assert Removed(q, id) == [h] + r && Ids([h] + r) == {h.id} + Ids(r);
        SelectSame(t, Ids([h] + r), Ids(r));
      }
    }
  }

  lemma HeadIsNew(h: Message, t: seq<Message>, a: string)
    requires h.to == a && (forall m <- t :: m.to == a) && (forall x :: Count([h] + t, a, x) <= 1)
    ensures h.id !in Ids(t)
  {
    assert Count([h] + t, a, h.id) <= 1;
    CountConcat([h], t, a, h.id);
    CountMember(t, a, h.id);
  }

  lemma SelectEnqueued(s: seq<Message>, q: seq<Message>, m: Message, cap: nat, a: string)
    requires cap >= 1 && (forall n <- q :: n.to == a) && (forall x :: Count(q, a, x) <= 1)
    requires Select(s, Ids(q)) == q && m.id !in Ids(s) && m.id !in Ids(q)
    ensures Select(s + [m], Ids(Enqueued(q, m, cap))) == Enqueued(q, m, cap)
  {
    var t := if |q| >= cap then q[1..] else q;
    var ids := Ids(t + [m]);
    assert ids == Ids(t) + {m.id};
    SelectConcat(s, [m], ids);
    assert Select([m], ids) == [m];
    SelectSame(s, ids, Ids(t));
    SelectTwice(s, Ids(q), Ids(t));
    if |q| >= cap {
      assert q == [q[0]] + t;
      HeadIsNew(q[0], t, a);
      SelectAll(t);
      assert Select(q, Ids(t)) == Select(t, Ids(t));
    } else {
      SelectAll(q);
    }
  }

  /** A replay rebuilds some of the sent messages, in the order in which they are read. */
  lemma {:induction false} ReplayedIsSelected(log: seq<Event>, a: string, cap: nat)
    requires cap >= 1 && OnceEach(log, a)
    ensures Select(Sents(log, a), Ids(Replayed(log, a, cap))) == Replayed(log, a, cap)
  {
    if log != [] {
      var front, e := Front(log), Last(log);
      assert log == front + [e];
      OnceBefore(front, e, a);
      ReplayedIsSelected(front, a, cap);
      ReplayedOnce(front, a, cap);
      ReplayedAddressed(front, a, cap);
      var q, s := Replayed(front, a, cap), Sents(front, a);
      if SendsTo(e, a) {
        NewIsUnsent(front, e, a, cap);
        SelectEnqueued(s, q, MessageOf(e), cap, a);
      } else if e.data.MessageDelivered? && e.data.to == a {
        SelectRemoved(q, a, e.data.id);
        SelectTwice(s, Ids(q), Ids(Removed(q, e.data.id)));
        assert s + [] == s;
      } else {
        assert s + [] == s;
      }
    }
  }

  lemma NewIsUnsent(front: seq<Event>, e: Event, a: string, cap: nat)
    requires cap >= 1 && OnceEach(front + [e], a) && SendsTo(e, a)
    ensures e.data.id !in Ids(Sents(front, a)) && e.data.id !in Ids(Replayed(front, a, cap))
  {
    var id := e.data.id;
    assert SentCount(front + [e], a, id) <= 1;
    SentGrowth(front, e, a, id);
    ReplayConserves(front, cap, a, id);
    ReplayedAddressed(front, a, cap);
    CountMember(Sents(front, a), a, id);
    CountMember(Replayed(front, a, cap), a, id);
  }

  /** Of the first n events, the messages sent to `a` that survive what is read after them. */
  function Survivors(log: seq<Event>, n: nat, a: string, cap: nat): seq<Message>
    requires n <= |log|
  {
    if n == 0 then []
    else
      var e := log[n - 1];
      Survivors(log, n - 1, a, cap) + (if SendsTo(e, a) && Outlives(e.data.id, log[n..], a, cap) then [MessageOf(e)] else [])
  }

  lemma SurvivorStep(log: seq<Event>, p: nat, a: string, cap: nat)
    requires cap >= 1 && p < |log| && OnceEach(log, a)
    ensures Select(SentBy(log[p], a), Ids(Replayed(log, a, cap)))
         == if SendsTo(log[p], a) && Outlives(log[p].data.id, log[p + 1..], a, cap) then [MessageOf(log[p])] else []
  {
    if SendsTo(log[p], a) {
      var ids := Ids(Replayed(log, a, cap));
      SurvivesIff(log, p, a, cap);
      ReplayedAddressed(log, a, cap);
      CountMember(Replayed(log, a, cap), a, log[p].data.id);
      assert Select([MessageOf(log[p])], ids) == if log[p].data.id in ids then [MessageOf(log[p])] else [];
    }
  }

  lemma SentsNext(log: seq<Event>, n: nat, a: string)
    requires 0 < n <= |log|
    ensures Sents(log[..n], a) == Sents(log[..n - 1], a) + SentBy(log[n - 1], a)
  {
    assert log[..n] == log[..n - 1] + [log[n - 1]];
    LogGrows(log[..n - 1], log[n - 1]);
  }

  lemma {:induction false} SurvivorsAreSelected(log: seq<Event>, n: nat, a: string, cap: nat)
    requires cap >= 1 && n <= |log| && OnceEach(log, a)
    ensures Survivors(log, n, a, cap) == Select(Sents(log[..n], a), Ids(Replayed(log, a, cap)))
    decreases n
  {
    if n > 0 {
      SurvivorsAreSelected(log, n - 1, a, cap);
      SurvivorStep(log, n - 1, a, cap);
      SelectNext(log, n, a, Ids(Replayed(log, a, cap)));
    }
  }

  lemma SelectNext(log: seq<Event>, n: nat, a: string, ids: set<string>)
    requires 0 < n <= |log|
    ensures Select(Sents(log[..n], a), ids) == Select(Sents(log[..n - 1], a), ids) + Select(SentBy(log[n - 1], a), ids)
  {
    SentsNext(log, n, a);
    SelectConcat(Sents(log[..n - 1], a), SentBy(log[n - 1], a), ids);
  }

  /** The exact content of a rebuilt queue, drop-oldest included, for a log read in any order. */
  lemma ReplayedAreSurvivors(log: seq<Event>, a: string, cap: nat)
    requires cap >= 1 && OnceEach(log, a)
    ensures Replayed(log, a, cap) == Survivors(log, |log|, a, cap)
  {
    SurvivorsAreSelected(log, |log|, a, cap);
    ReplayedIsSelected(log, a, cap);
    assert log[..|log|] == log;
  }

  // ---- positions ----

  lemma {:induction false} SentAt(log: seq<Event>, a: string, id: string)
    ensures SentCount(log, a, id) > 0 <==> exists p :: 0 <= p < |log| && SendsTo(log[p], a) && log[p].data.id == id
  {
    if log != [] {
      var front, e := Front(log), Last(log);
      assert log == front + [e];
      SentAt(front, a, id);
      SentGrowth(front, e, a, id);
      assert forall p :: 0 <= p < |front| ==> log[p] == front[p];
    }
  }

  lemma CausalIsOnce(log: seq<Event>, a: string)
    requires Causal(log)
    ensures OnceEach(log, a)
  {
    forall id ensures SentCount(log, a, id) <= 1 {
      SentOnce(log, a, id);
    }
  }
}
