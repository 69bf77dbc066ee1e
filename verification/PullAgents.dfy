/** Pull agents, drop-oldest included: how the queue a restart would build relates to the live one
    at every instant, and why the two agree when nothing is in flight. */
module PullAgents {
  import opened Events
  import opened MessageQueues
  import opened PullView
  import opened KernelRun
  import opened Places

  /** A message without its time: the live one carries the time of Send, the replayed one the log's. */
  function Bare(m: Message): Message {
    m.(timestamp := 0)
  }

  function Bares(s: seq<Message>): (r: seq<Message>)
    ensures |r| == |s| && forall i :: 0 <= i < |s| ==> r[i] == Bare(s[i])
  {
    seq(|s|, i requires 0 <= i < |s| => Bare(s[i]))
  }

  function ViewOf(k: Kernel, a: string, cap: nat): View
    requires cap >= 1
  {
    View(Bares(To(k.handed, a)), Bares(QueueOf(k.queues, a)), Bares(To(k.awaiting, a)), Bares(Replayed(k.log, a, cap)))
  }

  /** The message at position i is the oldest for its recipient that awaits its trigger, or at least a
      whole queue of later ones for that recipient awaits it too. */
  predicate InTurnAt(k: Kernel, i: nat, cap: nat)
    requires i < |k.awaiting|
  {
    To(k.awaiting[..i], k.awaiting[i].to) == [] || |To(k.awaiting[i + 1..], k.awaiting[i].to)| >= cap
  }

  /** The action leaves `a` a pull agent, and queues a message for `a` only in its turn. */
  predicate PullStep(k: Kernel, act: Action, a: string, cap: nat) {
    match act
    case TriggerPush(i) => i < |k.awaiting| ==> k.awaiting[i].to != a
    case TriggerQueue(i) => i < |k.awaiting| && k.awaiting[i].to == a ==> InTurnAt(k, i, cap)
    case _ => true
  }

  /** Before state n every action did, and every restart gave `a` the queue of a replay in append order. */
  predicate PullRun(ks: seq<Kernel>, acts: seq<Action>, cap: nat, a: string, n: nat)
    requires n < |ks| == |acts| + 1
  {
    n == 0 ||
    (PullRun(ks, acts, cap, a, n - 1) && PullStep(ks[n - 1], acts[n - 1], a, cap) &&
     (acts[n - 1].Restart? ==> Enabled(ks[n - 1], Restart, cap) && ReadsInOrder(ks[n - 1], a, cap)))
  }

  ghost predicate PullInv(k: Kernel, a: string, cap: nat)
    requires cap >= 1
  {
    Related(ViewOf(k, a, cap), cap) && To(k.delivering, a) == []
  }

  // ---- times do not matter to the queue operations ----

  lemma BaresConcat(s: seq<Message>, t: seq<Message>)
    ensures Bares(s + t) == Bares(s) + Bares(t)
  {
  }

  lemma BaresSlice(s: seq<Message>, n: nat)
    requires n <= |s|
    ensures Bares(s[..n]) == Bares(s)[..n] && Bares(s[n..]) == Bares(s)[n..]
  {
  }

  lemma BaresEnqueued(q: seq<Message>, m: Message, cap: nat)
    requires cap >= 1
    ensures Bares(Enqueued(q, m, cap)) == Enqueued(Bares(q), Bare(m), cap)
  {
  }

  lemma BaresFirst(m: Message, q: seq<Message>)
    ensures Bares([m] + q) == [Bare(m)] + Bares(q)
  {
  }

  lemma {:induction false} BaresRemoved(q: seq<Message>, id: string)
    ensures Bares(Removed(q, id)) == Removed(Bares(q), id)
  {
    if q != [] {
      assert Bares(q)[1..] == Bares(q[1..]);
      BaresRemoved(q[1..], id);
      BaresFirst(q[0], Removed(q[1..], id));
    }
  }

  lemma {:induction false} BaresCount(q: seq<Message>, a: string, id: string)
    ensures Count(Bares(q), a, id) == Count(q, a, id)
  {
    if q != [] {
      assert Bares(q)[1..] == Bares(q[1..]);
      BaresCount(q[1..], a, id);
    }
  }

  // ---- the steps, seen by `a` ----

  lemma ToAppend(s: seq<Message>, m: Message, a: string)
    ensures To(s + [m], a) == if m.to == a then To(s, a) + [m] else To(s, a)
    ensures Bares(To(s + [m], a)) == if m.to == a then Bares(To(s, a)) + [Bare(m)] else Bares(To(s, a))
  {
    ToConcat(s, [m], a);
  }

  function Sent(v: View, m: Message, cap: nat): View
    requires cap >= 1
  {
    v.(awaiting := v.awaiting + [m], replay := Enqueued(v.replay, m, cap))
  }

  lemma SentView(k: Kernel, m: Message, e: Event, a: string, cap: nat)
    requires cap >= 1 && e.data.MessageSent? && Bare(MessageOf(e)) == Bare(m)
    ensures m.to != a ==> ViewOf(k.(log := k.log + [e], awaiting := k.awaiting + [m]), a, cap) == ViewOf(k, a, cap)
    ensures m.to == a ==>
              ViewOf(k.(log := k.log + [e], awaiting := k.awaiting + [m]), a, cap) == Sent(ViewOf(k, a, cap), Bare(m), cap)
  {
    LogGrows(k.log, e);
    ToAppend(k.awaiting, m, a);
    BaresEnqueued(Replayed(k.log, a, cap), MessageOf(e), cap);
  }

  lemma LogSendView(k: Kernel, m: Message, e: Event, a: string, cap: nat)
    requires cap >= 1 && PullInv(k, a, cap)
    requires e.data.MessageSent? && Bare(MessageOf(e)) == Bare(m)
    ensures PullInv(k.(log := k.log + [e], awaiting := k.awaiting + [m]), a, cap)
  {
    SentView(k, m, e, a, cap);
    if m.to == a {
      PullView.LogSendKeeps(ViewOf(k, a, cap), Bare(m), cap);
    }
  }

  lemma AwaitingWithout(s: seq<Message>, i: nat, a: string)
    requires i < |s| && s[i].to == a
    ensures var b, p := Bares(To(s, a)), |To(s[..i], a)|;
            && p < |b| == p + 1 + |To(s[i + 1..], a)| && b[p] == Bare(s[i])
            && Bares(To(Without(s, i), a)) == b[..p] + b[p + 1..]
  {
    ToWithout(s, i, a);
    var x, y := To(s[..i], a), To(s[i + 1..], a);
    assert To([s[i]], a) == [s[i]];
    assert To(s, a) == x + [s[i]] + y && To(Without(s, i), a) == x + y;
  }

  /** Neighbours on their way to `a` differ, as ids do. */
  lemma NeighboursDiffer(k: Kernel, i: nat, a: string, cap: nat)
    requires Inv(k, cap) && i < |k.awaiting| && k.awaiting[i].to == a && To(k.awaiting[..i], a) != []
    ensures var b, p := Bares(To(k.awaiting, a)), |To(k.awaiting[..i], a)|; p < |b| && b[p - 1] != b[p]
  {
    var m, x := k.awaiting[i], To(k.awaiting[..i], a);
    AwaitingWithout(k.awaiting, i, a);
    ToWithout(k.awaiting, i, a);
    assert Bares(To(k.awaiting, a))[|x| - 1] == Bare(x[|x| - 1]);
    assert Kept(LedgerOf(k, a, m.id));
    CountWithout(k.awaiting, i, a, m.id);
    CountConcat(k.awaiting[..i], k.awaiting[i + 1..], a, m.id);
    CountTo(k.awaiting[..i], a, m.id);
    CountMember(x, a, m.id);
    assert x[|x| - 1] in x;
  }

  lemma NotWithout(s: seq<Message>, i: nat, a: string)
    requires i < |s| && s[i].to != a
    ensures To(Without(s, i), a) == To(s, a)
  {
    ToWithout(s, i, a);
    assert To([s[i]], a) == [] && To(s[..i], a) + [] == To(s[..i], a);
  }

  lemma PutView(k: Kernel, m: Message, a: string, cap: nat)
    requires cap >= 1
    ensures ViewOf(Put(k, m, cap), a, cap)
         == ViewOf(k, a, cap).(live := if m.to == a then Enqueued(ViewOf(k, a, cap).live, Bare(m), cap) else ViewOf(k, a, cap).live)
    ensures Put(k, m, cap).delivering == k.delivering
  {
    BaresEnqueued(QueueOf(k.queues, m.to), m, cap);
  }

  lemma QueueAtView(k: Kernel, i: nat, a: string, cap: nat)
    requires cap >= 1 && i < |k.awaiting| && k.awaiting[i].to == a
    ensures var p := |To(k.awaiting[..i], a)|;
            && p < |ViewOf(k, a, cap).awaiting|
            && ViewOf(Put(k.(awaiting := Without(k.awaiting, i)), k.awaiting[i], cap), a, cap) == QueuedAt(ViewOf(k, a, cap), p, cap)
            && (InTurn(ViewOf(k, a, cap), p, cap) <==> InTurnAt(k, i, cap))
  {
    PutView(k.(awaiting := Without(k.awaiting, i)), k.awaiting[i], a, cap);
    AwaitingWithout(k.awaiting, i, a);
  }

  /** A queue step for a pull agent keeps the relation between replayed and live queue if and only if it
      takes a message in its turn. */
  lemma QueueStepIff(k: Kernel, i: nat, a: string, cap: nat)
    requires cap >= 1 && Inv(k, cap) && i < |k.awaiting| && k.awaiting[i].to == a && PullInv(k, a, cap)
    ensures Enabled(k, TriggerQueue(i), cap)
    ensures PullInv(Apply(k, TriggerQueue(i), cap), a, cap) <==> InTurnAt(k, i, cap)
  {
    var p := |To(k.awaiting[..i], a)|;
    QueueAtView(k, i, a, cap);
    if p > 0 {
      NeighboursDiffer(k, i, a, cap);
    }
    QueueKeepsIff(ViewOf(k, a, cap), p, cap);
  }

  lemma QueueView(k: Kernel, i: nat, a: string, cap: nat)
    requires cap >= 1 && Inv(k, cap) && i < |k.awaiting| && PullStep(k, TriggerQueue(i), a, cap) && PullInv(k, a, cap)
    ensures PullInv(Put(k.(awaiting := Without(k.awaiting, i)), k.awaiting[i], cap), a, cap)
  {
    if k.awaiting[i].to == a {
      QueueStepIff(k, i, a, cap);
    } else {
      PutView(k.(awaiting := Without(k.awaiting, i)), k.awaiting[i], a, cap);
      NotWithout(k.awaiting, i, a);
    }
  }

  lemma TriggerPushView(k: Kernel, i: nat, a: string, cap: nat)
    requires cap >= 1 && i < |k.awaiting| && k.awaiting[i].to != a && PullInv(k, a, cap)
    ensures PullInv(k.(awaiting := Without(k.awaiting, i), delivering := k.delivering + [k.awaiting[i]]), a, cap)
  {
    NotWithout(k.awaiting, i, a);
    ToAppend(k.delivering, k.awaiting[i], a);
  }

  lemma {:induction false} ToMember(s: seq<Message>, i: nat, a: string)
    requires i < |s| && s[i].to == a
    ensures To(s, a) != []
  {
    if i > 0 {
      ToMember(s[1..], i - 1, a);
    }
  }

  lemma NotDelivering(k: Kernel, i: nat, a: string, cap: nat)
    requires cap >= 1 && i < |k.delivering| && PullInv(k, a, cap)
    ensures k.delivering[i].to != a && To(Without(k.delivering, i), a) == []
  {
    if k.delivering[i].to == a {
      ToMember(k.delivering, i, a);
    }
    NotWithout(k.delivering, i, a);
  }

  lemma PushOkView(k: Kernel, i: nat, a: string, cap: nat)
    requires cap >= 1 && i < |k.delivering| && PullInv(k, a, cap)
    ensures PullInv(k.(delivering := Without(k.delivering, i), handed := k.handed + [k.delivering[i]]), a, cap)
  {
    NotDelivering(k, i, a, cap);
    ToAppend(k.handed, k.delivering[i], a);
  }

  lemma PushFailView(k: Kernel, i: nat, a: string, cap: nat)
    requires cap >= 1 && i < |k.delivering| && PullInv(k, a, cap)
    ensures PullInv(Put(k.(delivering := Without(k.delivering, i)), k.delivering[i], cap), a, cap)
  {
    NotDelivering(k, i, a, cap);
  }

  lemma TakeView(k: Kernel, act: Action, a: string, cap: nat)
    requires Enabled(k, act, cap) && act.Take? && PullInv(k, a, cap) && Addressed(k, act.a, cap)
    ensures PullInv(Apply(k, act, cap), a, cap)
  {
    var v := ViewOf(k, a, cap);
    var q := QueueOf(k.queues, act.a);
    var n := TakeCount(k.queues, act.a, act.limit);
    ToConcat(k.handed, q[..n], a);
    if act.a == a {
      ToAll(q[..n], a);
      BaresConcat(To(k.handed, a), q[..n]);
      BaresSlice(q, n);
      PullView.TakeKeeps(v, n, cap);
      assert ViewOf(Apply(k, act, cap), a, cap) == v.(handed := v.handed + v.live[..n], live := v.live[n..]);
    } else {
      ToNone(q[..n], a);
      assert To(k.handed, a) + [] == To(k.handed, a);
      assert ViewOf(Apply(k, act, cap), a, cap) == v;
    }
  }

  lemma HandedRemoved(s: seq<Message>, i: nat, a: string)
    requires i < |s| && s[i].to == a && Count(s, a, s[i].id) <= 1
    ensures To(Without(s, i), a) == Removed(To(s, a), s[i].id)
  {
    var m := s[i];
    ToWithout(s, i, a);
    assert s == s[..i] + [m] + s[i + 1..];
    CountConcat(s[..i] + [m], s[i + 1..], a, m.id);
    CountAppend(s[..i], m, a, m.id);
    CountTo(s[..i], a, m.id);
    assert To([m], a) == [m];
    RemovedMiddle(To(s[..i], a), m, To(s[i + 1..], a), a);
  }

  lemma ViewAddressed(k: Kernel, a: string, cap: nat)
    requires cap >= 1 && Addressed(k, a, cap)
    ensures var v := ViewOf(k, a, cap); forall m <- v.handed + v.live + v.awaiting :: m.to == a
  {
  }

  lemma LogDeliveryView(k: Kernel, i: nat, e: Event, a: string, cap: nat)
    requires Inv(k, cap) && cap >= 1 && i < |k.handed| && PullInv(k, a, cap)
    requires e.data.MessageDelivered? && e.data.id == k.handed[i].id && e.data.to == k.handed[i].to
    ensures PullInv(k.(log := k.log + [e], handed := Without(k.handed, i)), a, cap)
  {
    var v := ViewOf(k, a, cap);
    var m := k.handed[i];
    LogGrows(k.log, e);
    if m.to == a {
      HandedOnlyThere(k, i, cap);
      assert Addressed(k, a, cap);
      var v' := ViewOf(k.(log := k.log + [e], handed := Without(k.handed, i)), a, cap);
      assert v' == v.(handed := Removed(v.handed, m.id), replay := Removed(v.replay, m.id)) by {
        HandedRemoved(k.handed, i, a);
        BaresRemoved(To(k.handed, a), m.id);
        BaresRemoved(Replayed(k.log, a, cap), m.id);
      }
      ViewAddressed(k, a, cap);
      PullView.LogDeliveryKeeps(v, a, m.id, cap);
    } else {
      NotWithout(k.handed, i, a);
    }
  }

  lemma BaresToCount(s: seq<Message>, a: string, id: string)
    ensures Count(Bares(To(s, a)), a, id) == Count(s, a, id)
  {
    CountTo(s, a, id);
    BaresCount(To(s, a), a, id);
  }

  /** A handed-over message is in no other place, and handed over once. */
  lemma HandedOnlyThere(k: Kernel, i: nat, cap: nat)
    requires Inv(k, cap) && i < |k.handed|
    ensures var m := k.handed[i]; var a := m.to;
            && Count(k.handed, a, m.id) == 1
            && Count(Bares(To(k.handed, a)), a, m.id) == 1
            && Count(Bares(QueueOf(k.queues, a)) + Bares(To(k.awaiting, a)), a, m.id) == 0
  {
    var m := k.handed[i];
    var a := m.to;
    assert Kept(LedgerOf(k, a, m.id));
    CountWithout(k.handed, i, a, m.id);
    BaresToCount(k.handed, a, m.id);
    BaresToCount(k.awaiting, a, m.id);
    BaresCount(QueueOf(k.queues, a), a, m.id);
    CountConcat(Bares(QueueOf(k.queues, a)), Bares(To(k.awaiting, a)), a, m.id);
  }

  /** A restart keeps the relation if and only if, times apart, it reads as if in append order. */
  lemma RestartViewIff(k: Kernel, a: string, cap: nat)
    requires cap >= 1 && k.cut <= |k.log|
    ensures PullInv(Restarted(k, cap), a, cap) <==> Bares(Recovered(k, a, cap)) == Bares(Replayed(k.log, a, cap))
  {
    RestartedQueues(k, a, cap);
    var v := ViewOf(Restarted(k, cap), a, cap);
    assert v.live + v.awaiting == v.live;
    if v.replay == v.live {
      assert Explains([], v, cap);
    }
    if Related(v, cap) {
      Quiescent(v, cap);
    }
  }

  lemma StepKeepsView(k: Kernel, act: Action, a: string, cap: nat)
    requires Inv(k, cap) && Enabled(k, act, cap) && (act.Restart? ==> ReadsInOrder(k, a, cap))
    requires PullStep(k, act, a, cap) && PullInv(k, a, cap)
    ensures PullInv(Apply(k, act, cap), a, cap)
  {
    match act
    case LogSend(m, ts) => LogSendView(k, m, SentEvent(k, m, ts), a, cap);
    case TriggerQueue(i) => QueueView(k, i, a, cap);
    case TriggerPush(i) => TriggerPushView(k, i, a, cap);
    case PushOk(i) => PushOkView(k, i, a, cap);
    case PushFail(i) => PushFailView(k, i, a, cap);
    case Take(b, _) =>
      assert Addressed(k, b, cap);
      TakeView(k, act, a, cap);
    case LogDelivery(i, how, ts) => LogDeliveryView(k, i, DeliveredEvent(k, k.handed[i], how, ts), a, cap);
    case LogOther(agent, data, ts) =>
      LogGrows(k.log, Event(NextSequence(k.log), ts, agent, data));
      assert ViewOf(Apply(k, act, cap), a, cap) == ViewOf(k, a, cap);
    case Rotate =>
      assert ViewOf(Apply(k, act, cap), a, cap) == ViewOf(k, a, cap);
    case Restart => RestartViewIff(k, a, cap);
  }

  lemma {:induction false} RunKeepsView(ks: seq<Kernel>, acts: seq<Action>, cap: nat, n: nat, a: string)
    requires cap >= 1 && Run(ks, acts, cap) && n < |ks| && PullRun(ks, acts, cap, a, n)
    ensures PullInv(ks[n], a, cap)
  {
    if n == 0 {
      assert Explains([], ViewOf(INIT, a, cap), cap);
    } else {
      RunKeepsView(ks, acts, cap, n - 1, a);
      RunKeeps(ks, acts, cap, n - 1);
      assert Step(ks, acts, cap, n);
      StepKeepsView(ks[n - 1], acts[n - 1], a, cap);
    }
  }

  // ---- the results ----

  /** At every state of every run in which `a` stays a pull agent, its messages are queued in their turn and
      restarts read as if in append order: the queue such a restart would build for `a` is either part of
      what was handed over but not logged, then the live queue, then the messages on their way to it; or
      exactly the last cap of the latter two.  Times apart, which a replay takes from the log. */
  lemma ReplayAtAnyState(ks: seq<Kernel>, acts: seq<Action>, cap: nat, n: nat, a: string)
    requires cap >= 1 && Run(ks, acts, cap) && n < |ks| && PullRun(ks, acts, cap, a, n)
    requires ks[n].cut <= |ks[n].log| && ReadsInOrder(ks[n], a, cap)
    ensures var k := ks[n];
            var recovered, live := Bares(Recovered(k, a, cap)), Bares(QueueOf(k.queues, a));
            var awaiting, handed := Bares(To(k.awaiting, a)), Bares(To(k.handed, a));
            (exists s :: Subseq(s, handed) && recovered == s + live + awaiting)
            || (|recovered| == cap < |live + awaiting| && recovered == LastN(live + awaiting, cap))
  {
    RunKeepsView(ks, acts, cap, n, a);
    TwoCases(ViewOf(ks[n], a, cap), cap);
  }

  /** With no Send or Receive for `a` half done, a restart rebuilds the live queue exactly, whatever
      drop-oldest discarded before, if and only if it reads as if in append order. */
  lemma RestartAtRest(ks: seq<Kernel>, acts: seq<Action>, cap: nat, n: nat, a: string)
    requires cap >= 1 && Run(ks, acts, cap) && n < |ks| && PullRun(ks, acts, cap, a, n)
    requires ks[n].cut <= |ks[n].log|
    requires forall m <- ks[n].awaiting + ks[n].handed :: m.to != a
    ensures Bares(QueueOf(Restarted(ks[n], cap).queues, a)) == Bares(QueueOf(ks[n].queues, a))
       <==> Bares(Recovered(ks[n], a, cap)) == Bares(Replayed(ks[n].log, a, cap))
    ensures ReadsInOrder(ks[n], a, cap) ==> Bares(QueueOf(Restarted(ks[n], cap).queues, a)) == Bares(QueueOf(ks[n].queues, a))
  {
    RunKeepsView(ks, acts, cap, n, a);
    RestartedQueues(ks[n], a, cap);
    ToNone(ks[n].awaiting, a);
    ToNone(ks[n].handed, a);
    Quiescent(ViewOf(ks[n], a, cap), cap);
  }
}
