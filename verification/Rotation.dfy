/** Recovery from a log that was rotated: replay reads events.jsonl, the newest events, before every
    rotated file, so a delivery may be replayed before the message it delivers. */
module Rotation {
  import opened Events
  import opened MessageQueues
  import opened Survival
  import opened KernelRun
  import opened Places
  import opened Recovery

  // ---- replaying the newer part first ----

  /** Of a causal log cut in two, the newer part sends only ids that the older part neither sent nor delivered. */
  lemma {:induction false} SplitCausal(older: seq<Event>, newer: seq<Event>, a: string, id: string)
    requires Causal(older + newer)
    ensures Causal(older) && Replayable(newer, a)
    ensures SentCount(newer, a, id) > 0 ==> SentCount(older, a, id) == 0 && Deliveries(older, a, id) == 0
  {
    if newer == [] {
      assert older + newer == older;
    } else {
      var front, e := Front(newer), Last(newer);
      assert older + newer == (older + front) + [e] && newer == front + [e];
      LogGrows(older + front, e);
      SplitCausal(older, front, a, id);
      SentGrowth(front, e, a, id);
      if e.data.MessageSent? && e.data.to == a {
        FreshAbsent(older + front, e.data.id, a);
        LogConcat(older, front, a, e.data.id);
      }
    }
  }

  /** No message_sent event for `a` meets a full queue while `y` is replayed after `x`. */
  ghost predicate NeverFullAfter(x: seq<Event>, y: seq<Event>, a: string, cap: nat)
    requires cap >= 1
  {
    y == [] ||
    (NeverFullAfter(x, Front(y), a, cap) &&
     (Last(y).data.MessageSent? && Last(y).data.to == a ==> |Replayed(x + Front(y), a, cap)| < cap))
  }

  lemma {:induction false} NeverFullSplit(x: seq<Event>, y: seq<Event>, a: string, cap: nat)
    requires cap >= 1 && NeverFull(x + y, a, cap)
    ensures NeverFull(x, a, cap) && NeverFullAfter(x, y, a, cap)
  {
    if y == [] {
      assert x + y == x;
    } else {
      assert x + y == (x + Front(y)) + [Last(y)];
      LogGrows(x + Front(y), Last(y));
      NeverFullSplit(x, Front(y), a, cap);
    }
  }

  lemma {:induction false} RemovedAfter(s: seq<Message>, t: seq<Message>, a: string, id: string)
    requires (forall m <- s :: m.to == a) && Count(s, a, id) == 0
    ensures Removed(s + t, id) == s + Removed(t, id)
  {
    if s == [] {
      assert s + t == t;
    } else {
      assert (s + t)[1..] == s[1..] + t;
      RemovedAfter(s[1..], t, a, id);
    }
  }

  lemma AppliedAfter(p: seq<Message>, q: seq<Message>, e: Event, a: string, cap: nat)
    requires cap >= 1 && forall m <- p :: m.to == a
    requires e.data.MessageSent? && e.data.to == a ==> |p + q| < cap
    requires e.data.MessageDelivered? && e.data.to == a ==> Count(p, a, e.data.id) == 0
    ensures Applied(p + q, e, a, cap)
         == p + (if e.data.MessageSent? && e.data.to == a then q + [MessageOf(e)]
                 else if e.data.MessageDelivered? && e.data.to == a then Removed(q, e.data.id) else q)
  {
    if e.data.MessageDelivered? && e.data.to == a {
      RemovedAfter(p, q, a, e.data.id);
    }
  }

  lemma ReplayOlderStep(newer: seq<Event>, front: seq<Event>, e: Event, a: string, cap: nat)
    requires cap >= 1 && Replayable(front + [e], a)
    requires Replayed(newer + front, a, cap) == Pending(newer, a) + Pending(front, a)
    requires e.data.MessageSent? && e.data.to == a ==> |Replayed(newer + front, a, cap)| < cap
    requires e.data.MessageDelivered? && e.data.to == a ==> SentCount(newer, a, e.data.id) == 0
    ensures Replayed((newer + front) + [e], a, cap) == Pending(newer, a) + Pending(front + [e], a)
  {
    LogGrows(newer + front, e);
    PendingGrowth(front, e, a);
    PendingAddressed(newer, a);
    if e.data.MessageDelivered? {
      PendingCount(newer, a, e.data.id);
    }
    AppliedAfter(Pending(newer, a), Pending(front, a), e, a, cap);
  }

  /** The older part neither sends nor delivers what the newer part sends. */
  ghost predicate Disjoint(newer: seq<Event>, older: seq<Event>, a: string) {
    forall id :: SentCount(newer, a, id) > 0 ==> SentCount(older, a, id) == 0 && Deliveries(older, a, id) == 0
  }

  lemma DisjointFront(newer: seq<Event>, older: seq<Event>, a: string)
    requires older != [] && Disjoint(newer, older, a)
    ensures Disjoint(newer, Front(older), a)
    ensures Last(older).data.MessageDelivered? && Last(older).data.to == a ==> SentCount(newer, a, Last(older).data.id) == 0
  {
    var front, e := Front(older), Last(older);
    assert older == front + [e];
    forall id ensures SentCount(newer, a, id) > 0 ==> SentCount(front, a, id) == 0 && Deliveries(front, a, id) == 0 {
      SentGrowth(front, e, a, id);
    }
    if e.data.MessageDelivered? && e.data.to == a {
      SentGrowth(front, e, a, e.data.id);
    }
  }

  /** What ReplayOlder assumes holds of the older part without its last event, and lets that event be replayed. */
  lemma OlderFront(newer: seq<Event>, older: seq<Event>, a: string, cap: nat)
    requires cap >= 1 && older != [] && Replayable(older, a) && Disjoint(newer, older, a) && NeverFullAfter(newer, older, a, cap)
    ensures var front, e := Front(older), Last(older);
            && Replayable(front, a) && Disjoint(newer, front, a) && NeverFullAfter(newer, front, a, cap)
            && older == front + [e] && newer + older == (newer + front) + [e]
            && (e.data.MessageSent? && e.data.to == a ==> |Replayed(newer + front, a, cap)| < cap)
            && (e.data.MessageDelivered? && e.data.to == a ==> SentCount(newer, a, e.data.id) == 0)
  {
    DisjointFront(newer, older, a);
  }

  /** Replaying `older` after `newer` appends its own pending messages to those of `newer`. */
  lemma {:induction false} ReplayOlder(newer: seq<Event>, older: seq<Event>, a: string, cap: nat)
    requires cap >= 1 && Replayable(older, a) && Replayable(newer, a) && Disjoint(newer, older, a)
    requires NeverFull(newer, a, cap) && NeverFullAfter(newer, older, a, cap)
    ensures Replayed(newer + older, a, cap) == Pending(newer, a) + Pending(older, a)
  {
    if older == [] {
      assert newer + older == newer && Pending(older, a) == [];
      ReplayIsPending(newer, a, cap);
    } else {
      OlderFront(newer, older, a, cap);
      ReplayOlder(newer, Front(older), a, cap);
      ReplayOlderStep(newer, Front(older), Last(older), a, cap);
    }
  }

  /** Without a full queue a restart rebuilds first the messages of the current file that have no delivery
      there, then those of the rotated files that have no delivery in a rotated file. */
  lemma RecoveredParts(k: Kernel, cap: nat, a: string)
    requires cap >= 1 && k.cut <= |k.log| && Causal(k.log) && NeverFull(ReplayOrder(k), a, cap)
    ensures Recovered(k, a, cap) == Pending(NewerPart(k), a) + Pending(OlderPart(k), a)
  {
    var older, newer := OlderPart(k), NewerPart(k);
    assert k.log == older + newer;
    forall id ensures SentCount(newer, a, id) > 0 ==> SentCount(older, a, id) == 0 && Deliveries(older, a, id) == 0 {
      SplitCausal(older, newer, a, id);
    }
    SplitCausal(older, newer, a, "");
    CausalIsReplayable(older, a);
    NeverFullSplit(newer, older, a, cap);
    ReplayOlder(newer, older, a, cap);
  }

  lemma RotatedCount(k: Kernel, a: string, id: string)
    requires k.cut <= |k.log|
    ensures SentCount(k.log, a, id) == SentCount(OlderPart(k), a, id) + SentCount(NewerPart(k), a, id)
    ensures Deliveries(k.log, a, id) == Deliveries(OlderPart(k), a, id) + Deliveries(NewerPart(k), a, id)
    ensures Count(Pending(NewerPart(k), a) + Pending(OlderPart(k), a), a, id)
         == (if Deliveries(NewerPart(k), a, id) == 0 then SentCount(NewerPart(k), a, id) else 0)
          + (if Deliveries(OlderPart(k), a, id) == 0 then SentCount(OlderPart(k), a, id) else 0)
  {
    var older, newer := OlderPart(k), NewerPart(k);
    assert k.log == older + newer;
    LogConcat(older, newer, a, id);
    CountConcat(Pending(newer, a), Pending(older, a), a, id);
    PendingCount(newer, a, id);
    PendingCount(older, a, id);
  }

  /** For every rotation layout: a restart whose replay meets no full queue brings every message back at
      most once, loses no undelivered one, and the delivered messages it brings back are exactly those
      sent in a rotated file whose delivery events are all in the current file. */
  lemma RotationLosesNothing(ks: seq<Kernel>, acts: seq<Action>, cap: nat, n: nat, a: string, id: string)
    requires cap >= 1 && Run(ks, acts, cap) && n < |ks|
    ensures ks[n].cut <= |ks[n].log|
    ensures NeverFull(ReplayOrder(ks[n]), a, cap) ==>
              && Count(Recovered(ks[n], a, cap), a, id) <= 1
              && (SentCount(ks[n].log, a, id) > 0 && Deliveries(ks[n].log, a, id) == 0
                  ==> Count(Recovered(ks[n], a, cap), a, id) == 1)
              && (Count(Recovered(ks[n], a, cap), a, id) > 0 && Deliveries(ks[n].log, a, id) > 0
                  <==> Crosses(OlderPart(ks[n]), NewerPart(ks[n]), a, id))
  {
    RunKeeps(ks, acts, cap, n);
    if NeverFull(ReplayOrder(ks[n]), a, cap) {
      RecoveredCount(ks[n], cap, a, id);
    }
  }

  lemma RecoveredCount(k: Kernel, cap: nat, a: string, id: string)
    requires cap >= 1 && k.cut <= |k.log| && Causal(k.log) && NeverFull(ReplayOrder(k), a, cap)
    ensures Count(Recovered(k, a, cap), a, id) <= 1
    ensures SentCount(k.log, a, id) > 0 && Deliveries(k.log, a, id) == 0 ==> Count(Recovered(k, a, cap), a, id) == 1
    ensures Count(Recovered(k, a, cap), a, id) > 0 && Deliveries(k.log, a, id) > 0 <==> Crosses(OlderPart(k), NewerPart(k), a, id)
  {
    RecoveredParts(k, cap, a);
    PartsCount(k, a, id);
  }

  lemma PartsCount(k: Kernel, a: string, id: string)
    requires k.cut <= |k.log| && Causal(k.log)
    ensures var c := Count(Pending(NewerPart(k), a) + Pending(OlderPart(k), a), a, id);
            && c <= 1
            && (SentCount(k.log, a, id) > 0 && Deliveries(k.log, a, id) == 0 ==> c == 1)
            && (c > 0 && Deliveries(k.log, a, id) > 0 <==> Crosses(OlderPart(k), NewerPart(k), a, id))
  {
    RotatedCount(k, a, id);
    PartsApart(k, a, id);
    assert k.log == OlderPart(k) + NewerPart(k);
    SplitCausal(OlderPart(k), NewerPart(k), a, id);
  }

  /** So such a restart brings no delivered message back exactly when none crosses the rotation. */
  lemma RoomyReturnsIff(k: Kernel, cap: nat, a: string)
    requires cap >= 1 && k.cut <= |k.log| && Causal(k.log) && NeverFull(ReplayOrder(k), a, cap)
    ensures NoneReturns(k, a, cap) <==> forall id :: !Crosses(OlderPart(k), NewerPart(k), a, id)
  {
    NoneReturnsIff(k, a, cap);
    if NoneReturns(k, a, cap) {
      forall id ensures !Crosses(OlderPart(k), NewerPart(k), a, id) {
        RecoveredCount(k, cap, a, id);
      }
    } else {
      var id :| Deliveries(k.log, a, id) > 0 && Count(Recovered(k, a, cap), a, id) > 0;
      RecoveredCount(k, cap, a, id);
    }
  }

  // ---- what a restart rebuilds, full queues or not ----

  /** The queue a restart rebuilds at any state of any run, for any rotation layout and drop-oldest included:
      in listing order, each message that survives what is read after it. */
  lemma RotatedRecovery(ks: seq<Kernel>, acts: seq<Action>, cap: nat, n: nat, a: string)
    requires cap >= 1 && Run(ks, acts, cap) && n < |ks|
    ensures ks[n].cut <= |ks[n].log|
    ensures Recovered(ks[n], a, cap) == Survivors(ReplayOrder(ks[n]), |ks[n].log|, a, cap)
    ensures NeverFull(ReplayOrder(ks[n]), a, cap)
        ==> Recovered(ks[n], a, cap) == Pending(NewerPart(ks[n]), a) + Pending(OlderPart(ks[n]), a)
  {
    RunKeeps(ks, acts, cap, n);
    SurvivorsRecovered(ks[n], cap, a);
    if NeverFull(ReplayOrder(ks[n]), a, cap) {
      RecoveredParts(ks[n], cap, a);
    }
  }

  lemma SurvivorsRecovered(k: Kernel, cap: nat, a: string)
    requires cap >= 1 && k.cut <= |k.log| && Causal(k.log)
    ensures Recovered(k, a, cap) == Survivors(ReplayOrder(k), |k.log|, a, cap)
  {
    ReadOnce(k, a);
    ReplayedAreSurvivors(ReplayOrder(k), a, cap);
  }

  /** Which messages come back, for any layout: at most once each; an undelivered one if and only if what is
      read after it leaves room for it; a delivered one if and only if it returns. */
  lemma RotationRecoversIff(ks: seq<Kernel>, acts: seq<Action>, cap: nat, n: nat, a: string, p: nat)
    requires cap >= 1 && Run(ks, acts, cap) && n < |ks| && p < |ks[n].log| && SendsTo(ks[n].log[p], a)
    ensures ks[n].cut <= |ks[n].log|
    ensures var k, id := ks[n], ks[n].log[p].data.id;
            && Count(Recovered(k, a, cap), a, id) <= 1
            && (Deliveries(k.log, a, id) == 0 ==> (Count(Recovered(k, a, cap), a, id) == 1 <==> Room(ReadAfter(k, p), a, cap)))
            && (Deliveries(k.log, a, id) > 0
                ==> (Count(Recovered(k, a, cap), a, id) == 1 <==> p < k.cut && Returns(k, p, a, cap)))
  {
    RunKeeps(ks, acts, cap, n);
    RecoversOne(ks[n], p, a, cap);
  }

  lemma RecoversOne(k: Kernel, p: nat, a: string, cap: nat)
    requires cap >= 1 && k.cut <= |k.log| && Causal(k.log) && p < |k.log| && SendsTo(k.log[p], a)
    ensures var id := k.log[p].data.id;
            && Count(Recovered(k, a, cap), a, id) <= 1
            && (Deliveries(k.log, a, id) == 0 ==> (Count(Recovered(k, a, cap), a, id) == 1 <==> Room(ReadAfter(k, p), a, cap)))
            && (Deliveries(k.log, a, id) > 0
                ==> (Count(Recovered(k, a, cap), a, id) == 1 <==> p < k.cut && Returns(k, p, a, cap)))
  {
    var id := k.log[p].data.id;
    ReplayConserves(ReplayOrder(k), cap, a, id);
    ReplayOrderCounts(k, a, id);
    SentOnce(k.log, a, id);
    RecoveredIff(k, p, a, cap);
    if Deliveries(k.log, a, id) > 0 {
      ReturnsIff(k, p, a, cap);
    } else {
      ReadAfterCounts(k, p, a, id);
    }
  }

  lemma ReadAfterCounts(k: Kernel, p: nat, a: string, id: string)
    requires k.cut <= |k.log| && p < |k.log|
    ensures Deliveries(ReadAfter(k, p), a, id) <= Deliveries(k.log, a, id)
  {
    var i := if p < k.cut then |k.log| - k.cut + p else p - k.cut;
    var order := ReplayOrder(k);
    assert order == order[..i + 1] + order[i + 1..] && order[i + 1..] == ReadAfter(k, p);
    LogConcat(order[..i + 1], order[i + 1..], a, id);
    ReplayOrderCounts(k, a, id);
  }

  // ---- when the result is the one a replay in append order gives ----

  /** Two non-empty queues without a common id are never the same in both orders. */
  lemma SwapDiffers(s: seq<Message>, t: seq<Message>, a: string)
    requires s != [] && t != [] && (forall m <- s + t :: m.to == a)
    requires forall id :: Count(s, a, id) > 0 ==> Count(t, a, id) == 0
    ensures s + t != t + s
  {
    CountMember(s, a, s[0].id);
    assert (s + t)[0] == s[0] && (t + s)[0] == t[0];
    CountMember(t, a, t[0].id);
  }

  lemma {:induction false} SelectFacts(s: seq<Message>, ids: set<string>, a: string, id: string)
    ensures Count(Select(s, ids), a, id) <= Count(s, a, id)
    ensures forall m <- Select(s, ids) :: m in s
    ensures Select(s, ids) == [] <==> forall m <- s :: m.id !in ids
  {
    if s != [] {
      SelectFacts(s[1..], ids, a, id);
      var first := if s[0].id in ids then [s[0]] else [];
      CountConcat(first, Select(s[1..], ids), a, id);
      assert s == [s[0]] + s[1..];
    }
  }

  /** Two queues made of the same sends, x then y and y then x, are equal if and only if they hold the same
      messages and not both parts contribute. */
  lemma TwoOrdersIff(x: seq<Message>, y: seq<Message>, u: seq<Message>, w: seq<Message>, a: string)
    requires (forall m <- x + y :: m.to == a) && forall id :: Count(x, a, id) + Count(y, a, id) <= 1
    requires u == Select(y + x, Ids(u)) && w == Select(x + y, Ids(w))
    ensures u == w <==> Ids(u) == Ids(w) && (Select(x, Ids(u)) == [] || Select(y, Ids(u)) == [])
  {
    var ids := Ids(u);
    SelectConcat(y, x, ids);
    SelectConcat(x, y, ids);
    var s, t := Select(y, ids), Select(x, ids);
    if s == [] || t == [] {
      assert s + t == t + s;
    } else {
      SelectFacts(x, ids, a, "");
      SelectFacts(y, ids, a, "");
      forall id ensures Count(s, a, id) > 0 ==> Count(t, a, id) == 0 {
        SelectFacts(x, ids, a, id);
        SelectFacts(y, ids, a, id);
        assert Count(x, a, id) + Count(y, a, id) <= 1;
      }
      SwapDiffers(s, t, a);
    }
  }

  /** A restart would bring back the message that event p sends to `a`: a condition on the log. */
  predicate Recovers(k: Kernel, p: nat, a: string, cap: nat)
    requires k.cut <= |k.log| && p < |k.log|
  {
    SendsTo(k.log[p], a) && Outlives(k.log[p].data.id, ReadAfter(k, p), a, cap)
  }

  /** Some of the events from lo to hi send a message that a restart brings back. */
  predicate SomeRecover(k: Kernel, lo: nat, hi: nat, a: string, cap: nat)
    requires lo <= hi <= |k.log| && k.cut <= |k.log|
  {
    exists p :: lo <= p < hi && Recovers(k, p, a, cap)
  }

  lemma SomeRecoverIff(k: Kernel, lo: nat, hi: nat, a: string, cap: nat)
    requires cap >= 1 && lo <= hi <= |k.log| && k.cut <= |k.log| && Causal(k.log)
    ensures SomeRecover(k, lo, hi, a, cap) <==> Select(Sents(k.log[lo..hi], a), Ids(Recovered(k, a, cap))) != []
  {
    var part, ids := k.log[lo..hi], Ids(Recovered(k, a, cap));
    SelectedIff(part, a, ids);
    forall p | 0 <= p < |k.log| && SendsTo(k.log[p], a) ensures Recovers(k, p, a, cap) <==> k.log[p].data.id in ids {
      RecoveredHas(k, p, a, cap);
    }
    SomeIn(k, lo, hi, a, cap, ids);
  }

  lemma SomeIn(k: Kernel, lo: nat, hi: nat, a: string, cap: nat, ids: set<string>)
    requires lo <= hi <= |k.log| && k.cut <= |k.log|
    requires forall p :: 0 <= p < |k.log| && SendsTo(k.log[p], a) ==> (Recovers(k, p, a, cap) <==> k.log[p].data.id in ids)
    ensures var part := k.log[lo..hi];
            SomeRecover(k, lo, hi, a, cap) <==> exists i :: 0 <= i < |part| && SendsTo(part[i], a) && part[i].data.id in ids
  {
    var part := k.log[lo..hi];
    if p :| lo <= p < hi && Recovers(k, p, a, cap) {
      assert part[p - lo] == k.log[p];
    }
    if i :| 0 <= i < |part| && SendsTo(part[i], a) && part[i].data.id in ids {
      assert part[i] == k.log[lo + i] && Recovers(k, lo + i, a, cap);
    }
  }

  lemma SelectedIff(part: seq<Event>, a: string, ids: set<string>)
    ensures Select(Sents(part, a), ids) != [] <==> exists i :: 0 <= i < |part| && SendsTo(part[i], a) && part[i].data.id in ids
  {
    SelectFacts(Sents(part, a), ids, a, "");
    if i :| 0 <= i < |part| && SendsTo(part[i], a) && part[i].data.id in ids {
      SentAt(part, a, part[i].data.id);
      CountMember(Sents(part, a), a, part[i].data.id);
    }
    if m :| m in Sents(part, a) && m.id in ids {
      CountMember(Sents(part, a), a, m.id);
      SentAt(part, a, m.id);
    }
  }

  lemma RecoveredHas(k: Kernel, p: nat, a: string, cap: nat)
    requires cap >= 1 && k.cut <= |k.log| && Causal(k.log) && p < |k.log| && SendsTo(k.log[p], a)
    ensures k.log[p].data.id in Ids(Recovered(k, a, cap)) <==> Recovers(k, p, a, cap)
  {
    RecoveredIff(k, p, a, cap);
    ReplayedAddressed(ReplayOrder(k), a, cap);
    CountMember(Recovered(k, a, cap), a, k.log[p].data.id);
  }

  /** Every message a restart brings back is one that w holds, and the other way round. */
  ghost predicate SameMessages(k: Kernel, w: seq<Message>, a: string, cap: nat)
    requires k.cut <= |k.log|
  {
    forall p :: 0 <= p < |k.log| && SendsTo(k.log[p], a) ==> (Recovers(k, p, a, cap) <==> Count(w, a, k.log[p].data.id) > 0)
  }

  lemma SameMessagesIff(k: Kernel, w: seq<Message>, a: string, cap: nat)
    requires cap >= 1 && k.cut <= |k.log| && Causal(k.log) && (forall m <- w :: m.to == a)
    requires forall id :: Count(w, a, id) <= SentCount(k.log, a, id)
    ensures SameMessages(k, w, a, cap) <==> Ids(Recovered(k, a, cap)) == Ids(w)
  {
    forall p | 0 <= p < |k.log| && SendsTo(k.log[p], a)
      ensures Count(w, a, k.log[p].data.id) > 0 <==> k.log[p].data.id in Ids(w)
      ensures Recovers(k, p, a, cap) <==> k.log[p].data.id in Ids(Recovered(k, a, cap))
    {
      RecoveredHas(k, p, a, cap);
      CountMember(w, a, k.log[p].data.id);
    }
    if SameMessages(k, w, a, cap) {
      forall id ensures id in Ids(Recovered(k, a, cap)) <==> id in Ids(w) {
        SentIfHeld(k, w, a, cap, id);
      }
    }
  }

  lemma SentIfHeld(k: Kernel, w: seq<Message>, a: string, cap: nat, id: string)
    requires cap >= 1 && k.cut <= |k.log| && (forall m <- w :: m.to == a) && Count(w, a, id) <= SentCount(k.log, a, id)
    ensures id in Ids(Recovered(k, a, cap)) || id in Ids(w)
        ==> exists p :: 0 <= p < |k.log| && SendsTo(k.log[p], a) && k.log[p].data.id == id
  {
    ReplayedAddressed(ReplayOrder(k), a, cap);
    CountMember(Recovered(k, a, cap), a, id);
    CountMember(w, a, id);
    ReplayConserves(ReplayOrder(k), cap, a, id);
    ReplayOrderCounts(k, a, id);
    SentAt(k.log, a, id);
  }

  /** A restart gives the queue w, made of sent messages in append order, if and only if it brings back
      the same messages and not both parts of the log contribute. */
  lemma RecoveredIsIff(k: Kernel, w: seq<Message>, a: string, cap: nat)
    requires cap >= 1 && k.cut <= |k.log| && Causal(k.log) && w == Select(Sents(k.log, a), Ids(w))
    requires (forall m <- w :: m.to == a) && forall id :: Count(w, a, id) <= SentCount(k.log, a, id)
    ensures Recovered(k, a, cap) == w
       <==> && SameMessages(k, w, a, cap)
            && !(SomeRecover(k, 0, k.cut, a, cap) && SomeRecover(k, k.cut, |k.log|, a, cap))
  {
    var older, newer := OlderPart(k), NewerPart(k);
    assert k.log == older + newer && k.log[0..k.cut] == older && k.log[k.cut..|k.log|] == newer;
    SentsConcat(older, newer, a);
    SentsConcat(newer, older, a);
    ReadOnce(k, a);
    ReplayedIsSelected(ReplayOrder(k), a, cap);
    forall id ensures Count(Sents(older, a), a, id) + Count(Sents(newer, a), a, id) <= 1 {
      PartsApart(k, a, id);
    }
    TwoOrdersIff(Sents(older, a), Sents(newer, a), Recovered(k, a, cap), w, a);
    SameMessagesIff(k, w, a, cap);
    SomeRecoverIff(k, 0, k.cut, a, cap);
    SomeRecoverIff(k, k.cut, |k.log|, a, cap);
  }

  /** For any layout, full queues or not: a restart gives the queue of a replay in append order if and only
      if the same messages survive what is read after them and what is logged after them, and not both a
      rotated file and the current one contribute. */
  lemma RotationInOrderIff(ks: seq<Kernel>, acts: seq<Action>, cap: nat, n: nat, a: string)
    requires cap >= 1 && Run(ks, acts, cap) && n < |ks|
    ensures ks[n].cut <= |ks[n].log|
    ensures ReadsInOrder(ks[n], a, cap)
       <==> && SameSurvivors(ks[n], a, cap)
            && !(SomeRecover(ks[n], 0, ks[n].cut, a, cap) && SomeRecover(ks[n], ks[n].cut, |ks[n].log|, a, cap))
  {
    RunKeeps(ks, acts, cap, n);
    InOrderOne(ks[n], a, cap);
  }

  /** What is read after a message and what is logged after it agree on whether it survives. */
  predicate SameSurvivors(k: Kernel, a: string, cap: nat)
    requires k.cut <= |k.log|
  {
    forall p :: 0 <= p < |k.log| && SendsTo(k.log[p], a) ==>
      (Recovers(k, p, a, cap) <==> Outlives(k.log[p].data.id, k.log[p + 1..], a, cap))
  }

  lemma InOrderOne(k: Kernel, a: string, cap: nat)
    requires cap >= 1 && k.cut <= |k.log| && Causal(k.log)
    ensures ReadsInOrder(k, a, cap)
       <==> && SameSurvivors(k, a, cap)
            && !(SomeRecover(k, 0, k.cut, a, cap) && SomeRecover(k, k.cut, |k.log|, a, cap))
  {
    var w := Replayed(k.log, a, cap);
    CausalIsOnce(k.log, a);
    ReplayedIsSelected(k.log, a, cap);
    ReplayedAddressed(k.log, a, cap);
    forall id ensures Count(w, a, id) <= SentCount(k.log, a, id) {
      ReplayConserves(k.log, cap, a, id);
    }
    forall p | 0 <= p < |k.log| && SendsTo(k.log[p], a)
      ensures Count(w, a, k.log[p].data.id) > 0 <==> Outlives(k.log[p].data.id, k.log[p + 1..], a, cap)
    {
      SurvivesIff(k.log, p, a, cap);
    }
    RecoveredIsIff(k, w, a, cap);
  }

  /** For any layout, full queues or not: a restart gives the undelivered messages in sending order if and
      only if exactly those survive what is read after them, and not both parts contribute. */
  lemma RotationPendingIff(ks: seq<Kernel>, acts: seq<Action>, cap: nat, n: nat, a: string)
    requires cap >= 1 && Run(ks, acts, cap) && n < |ks|
    ensures ks[n].cut <= |ks[n].log|
    ensures Recovered(ks[n], a, cap) == Pending(ks[n].log, a)
       <==> && OnlyUndelivered(ks[n], a, cap)
            && !(SomeRecover(ks[n], 0, ks[n].cut, a, cap) && SomeRecover(ks[n], ks[n].cut, |ks[n].log|, a, cap))
  {
    RunKeeps(ks, acts, cap, n);
    PendingOne(ks[n], a, cap);
  }

  predicate OnlyUndelivered(k: Kernel, a: string, cap: nat)
    requires k.cut <= |k.log|
  {
    forall p :: 0 <= p < |k.log| && SendsTo(k.log[p], a) ==>
      (Recovers(k, p, a, cap) <==> Deliveries(k.log, a, k.log[p].data.id) == 0)
  }

  lemma PendingOne(k: Kernel, a: string, cap: nat)
    requires cap >= 1 && k.cut <= |k.log| && Causal(k.log)
    ensures Recovered(k, a, cap) == Pending(k.log, a)
       <==> && OnlyUndelivered(k, a, cap)
            && !(SomeRecover(k, 0, k.cut, a, cap) && SomeRecover(k, k.cut, |k.log|, a, cap))
  {
    var w := Pending(k.log, a);
    PendingAddressed(k.log, a);
    UndeliveredIsSelected(Sents(k.log, a), k.log, a);
    forall id ensures Count(w, a, id) <= SentCount(k.log, a, id) {
      PendingCount(k.log, a, id);
    }
    forall p | 0 <= p < |k.log| && SendsTo(k.log[p], a)
      ensures Count(w, a, k.log[p].data.id) > 0 <==> Deliveries(k.log, a, k.log[p].data.id) == 0
    {
      PendingCount(k.log, a, k.log[p].data.id);
      SentAt(k.log, a, k.log[p].data.id);
    }
    RecoveredIsIff(k, w, a, cap);
  }

  lemma UndeliveredIsSelected(s: seq<Message>, log: seq<Event>, a: string)
    ensures Undelivered(s, log, a) == Select(s, Ids(Undelivered(s, log, a)))
  {
    UndeliveredByIds(s, log, a, Ids(Undelivered(s, log, a)));
  }

  lemma {:induction false} UndeliveredByIds(s: seq<Message>, log: seq<Event>, a: string, ids: set<string>)
    requires Ids(Undelivered(s, log, a)) <= ids && forall id <- ids :: Deliveries(log, a, id) == 0
    ensures Undelivered(s, log, a) == Select(s, ids)
  {
    if s != [] {
      var rest := Undelivered(s[1..], log, a);
      var first := if Deliveries(log, a, s[0].id) == 0 then [s[0]] else [];
      assert forall m <- rest :: m in first + rest;
      assert forall m <- first :: m in first + rest;
      UndeliveredByIds(s[1..], log, a, ids);
    }
  }

  // ---- without a full queue ----

  /** No message crosses the rotation, and not both parts of the log have pending messages. */
  ghost predicate Tidy(k: Kernel, a: string)
    requires k.cut <= |k.log|
  {
    && (forall id :: !Crosses(OlderPart(k), NewerPart(k), a, id))
    && (Pending(OlderPart(k), a) == [] || Pending(NewerPart(k), a) == [])
  }

  /** When its replay meets no full queue, a restart gives the undelivered messages in sending order if and
      only if the rotation is tidy; when a replay in append order meets none either, it gives the same. */
  lemma RotationTidyIff(ks: seq<Kernel>, acts: seq<Action>, cap: nat, n: nat, a: string)
    requires cap >= 1 && Run(ks, acts, cap) && n < |ks|
    ensures ks[n].cut <= |ks[n].log|
    ensures NeverFull(ReplayOrder(ks[n]), a, cap) ==>
              (Recovered(ks[n], a, cap) == Pending(ks[n].log, a) <==> Tidy(ks[n], a))
    ensures NeverFull(ReplayOrder(ks[n]), a, cap) && NeverFull(ks[n].log, a, cap) ==>
              (ReadsInOrder(ks[n], a, cap) <==> Tidy(ks[n], a))
  {
    RunKeeps(ks, acts, cap, n);
    if NeverFull(ReplayOrder(ks[n]), a, cap) {
      RecoveredPendingIff(ks[n], cap, a);
      if NeverFull(ks[n].log, a, cap) {
        CausalIsReplayable(ks[n].log, a);
        ReplayIsPending(ks[n].log, a, cap);
      }
    }
  }

  lemma RecoveredPendingIff(k: Kernel, cap: nat, a: string)
    requires cap >= 1 && k.cut <= |k.log| && Causal(k.log) && NeverFull(ReplayOrder(k), a, cap)
    ensures Recovered(k, a, cap) == Pending(k.log, a) <==> Tidy(k, a)
  {
    var older, newer := OlderPart(k), NewerPart(k);
    assert k.log == older + newer;
    if id :| Crosses(older, newer, a, id) {
      CrossingDiffers(k, cap, a, id);
    } else {
      RecoveredParts(k, cap, a);
      InOrderPending(older, newer, a);
      PartsSwapIff(older, newer, a);
    }
  }

  /** A message that crosses the rotation is brought back and not pending. */
  lemma CrossingDiffers(k: Kernel, cap: nat, a: string, id: string)
    requires cap >= 1 && k.cut <= |k.log| && Causal(k.log) && NeverFull(ReplayOrder(k), a, cap)
    requires Crosses(OlderPart(k), NewerPart(k), a, id)
    ensures Recovered(k, a, cap) != Pending(k.log, a)
  {
    RecoveredCount(k, cap, a, id);
    PendingCount(k.log, a, id);
  }

  lemma PendingApart(older: seq<Event>, newer: seq<Event>, a: string, id: string)
    requires Causal(older + newer)
    ensures Count(Pending(newer, a), a, id) > 0 ==> Count(Pending(older, a), a, id) == 0
  {
    SplitCausal(older, newer, a, id);
    PendingCount(newer, a, id);
    PendingCount(older, a, id);
  }

  /** The order of two parts matters exactly when both have pending messages. */
  lemma PartsSwapIff(older: seq<Event>, newer: seq<Event>, a: string)
    requires Causal(older + newer)
    ensures Pending(newer, a) + Pending(older, a) == Pending(older, a) + Pending(newer, a)
       <==> Pending(older, a) == [] || Pending(newer, a) == []
  {
    var x, y := Pending(newer, a), Pending(older, a);
    if x == [] || y == [] {
      assert x + y == y + x;
    } else {
      forall id ensures Count(x, a, id) > 0 ==> Count(y, a, id) == 0 {
        PendingApart(older, newer, a, id);
      }
      SwapDiffers(x, y, a);
    }
  }

  /** The pending messages of a log cut in two, when the newer part delivers again only what the
      older part delivered already. */
  lemma InOrderPending(older: seq<Event>, newer: seq<Event>, a: string)
    requires Causal(older + newer)
    requires forall id :: !Crosses(older, newer, a, id)
    ensures Pending(older + newer, a) == Pending(older, a) + Pending(newer, a)
  {
    LogConcat(older, newer, a, "");
    UndeliveredConcat(Sents(older, a), Sents(newer, a), older + newer, a);
    forall m <- Sents(older, a) ensures Deliveries(older + newer, a, m.id) == 0 <==> Deliveries(older, a, m.id) == 0 {
      CountMember(Sents(older, a), a, m.id);
      assert !Crosses(older, newer, a, m.id);
      LogConcat(older, newer, a, m.id);
    }
    UndeliveredSame(Sents(older, a), older + newer, older, a);
    forall m <- Sents(newer, a) ensures Deliveries(older + newer, a, m.id) == Deliveries(newer, a, m.id) {
      CountMember(Sents(newer, a), a, m.id);
      SplitCausal(older, newer, a, m.id);
      LogConcat(older, newer, a, m.id);
    }
    UndeliveredSame(Sents(newer, a), older + newer, newer, a);
  }
}
