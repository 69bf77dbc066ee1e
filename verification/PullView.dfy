/** One pull agent as seen at an instant: what was handed over but not yet logged as delivered,
    the live queue, what is logged as sent but not yet queued, and what a replay would rebuild.
    Each atomic step of Send and Receive keeps the same relation between the four. */
module PullView {
  import opened Events
  import opened MessageQueues

  datatype View = View(handed: seq<Message>, live: seq<Message>, awaiting: seq<Message>, replay: seq<Message>)

  /** s is t with some elements left out. */
  predicate Subseq(s: seq<Message>, t: seq<Message>)
    decreases t
  {
    s == [] || (t != [] && ((s[0] == t[0] && Subseq(s[1..], t[1..])) || Subseq(s, t[1..])))
  }

  function LastN(s: seq<Message>, n: nat): seq<Message> {
    if |s| <= n then s else s[|s| - n..]
  }

  /** The replayed queue is s followed by the newest messages that are live or on their way,
      where s is part of what was handed over but not logged. */
  predicate Explains(s: seq<Message>, v: View, cap: nat) {
    && Subseq(s, v.handed)
    && v.replay == s + LastN(v.live + v.awaiting, cap)
    && |v.replay| <= cap
    && |v.live| <= cap
  }

  ghost predicate Related(v: View, cap: nat) {
    exists s :: Explains(s, v, cap)
  }

  // ---- subsequences ----

  lemma {:induction false} SubseqRefl(s: seq<Message>)
    ensures Subseq(s, s)
  {
    if s != [] {
      SubseqRefl(s[1..]);
    }
  }

  lemma {:induction false} SubseqConcat(s: seq<Message>, t: seq<Message>, u: seq<Message>, v: seq<Message>)
    requires Subseq(s, t) && Subseq(u, v)
    ensures Subseq(s + u, t + v)
    decreases |t|
  {
    if t == [] {
      assert s + u == u && t + v == v;
    } else {
      assert (t + v)[1..] == t[1..] + v;
      if s != [] && s[0] == t[0] && Subseq(s[1..], t[1..]) {
        assert (s + u)[1..] == s[1..] + u;
        SubseqConcat(s[1..], t[1..], u, v);
      } else {
        SubseqConcat(s, t[1..], u, v);
      }
    }
  }

  lemma {:induction false} SubseqTail(s: seq<Message>, t: seq<Message>)
    requires Subseq(s, t) && s != []
    ensures Subseq(s[1..], t)
    decreases t
  {
    if !(s[0] == t[0] && Subseq(s[1..], t[1..])) {
      SubseqTail(s, t[1..]);
    }
  }

  lemma {:induction false} SubseqCount(s: seq<Message>, t: seq<Message>, a: string, id: string)
    requires Subseq(s, t)
    ensures Count(s, a, id) <= Count(t, a, id)
    decreases t
  {
    if s != [] {
      if s[0] == t[0] && Subseq(s[1..], t[1..]) {
        SubseqCount(s[1..], t[1..], a, id);
      } else {
        SubseqCount(s, t[1..], a, id);
      }
    }
  }

  lemma {:induction false} SubseqMembers(s: seq<Message>, t: seq<Message>)
    requires Subseq(s, t)
    ensures forall m <- s :: m in t
    decreases t
  {
    if s != [] {
      if s[0] == t[0] && Subseq(s[1..], t[1..]) {
        SubseqMembers(s[1..], t[1..]);
        assert s == [s[0]] + s[1..];
      } else {
        SubseqMembers(s, t[1..]);
      }
    }
  }

  lemma {:induction false} SubseqRemoved(s: seq<Message>, t: seq<Message>, a: string, id: string)
    requires Subseq(s, t) && Count(t, a, id) <= 1
    requires forall m <- t :: m.to == a
    ensures Subseq(Removed(s, id), Removed(t, id))
    decreases t
  {
    if s != [] {
      var rt := Removed(t, id);
      if s[0] == t[0] && Subseq(s[1..], t[1..]) {
        SubseqRemoved(s[1..], t[1..], a, id);
        if t[0].id != id {
          assert rt[1..] == Removed(t[1..], id);
          assert Removed(s, id)[1..] == Removed(s[1..], id);
        }
      } else if t[0].id == id {
        SubseqCount(s, t[1..], a, id);
        SubseqMembers(s, t[1..]);
        RemovedAbsent(s, id, a);
      } else {
        SubseqRemoved(s, t[1..], a, id);
        assert rt[1..] == Removed(t[1..], id);
      }
    }
  }

  lemma {:induction false} RemovedPrefix(s: seq<Message>, t: seq<Message>, a: string, id: string)
    requires Count(t, a, id) == 0
    requires forall m <- t :: m.to == a
    ensures Removed(s + t, id) == Removed(s, id) + t
  {
    if s == [] {
      assert s + t == t;
      RemovedAbsent(t, id, a);
    } else {
      assert (s + t)[1..] == s[1..] + t;
      if s[0].id != id {
        RemovedPrefix(s[1..], t, a, id);
      }
    }
  }

  lemma {:induction false} RemovedMiddle(s: seq<Message>, m: Message, t: seq<Message>, a: string)
    requires Count(s, a, m.id) == 0
    requires forall n <- s :: n.to == a
    ensures Removed(s + [m] + t, m.id) == s + t
  {
    if s == [] {
      assert s + [m] + t == [m] + t;
    } else {
      assert (s + [m] + t)[1..] == s[1..] + [m] + t;
      RemovedMiddle(s[1..], m, t, a);
    }
  }

  // ---- the steps ----

  /** Send logs message_sent. */
  lemma LogSendKeeps(v: View, m: Message, cap: nat)
    requires cap >= 1 && Related(v, cap)
    ensures Related(v.(awaiting := v.awaiting + [m], replay := Enqueued(v.replay, m, cap)), cap)
  {
    var s :| Explains(s, v, cap);
    var v' := v.(awaiting := v.awaiting + [m], replay := Enqueued(v.replay, m, cap));
    var w := v.live + v.awaiting;
    assert v'.live + v'.awaiting == w + [m];
    if |w| >= cap {
      assert Explains([], v', cap);
    } else if |v.replay| < cap {
      assert Explains(s, v', cap);
    } else {
      SubseqTail(s, v.handed);
      assert Explains(s[1..], v', cap);
    }
  }

  /** The oldest message on its way reaches the queue, which may drop its own oldest. */
  lemma QueueKeeps(v: View, cap: nat)
    requires cap >= 1 && Related(v, cap) && v.awaiting != []
    ensures Related(v.(awaiting := v.awaiting[1..], live := Enqueued(v.live, v.awaiting[0], cap)), cap)
  {
    var s :| Explains(s, v, cap);
    var v' := v.(awaiting := v.awaiting[1..], live := Enqueued(v.live, v.awaiting[0], cap));
    var w, w' := v.live + v.awaiting, v'.live + v'.awaiting;
    if |v.live| < cap {
      assert w' == w;
    } else {
      assert w' == w[1..];
    }
    assert Explains(s, v', cap);
  }

  /** The message at position p on its way reaches the queue. */
  function QueuedAt(v: View, p: nat, cap: nat): View
    requires cap >= 1 && p < |v.awaiting|
  {
    v.(awaiting := v.awaiting[..p] + v.awaiting[p + 1..], live := Enqueued(v.live, v.awaiting[p], cap))
  }

  /** It is the oldest on its way, or at least a whole queue of messages is on its way behind it. */
  predicate InTurn(v: View, p: nat, cap: nat) {
    p == 0 || p + cap < |v.awaiting|
  }

  lemma LastNSuffix(w: seq<Message>, n: nat, cap: nat)
    requires n <= |w| && n + cap <= |w|
    ensures LastN(w, cap) == LastN(w[n..], cap) && |LastN(w, cap)| == cap
  {
  }

  /** Behind a whole queue of later messages, the order in which older ones are queued does not matter. */
  lemma QueueLateKeeps(v: View, p: nat, cap: nat)
    requires cap >= 1 && Related(v, cap) && p + cap < |v.awaiting|
    ensures Related(QueuedAt(v, p, cap), cap)
  {
    var s :| Explains(s, v, cap);
    var v' := QueuedAt(v, p, cap);
    var w, w' := v.live + v.awaiting, v'.live + v'.awaiting;
    var n, n' := |v.live| + p + 1, |v'.live| + p;
    assert w[n..] == v.awaiting[p + 1..] && w'[n'..] == v.awaiting[p + 1..];
    LastNSuffix(w, n, cap);
    LastNSuffix(w', n', cap);
    assert Explains(s, v', cap);
  }

  /** Element j from the end of a replayed queue. */
  lemma FromEnd(s: seq<Message>, w: seq<Message>, cap: nat, j: nat)
    requires 1 <= j <= cap && j <= |w|
    ensures |s + LastN(w, cap)| >= j && (s + LastN(w, cap))[|s + LastN(w, cap)| - j] == w[|w| - j]
  {
  }

  lemma QueueEarlyBreaks(v: View, p: nat, cap: nat)
    requires cap >= 1 && Related(v, cap) && 0 < p < |v.awaiting| <= p + cap && v.awaiting[p - 1] != v.awaiting[p]
    ensures !Related(QueuedAt(v, p, cap), cap)
  {
    var v' := QueuedAt(v, p, cap);
    var w, w' := v.live + v.awaiting, v'.live + v'.awaiting;
    var j := |v.awaiting| - p;
    var s :| Explains(s, v, cap);
    FromEnd(s, w, cap, j);
    assert w[|w| - j] == v.awaiting[p];
    assert w'[|w'| - j] == v'.awaiting[p - 1] == v.awaiting[p - 1];
    forall s' ensures !Explains(s', v', cap) {
      FromEnd(s', w', cap, j);
    }
  }

  /** A queue step keeps the relation if and only if the message is in its turn. */
  lemma QueueKeepsIff(v: View, p: nat, cap: nat)
    requires cap >= 1 && Related(v, cap) && p < |v.awaiting|
    requires p > 0 ==> v.awaiting[p - 1] != v.awaiting[p]
    ensures Related(QueuedAt(v, p, cap), cap) <==> InTurn(v, p, cap)
  {
    if p == 0 {
      QueueKeeps(v, cap);
      assert v.awaiting[..0] + v.awaiting[1..] == v.awaiting[1..];
    } else if p + cap < |v.awaiting| {
      QueueLateKeeps(v, p, cap);
    } else {
      QueueEarlyBreaks(v, p, cap);
    }
  }

  lemma DropConcat(x: seq<Message>, y: seq<Message>, k: nat, n: nat)
    requires k <= n <= |x|
    ensures (x + y)[n..] == x[n..] + y && (x + y)[k..n] == x[k..n]
    ensures x[..n] == x[..k] + x[k..n]
  {
  }

  lemma LastNDrop(w: seq<Message>, n: nat, cap: nat)
    requires n <= |w|
    ensures n + cap <= |w| ==> LastN(w[n..], cap) == LastN(w, cap)
    ensures n + cap > |w| ==>
              var k := if |w| <= cap then 0 else |w| - cap;
              k <= n && LastN(w[n..], cap) == w[n..] && LastN(w, cap) == w[k..n] + w[n..]
  {
  }

  lemma {:induction false} SubseqExtend(s: seq<Message>, t: seq<Message>, x: seq<Message>, y: seq<Message>)
    requires Subseq(s, t)
    ensures Subseq(s, t + x) && Subseq(s + y, t + (x + y))
  {
    SubseqRefl(y);
    assert [] + y == y && s + [] == s;
    SubseqConcat([], x, y, y);
    SubseqConcat(s, t, y, x + y);
    SubseqConcat(s, t, [], x);
  }

  /** Receive takes the first n messages under its lock. */
  lemma TakeKeeps(v: View, n: nat, cap: nat)
    requires cap >= 1 && Related(v, cap) && n <= |v.live|
    ensures Related(v.(handed := v.handed + v.live[..n], live := v.live[n..]), cap)
  {
    var s :| Explains(s, v, cap);
    var w := v.live + v.awaiting;
    LastNDrop(w, n, cap);
    if n + cap <= |w| {
      DropConcat(v.live, v.awaiting, n, n);
      TakeOld(v, s, n, cap);
    } else {
      var k := if |w| <= cap then 0 else |w| - cap;
      DropConcat(v.live, v.awaiting, k, n);
      TakeNew(v, s, k, n, cap);
    }
  }

  /** Only messages that a replay no longer rebuilds are taken. */
  lemma TakeOld(v: View, s: seq<Message>, n: nat, cap: nat)
    requires Explains(s, v, cap) && n <= |v.live|
    requires LastN(v.live[n..] + v.awaiting, cap) == LastN(v.live + v.awaiting, cap)
    ensures Related(v.(handed := v.handed + v.live[..n], live := v.live[n..]), cap)
  {
    SubseqExtend(s, v.handed, v.live[..n], []);
    Witness(s, View(v.handed + v.live[..n], v.live[n..], v.awaiting, v.replay), cap);
  }

  /** From position k on, the taken messages are still rebuilt by a replay. */
  lemma TakeNew(v: View, s: seq<Message>, k: nat, n: nat, cap: nat)
    requires Explains(s, v, cap) && k <= n <= |v.live| && v.live[..n] == v.live[..k] + v.live[k..n]
    requires LastN(v.live[n..] + v.awaiting, cap) == v.live[n..] + v.awaiting
    requires LastN(v.live + v.awaiting, cap) == v.live[k..n] + (v.live[n..] + v.awaiting)
    ensures Related(v.(handed := v.handed + v.live[..n], live := v.live[n..]), cap)
  {
    var t, rest := v.live[k..n], v.live[n..] + v.awaiting;
    SubseqExtend(s, v.handed, v.live[..k], t);
    Assoc(s, t, rest);
    Witness(s + t, View(v.handed + v.live[..n], v.live[n..], v.awaiting, v.replay), cap);
  }

  lemma Witness(s: seq<Message>, v: View, cap: nat)
    requires Subseq(s, v.handed) && v.replay == s + LastN(v.live + v.awaiting, cap)
    requires |v.replay| <= cap && |v.live| <= cap
    ensures Related(v, cap)
  {
    assert Explains(s, v, cap);
  }

  /** Receive logs message_delivered for one handed-over message. */
  lemma LogDeliveryKeeps(v: View, a: string, id: string, cap: nat)
    requires cap >= 1 && Related(v, cap)
    requires forall m <- v.handed + v.live + v.awaiting :: m.to == a
    requires Count(v.handed, a, id) <= 1 && Count(v.live + v.awaiting, a, id) == 0
    ensures Related(v.(handed := Removed(v.handed, id), replay := Removed(v.replay, id)), cap)
  {
    var s :| Explains(s, v, cap);
    var v' := v.(handed := Removed(v.handed, id), replay := Removed(v.replay, id));
    var w := v.live + v.awaiting;
    var tail := LastN(w, cap);
    CountConcat(w[..|w| - |tail|], tail, a, id);
    assert w == w[..|w| - |tail|] + tail;
    SubseqRemoved(s, v.handed, a, id);
    RemovedPrefix(s, tail, a, id);
    assert Explains(Removed(s, id), v', cap);
  }

  /** With nothing handed over and nothing on its way, a replay rebuilds the live queue. */
  lemma Quiescent(v: View, cap: nat)
    requires Related(v, cap) && v.handed == [] && v.awaiting == []
    ensures v.replay == v.live
  {
    var s :| Explains(s, v, cap);
    assert v.live + v.awaiting == v.live;
  }

  /** The relation in the form of two cases: either nothing was squeezed out of live ++ awaiting,
      or the replayed queue is the last cap messages of it. */
  lemma TwoCases(v: View, cap: nat)
    requires Related(v, cap)
    ensures (exists s :: Subseq(s, v.handed) && v.replay == s + v.live + v.awaiting)
            || (|v.replay| == cap < |v.live + v.awaiting| && v.replay == LastN(v.live + v.awaiting, cap))
  {
    var s :| Explains(s, v, cap);
    if |v.live + v.awaiting| <= cap {
      assert v.replay == s + v.live + v.awaiting;
    }
  }
}
