/** How often a WebSocket client is sent an event, over any series of ticks. */
module Resending {
  import opened Events
  import opened EventLogs
  import opened Observer
  import opened Stream

  /** No event is in the list twice. */
  ghost predicate Once(s: seq<Event>) {
    forall e: Event :: multiset(s)[e] <= 1
  }

  predicate Below(x: seq<Event>, y: seq<Event>) {
    forall e <- x :: forall d <- y :: e.sequence < d.sequence
  }

  /** Two ascending parts, the lower one second: a rotated log as it is listed. */
  predicate TwoParts(c: seq<Event>, o: seq<Event>) {
    Ascending(c) && Ascending(o) && Below(o, c)
  }

  ghost predicate InTwoParts(es: seq<Event>) {
    exists c: seq<Event>, o: seq<Event> :: es == c + o && TwoParts(c, o)
  }

  /** The last event of two parts is the highest exactly when one of them is empty. */
  lemma LastIsHighestIff(c: seq<Event>, o: seq<Event>)
    requires TwoParts(c, o)
    ensures Ascending(c + o) <==> c == [] || o == []
    ensures c + o != [] ==> (After(c + o, Last(c + o).sequence) == [] <==> Ascending(c + o))
  {
    AscendingConcat(c, o);
    if c != [] && o != [] {
      assert c[0] in c && o[0] in o && Last(o) in o && Last(c + o) == Last(o);
      AfterConcat(c, o, Last(o).sequence);
      AfterAll(c, Last(o).sequence);
    } else {
      assert c + o == c || c + o == o;
      if c + o != [] {
        assert (c + o) + [] == c + o;
        AfterLast(c + o, []);
      }
    }
  }

  lemma HighestIff(es: seq<Event>)
    requires InTwoParts(es) && es != []
    ensures After(es, Last(es).sequence) == [] <==> Ascending(es)
  {
    var c: seq<Event>, o: seq<Event> :| es == c + o && TwoParts(c, o);
    LastIsHighestIff(c, o);
  }

  lemma PartsMatch(c: seq<Event>, o: seq<Event>, since: int, f: Filter)
    requires TwoParts(c, o)
    ensures Matching(c + o, since, f) == Matching(c, since, f) + Matching(o, since, f)
    ensures TwoParts(Matching(c, since, f), Matching(o, since, f))
  {
    MatchingConcat(c, o, since, f);
    MatchingAscends(c, since, f);
    MatchingAscends(o, since, f);
  }

  // ---- a reader's list ----

  /** Tick t adds later events, in two parts. */
  ghost predicate NewsOn(feed: Feed, t: nat)
    requires 0 < t <= |feed.news|
  {
    Below(IndexAfter(feed, t - 1), feed.news[t - 1]) && InTwoParts(feed.news[t - 1])
  }

  ghost predicate Onward(feed: Feed) {
    forall t :: 0 < t <= |feed.news| ==> NewsOn(feed, t)
  }

  /** What a client is due after t ticks. */
  function DueAfter(feed: Feed, connectSeq: int, f: Filter, t: nat): seq<Event>
    requires t <= |feed.news|
  {
    Matching(IndexAfter(feed, t), connectSeq, f)
  }

  /** What is new for a client at tick t. */
  function NewsFor(feed: Feed, connectSeq: int, f: Filter, t: nat): seq<Event>
    requires 0 < t <= |feed.news|
  {
    Matching(feed.news[t - 1], connectSeq, f)
  }

  lemma DueNext(feed: Feed, connectSeq: int, f: Filter, t: nat)
    requires 0 < t <= |feed.news| && NewsOn(feed, t)
    ensures DueAfter(feed, connectSeq, f, t) == DueAfter(feed, connectSeq, f, t - 1) + NewsFor(feed, connectSeq, f, t)
    ensures Below(DueAfter(feed, connectSeq, f, t - 1), NewsFor(feed, connectSeq, f, t))
    ensures InTwoParts(NewsFor(feed, connectSeq, f, t))
  {
    var c: seq<Event>, o: seq<Event> :| feed.news[t - 1] == c + o && TwoParts(c, o);
    PartsMatch(c, o, connectSeq, f);
    MatchingConcat(IndexAfter(feed, t - 1), feed.news[t - 1], connectSeq, f);
  }

  lemma NewerMatch(due: seq<Event>, news: seq<Event>, connectSeq: int, f: Filter)
    requires Below(due, news) && forall e <- due :: e.sequence > connectSeq
    ensures Matching(news, Cursor(due, connectSeq), f) == Matching(news, connectSeq, f)
  {
    if due != [] {
      assert Last(due) in due;
      MatchingAfter(news, connectSeq, Last(due).sequence, f);
      AfterAll(Matching(news, connectSeq, f), Last(due).sequence);
    }
  }

  lemma OlderMatchNone(index: seq<Event>, connectSeq: int, f: Filter)
    requires Ascending(Matching(index, connectSeq, f))
    ensures Matching(index, Cursor(Matching(index, connectSeq, f), connectSeq), f) == []
  {
    DueRest(index, connectSeq, f, Matching(index, connectSeq, f));
  }

  /** What a client that has been sent everything is sent at the next tick: its news. */
  lemma NewsIsNext(feed: Feed, connectSeq: int, f: Filter, t: nat)
    requires 0 < t <= |feed.news| && NewsOn(feed, t) && Ascending(DueAfter(feed, connectSeq, f, t - 1))
    ensures Matching(IndexAfter(feed, t), Cursor(DueAfter(feed, connectSeq, f, t - 1), connectSeq), f)
         == NewsFor(feed, connectSeq, f, t)
  {
    var due, index, news := DueAfter(feed, connectSeq, f, t - 1), IndexAfter(feed, t - 1), feed.news[t - 1];
    MatchingConcat(index, news, Cursor(due, connectSeq), f);
    OlderMatchNone(index, connectSeq, f);
    NewerMatch(due, news, connectSeq, f);
  }

  /** Once a client has been sent its news, and there was some, nothing matches any more exactly when that
      news ascends: otherwise the next tick sends some of it again. */
  lemma ResentIff(feed: Feed, connectSeq: int, f: Filter, t: nat)
    requires 0 < t <= |feed.news| && NewsOn(feed, t) && NewsFor(feed, connectSeq, f, t) != []
    ensures var last := Last(NewsFor(feed, connectSeq, f, t)).sequence;
            && Matching(IndexAfter(feed, t), last, f) == After(DueAfter(feed, connectSeq, f, t), last)
            && (After(DueAfter(feed, connectSeq, f, t), last) == [] <==> NewsAscends(feed, connectSeq, f, t))
  {
    var due, news := DueAfter(feed, connectSeq, f, t - 1), NewsFor(feed, connectSeq, f, t);
    DueNext(feed, connectSeq, f, t);
    HighestIff(news);
    assert Last(news) in news;
    MatchingAfter(IndexAfter(feed, t), connectSeq, Last(news).sequence, f);
    AfterConcat(due, news, Last(news).sequence);
    AfterNone(due, Last(news).sequence);
  }

  // ---- no event twice ----

  lemma OnceConcat(x: seq<Event>, y: seq<Event>)
    requires Once(x) && Once(y) && (Below(x, y) || Below(y, x))
    ensures Once(x + y)
  {
    forall e: Event ensures multiset(x + y)[e] <= 1 {
      assert multiset(x + y)[e] == multiset(x)[e] + multiset(y)[e];
      assert !(e in x && e in y);
    }
  }

  lemma {:induction false} AscendingOnce(es: seq<Event>)
    requires Ascending(es)
    ensures Once(es)
  {
    if es != [] {
      assert es == Front(es) + [Last(es)];
      AscendingConcat(Front(es), [Last(es)]);
      AscendingOnce(Front(es));
      OnceConcat(Front(es), [Last(es)]);
    }
  }

  lemma PartsOnce(es: seq<Event>)
    requires InTwoParts(es)
    ensures Once(es)
  {
    var c: seq<Event>, o: seq<Event> :| es == c + o && TwoParts(c, o);
    AscendingOnce(c);
    AscendingOnce(o);
    OnceConcat(c, o);
  }

  lemma PrefixOnce(x: seq<Event>, y: seq<Event>)
    requires x <= y
    ensures Once(y) ==> Once(x)
  {
    assert y == x + y[|x|..];
    assert forall e: Event :: multiset(y)[e] == multiset(x)[e] + multiset(y[|x|..])[e];
  }

  /** Every write of tick t succeeds. */
  predicate Written(feed: Feed, connectSeq: int, f: Filter, sent: seq<Event>, ok: seq<nat>, t: nat)
    requires 0 < t <= |feed.news| == |ok|
  {
    |Matching(IndexAfter(feed, t), Cursor(SentAfter(feed, connectSeq, f, sent, ok, t - 1), connectSeq), f)| <= ok[t - 1]
  }

  /** A connection until its last write: every write succeeds, except perhaps some of the last tick. */
  ghost predicate Connected(feed: Feed, connectSeq: int, f: Filter, sent: seq<Event>, ok: seq<nat>) {
    && 0 < |feed.news| == |ok| && ok[|ok| - 1] > 0
    && forall t :: 0 < t < |feed.news| ==> Written(feed, connectSeq, f, sent, ok, t)
  }

  lemma InStepNext(feed: Feed, connectSeq: int, f: Filter, sent: seq<Event>, ok: seq<nat>, t: nat)
    requires 0 < t <= |feed.news| == |ok| && NewsOn(feed, t) && NewsAscends(feed, connectSeq, f, t)
    requires Ascending(DueAfter(feed, connectSeq, f, t - 1))
    requires SentAfter(feed, connectSeq, f, sent, ok, t - 1) <= DueAfter(feed, connectSeq, f, t - 1)
    ensures Ascending(DueAfter(feed, connectSeq, f, t))
    ensures SentAfter(feed, connectSeq, f, sent, ok, t) <= DueAfter(feed, connectSeq, f, t)
    ensures Written(feed, connectSeq, f, sent, ok, t) ==>
              SentAfter(feed, connectSeq, f, sent, ok, t) == DueAfter(feed, connectSeq, f, t)
  {
    var before := SentAfter(feed, connectSeq, f, sent, ok, t - 1);
    DueNext(feed, connectSeq, f, t);
    AscendingConcat(DueAfter(feed, connectSeq, f, t - 1), NewsFor(feed, connectSeq, f, t));
    NextInStep(IndexAfter(feed, t), connectSeq, f, before, ok[t - 1]);
    DueRest(IndexAfter(feed, t), connectSeq, f, before);
  }

  lemma {:induction false} InStepUpTo(feed: Feed, connectSeq: int, f: Filter, sent: seq<Event>, ok: seq<nat>, t: nat)
    requires Onward(feed) && t <= |feed.news| == |ok|
    requires Ascending(DueAfter(feed, connectSeq, f, 0)) && sent <= DueAfter(feed, connectSeq, f, 0)
    requires forall u :: 0 < u <= t ==> NewsAscends(feed, connectSeq, f, u)
    ensures Ascending(DueAfter(feed, connectSeq, f, t))
    ensures SentAfter(feed, connectSeq, f, sent, ok, t) <= DueAfter(feed, connectSeq, f, t)
    decreases t
  {
    if t > 0 {
      InStepUpTo(feed, connectSeq, f, sent, ok, t - 1);
      assert NewsOn(feed, t) && NewsAscends(feed, connectSeq, f, t);
      InStepNext(feed, connectSeq, f, sent, ok, t);
    }
  }

  /** While the news for a client ascends it has been sent, whatever writes failed, what it is due up to
      some event; and all of it if every write of the last tick succeeded. */
  lemma InStepAfter(feed: Feed, connectSeq: int, f: Filter, sent: seq<Event>, ok: seq<nat>, t: nat)
    requires Onward(feed) && t <= |feed.news| == |ok|
    requires Ascending(DueAfter(feed, connectSeq, f, 0)) && sent <= DueAfter(feed, connectSeq, f, 0)
    requires forall u :: 0 < u <= t ==> NewsAscends(feed, connectSeq, f, u)
    ensures Ascending(DueAfter(feed, connectSeq, f, t))
    ensures SentAfter(feed, connectSeq, f, sent, ok, t) <= DueAfter(feed, connectSeq, f, t)
    ensures t > 0 && Written(feed, connectSeq, f, sent, ok, t) ==>
              SentAfter(feed, connectSeq, f, sent, ok, t) == DueAfter(feed, connectSeq, f, t)
  {
    InStepUpTo(feed, connectSeq, f, sent, ok, t);
    if t > 0 {
      InStepUpTo(feed, connectSeq, f, sent, ok, t - 1);
      assert NewsOn(feed, t) && NewsAscends(feed, connectSeq, f, t);
      InStepNext(feed, connectSeq, f, sent, ok, t);
    }
  }

  lemma {:induction false} DueOnce(feed: Feed, connectSeq: int, f: Filter, t: nat)
    requires Onward(feed) && t <= |feed.news| && Once(DueAfter(feed, connectSeq, f, 0))
    ensures Once(DueAfter(feed, connectSeq, f, t))
    decreases t
  {
    if t > 0 {
      DueOnce(feed, connectSeq, f, t - 1);
      assert NewsOn(feed, t);
      DueOnceNext(feed, connectSeq, f, t);
    }
  }

  lemma DueOnceNext(feed: Feed, connectSeq: int, f: Filter, t: nat)
    requires 0 < t <= |feed.news| && NewsOn(feed, t) && Once(DueAfter(feed, connectSeq, f, t - 1))
    ensures Once(DueAfter(feed, connectSeq, f, t))
  {
    var due, news := DueAfter(feed, connectSeq, f, t - 1), NewsFor(feed, connectSeq, f, t);
    DueNext(feed, connectSeq, f, t);
    PartsOnce(news);
    OnceConcat(due, news);
  }

  /** A tick of a client that has been sent everything. */
  lemma NextTickSends(feed: Feed, connectSeq: int, f: Filter, sent: seq<Event>, ok: seq<nat>, t: nat)
    requires 0 < t <= |feed.news| == |ok| && NewsOn(feed, t) && Ascending(DueAfter(feed, connectSeq, f, t - 1))
    requires SentAfter(feed, connectSeq, f, sent, ok, t - 1) == DueAfter(feed, connectSeq, f, t - 1)
    ensures SentAfter(feed, connectSeq, f, sent, ok, t) <= DueAfter(feed, connectSeq, f, t)
    ensures Written(feed, connectSeq, f, sent, ok, t) ==>
              SentAfter(feed, connectSeq, f, sent, ok, t) == DueAfter(feed, connectSeq, f, t)
  {
    NewsIsNext(feed, connectSeq, f, t);
    MatchingConcat(IndexAfter(feed, t - 1), feed.news[t - 1], connectSeq, f);
    TakeGrows(DueAfter(feed, connectSeq, f, t - 1), NewsFor(feed, connectSeq, f, t), ok[t - 1]);
  }

  lemma TakeGrows(due: seq<Event>, news: seq<Event>, ok: nat)
    ensures due + Take(news, ok) <= due + news && (|news| <= ok ==> Take(news, ok) == news)
  {
  }

  lemma RepeatsFirst(sent: seq<Event>, batch: seq<Event>, again: seq<Event>, ok: nat)
    requires again != [] && again <= batch && (forall e <- again :: e in sent) && ok > 0
    ensures !Once(sent + Take(batch, ok))
  {
    var e := again[0];
    assert e in again && e == Take(batch, ok)[0];
    assert multiset(sent + Take(batch, ok))[e] == multiset(sent)[e] + multiset(Take(batch, ok))[e] > 1;
  }

  /** A client that has been sent everything, split news last, is sent some of it again by the next write. */
  lemma SplitIsResent(feed: Feed, connectSeq: int, f: Filter, sent: seq<Event>, ok: seq<nat>, t: nat)
    requires 0 < t < |feed.news| == |ok| && NewsOn(feed, t) && !NewsAscends(feed, connectSeq, f, t)
    requires SentAfter(feed, connectSeq, f, sent, ok, t) == DueAfter(feed, connectSeq, f, t)
    requires Written(feed, connectSeq, f, sent, ok, t + 1) || ok[t] > 0
    ensures !Once(SentAfter(feed, connectSeq, f, sent, ok, t + 1))
  {
    var due, news := DueAfter(feed, connectSeq, f, t), NewsFor(feed, connectSeq, f, t);
    DueNext(feed, connectSeq, f, t);
    ResentIff(feed, connectSeq, f, t);
    assert Last(due) == Last(news);
    MatchingConcat(IndexAfter(feed, t), feed.news[t], Last(due).sequence, f);
    RepeatsFirst(due, Matching(IndexAfter(feed, t + 1), Last(due).sequence, f), After(due, Last(due).sequence), ok[t]);
  }

  /** Until the first split news the client has been sent everything at every tick but the last. */
  lemma CaughtUp(feed: Feed, connectSeq: int, f: Filter, sent: seq<Event>, ok: seq<nat>, t: nat)
    requires Onward(feed) && Connected(feed, connectSeq, f, sent, ok) && 0 < t <= |feed.news|
    requires sent == DueAfter(feed, connectSeq, f, 0) && Ascending(sent)
    requires forall u :: 0 < u < t ==> NewsAscends(feed, connectSeq, f, u)
    ensures SentAfter(feed, connectSeq, f, sent, ok, t) <= DueAfter(feed, connectSeq, f, t)
    ensures t < |feed.news| ==> SentAfter(feed, connectSeq, f, sent, ok, t) == DueAfter(feed, connectSeq, f, t)
  {
    InStepAfter(feed, connectSeq, f, sent, ok, t - 1);
    assert t > 1 ==> Written(feed, connectSeq, f, sent, ok, t - 1);
    assert NewsOn(feed, t) && (t < |feed.news| ==> Written(feed, connectSeq, f, sent, ok, t));
    NextTickSends(feed, connectSeq, f, sent, ok, t);
  }

  /** At no tick has the client been sent an event twice. */
  ghost predicate NeverTwice(feed: Feed, connectSeq: int, f: Filter, sent: seq<Event>, ok: seq<nat>)
    requires |feed.news| == |ok|
  {
    forall t :: 0 <= t <= |feed.news| ==> Once(SentAfter(feed, connectSeq, f, sent, ok, t))
  }

  lemma FirstSplit(feed: Feed, connectSeq: int, f: Filter, sent: seq<Event>, ok: seq<nat>, t: nat)
    requires Onward(feed) && Connected(feed, connectSeq, f, sent, ok)
    requires 0 < t < |feed.news| && !NewsAscends(feed, connectSeq, f, t)
    requires SentAfter(feed, connectSeq, f, sent, ok, t) == DueAfter(feed, connectSeq, f, t)
    ensures !Once(SentAfter(feed, connectSeq, f, sent, ok, t + 1))
  {
    assert NewsOn(feed, t) && (t + 1 < |feed.news| ==> Written(feed, connectSeq, f, sent, ok, t + 1));
    SplitIsResent(feed, connectSeq, f, sent, ok, t);
  }

  lemma {:induction false} SplitRepeats(feed: Feed, connectSeq: int, f: Filter, sent: seq<Event>, ok: seq<nat>, t: nat)
    requires Onward(feed) && Connected(feed, connectSeq, f, sent, ok)
    requires sent == DueAfter(feed, connectSeq, f, 0) && Ascending(sent)
    requires 0 < t < |feed.news| && !NewsAscends(feed, connectSeq, f, t)
    ensures !NeverTwice(feed, connectSeq, f, sent, ok)
    decreases t
  {
    if u: nat :| 0 < u < t && !NewsAscends(feed, connectSeq, f, u) {
      SplitRepeats(feed, connectSeq, f, sent, ok, u);
    } else {
      CaughtUp(feed, connectSeq, f, sent, ok, t);
      FirstSplit(feed, connectSeq, f, sent, ok, t);
    }
  }

  lemma AscendingRepeatsNone(feed: Feed, connectSeq: int, f: Filter, sent: seq<Event>, ok: seq<nat>)
    requires Onward(feed) && Connected(feed, connectSeq, f, sent, ok)
    requires sent == DueAfter(feed, connectSeq, f, 0) && Ascending(sent)
    requires forall t :: 0 < t < |feed.news| ==> NewsAscends(feed, connectSeq, f, t)
    ensures NeverTwice(feed, connectSeq, f, sent, ok)
  {
    AscendingOnce(sent);
    forall t: nat | 0 < t <= |feed.news| ensures Once(SentAfter(feed, connectSeq, f, sent, ok, t)) {
      CaughtUp(feed, connectSeq, f, sent, ok, t);
      DueOnce(feed, connectSeq, f, t);
      PrefixOnce(SentAfter(feed, connectSeq, f, sent, ok, t), DueAfter(feed, connectSeq, f, t));
    }
  }

  /** As long as a connection lasts, a client that starts with all it is due is never sent an event twice
      exactly when no tick but the last brings it news that does not ascend. */
  lemma NoneTwiceIff(feed: Feed, connectSeq: int, f: Filter, sent: seq<Event>, ok: seq<nat>)
    requires Onward(feed) && Connected(feed, connectSeq, f, sent, ok)
    requires sent == DueAfter(feed, connectSeq, f, 0) && Ascending(sent)
    ensures NeverTwice(feed, connectSeq, f, sent, ok) <==>
            forall t :: 0 < t < |feed.news| ==> NewsAscends(feed, connectSeq, f, t)
  {
    if t: nat :| 0 < t < |feed.news| && !NewsAscends(feed, connectSeq, f, t) {
      SplitRepeats(feed, connectSeq, f, sent, ok, t);
    } else {
      AscendingRepeatsNone(feed, connectSeq, f, sent, ok);
    }
  }

  // ---- no event missed ----

  predicate Within(x: seq<Event>, y: seq<Event>) {
    forall e <- x :: e in y
  }

  lemma NewsArrives(index: seq<Event>, news: seq<Event>, connectSeq: int, f: Filter, sent: seq<Event>)
    requires Within(sent, Matching(index, connectSeq, f)) && Below(index, news)
    ensures var batch := Matching(index + news, Cursor(sent, connectSeq), f);
            Within(Matching(news, connectSeq, f), batch) && Within(batch, Matching(index + news, connectSeq, f))
  {
    assert Below(sent, news);
    NewerMatch(sent, news, connectSeq, f);
    MatchingConcat(index, news, Cursor(sent, connectSeq), f);
    assert sent != [] ==> Last(sent) in sent;
    MatchingAfter(index + news, connectSeq, Cursor(sent, connectSeq), f);
  }

  /** At every tick up to t the client has been sent every event it is due, and no other. */
  ghost predicate NoneMissed(feed: Feed, connectSeq: int, f: Filter, sent: seq<Event>, ok: seq<nat>, t: nat)
    requires t <= |feed.news| == |ok|
  {
    && Within(DueAfter(feed, connectSeq, f, t), SentAfter(feed, connectSeq, f, sent, ok, t))
    && Within(SentAfter(feed, connectSeq, f, sent, ok, t), DueAfter(feed, connectSeq, f, t))
    && (t > 0 ==> NoneMissed(feed, connectSeq, f, sent, ok, t - 1))
  }

  lemma NoneMissedNext(feed: Feed, connectSeq: int, f: Filter, sent: seq<Event>, ok: seq<nat>, t: nat)
    requires 0 < t <= |feed.news| == |ok| && NewsOn(feed, t) && Written(feed, connectSeq, f, sent, ok, t)
    requires NoneMissed(feed, connectSeq, f, sent, ok, t - 1)
    ensures NoneMissed(feed, connectSeq, f, sent, ok, t)
  {
    MatchingConcat(IndexAfter(feed, t - 1), feed.news[t - 1], connectSeq, f);
    NewsArrives(IndexAfter(feed, t - 1), feed.news[t - 1], connectSeq, f, SentAfter(feed, connectSeq, f, sent, ok, t - 1));
  }

  ghost predicate MissesNoneNext(feed: Feed, connectSeq: int, f: Filter, sent: seq<Event>, ok: seq<nat>, t: nat)
    requires 0 < t <= |feed.news| == |ok|
  {
    NoneMissed(feed, connectSeq, f, sent, ok, t - 1) ==> NoneMissed(feed, connectSeq, f, sent, ok, t)
  }

  lemma {:induction false} NoneMissedTo(feed: Feed, connectSeq: int, f: Filter, sent: seq<Event>, ok: seq<nat>, t: nat)
    requires t <= |feed.news| == |ok| && NoneMissed(feed, connectSeq, f, sent, ok, 0)
    requires forall u :: 0 < u <= t ==> MissesNoneNext(feed, connectSeq, f, sent, ok, u)
    ensures NoneMissed(feed, connectSeq, f, sent, ok, t)
    decreases t
  {
    if t > 0 {
      NoneMissedTo(feed, connectSeq, f, sent, ok, t - 1);
      assert MissesNoneNext(feed, connectSeq, f, sent, ok, t);
    }
  }

  /** Split news or not, a client all of whose writes succeed misses no event. */
  lemma WrittenMissNone(feed: Feed, connectSeq: int, f: Filter, sent: seq<Event>, ok: seq<nat>, t: nat)
    requires Onward(feed) && t <= |feed.news| == |ok|
    requires forall u :: 0 < u <= t ==> Written(feed, connectSeq, f, sent, ok, u)
    requires NoneMissed(feed, connectSeq, f, sent, ok, 0)
    ensures NoneMissed(feed, connectSeq, f, sent, ok, t)
  {
    forall u | 0 < u <= t ensures MissesNoneNext(feed, connectSeq, f, sent, ok, u) {
      assert NewsOn(feed, u) && Written(feed, connectSeq, f, sent, ok, u);
      if NoneMissed(feed, connectSeq, f, sent, ok, u - 1) {
        NoneMissedNext(feed, connectSeq, f, sent, ok, u);
      }
    }
    NoneMissedTo(feed, connectSeq, f, sent, ok, t);
  }

  // ---- on the log ----

  /** The snapshot brings a client news both in the current file and in the rotated ones. */
  ghost predicate Split(before: seq<Event>, s: Snapshot, connectSeq: int, f: Filter)
  {
    && Laid(s.dir, s.times)
    && Matching(After(s.dir[CURRENT_NAME], LastSeq(before)), connectSeq, f) != []
    && Matching(After(Older(s.dir, s.times), LastSeq(before)), connectSeq, f) != []
  }

  lemma NewsParts(before: seq<Event>, s: Snapshot)
    requires Follows(before, s)
    ensures var c, o := After(s.dir[CURRENT_NAME], LastSeq(before)), After(Older(s.dir, s.times), LastSeq(before));
            News(before, s) == c + o && TwoParts(c, o)
  {
    var current, older, since := s.dir[CURRENT_NAME], Older(s.dir, s.times), LastSeq(before);
    ListingOrder(s.dir, s.times);
    AfterConcat(current, older, since);
    AscendingConcat(older, current);
    AfterAscends(current, since);
    AfterAscends(older, since);
  }

  lemma NotSplitIff(before: seq<Event>, s: Snapshot, connectSeq: int, f: Filter)
    requires Follows(before, s)
    ensures Ascending(Matching(News(before, s), connectSeq, f)) <==> !Split(before, s, connectSeq, f)
  {
    var c, o := After(s.dir[CURRENT_NAME], LastSeq(before)), After(Older(s.dir, s.times), LastSeq(before));
    NewsParts(before, s);
    PartsMatch(c, o, connectSeq, f);
    LastIsHighestIff(Matching(c, connectSeq, f), Matching(o, connectSeq, f));
  }

  lemma NewsIsAbove(index: seq<Event>, before: seq<Event>, s: Snapshot)
    requires Numbered(before) && multiset(index) == multiset(before) && Follows(before, s)
    ensures Below(index, News(before, s)) && InTwoParts(News(before, s))
    ensures multiset(index + News(before, s)) == multiset(s.history)
  {
    NoneAbove(index, before, Filter([], ""));
    NewsParts(before, s);
    AllAreRead(s.dir, s.times, before, index);
  }

  lemma FeedTick(feed: Feed, t: nat, before: seq<Event>, s: Snapshot)
    requires 0 < t <= |feed.news| && feed.news[t - 1] == News(before, s) && Follows(before, s)
    requires Numbered(before) && multiset(IndexAfter(feed, t - 1)) == multiset(before)
    ensures Numbered(s.history) && multiset(IndexAfter(feed, t)) == multiset(s.history)
    ensures NewsOn(feed, t)
  {
    NewsIsAbove(IndexAfter(feed, t - 1), before, s);
  }

  /** Up to tick t a reader's list holds what it has seen, and grows by later events in two parts. */
  ghost predicate HoldsLog(feed: Feed, start: seq<Event>, snapshots: seq<Snapshot>, t: nat)
    requires t <= |snapshots| == |feed.news|
  {
    && Numbered(HistoryBefore(start, snapshots, t))
    && multiset(IndexAfter(feed, t)) == multiset(HistoryBefore(start, snapshots, t))
    && (t > 0 ==> NewsOn(feed, t) && HoldsLog(feed, start, snapshots, t - 1))
  }

  lemma FeedStep(feed: Feed, start: seq<Event>, snapshots: seq<Snapshot>, t: nat)
    requires 0 < t <= |snapshots| == |feed.news| && HoldsLog(feed, start, snapshots, t - 1)
    requires Follows(HistoryBefore(start, snapshots, t - 1), snapshots[t - 1])
    requires feed.news[t - 1] == News(HistoryBefore(start, snapshots, t - 1), snapshots[t - 1])
    ensures HoldsLog(feed, start, snapshots, t)
  {
    FeedTick(feed, t, HistoryBefore(start, snapshots, t - 1), snapshots[t - 1]);
  }

  ghost predicate FeedGrows(feed: Feed, start: seq<Event>, snapshots: seq<Snapshot>, t: nat)
    requires 0 < t <= |snapshots| == |feed.news|
  {
    HoldsLog(feed, start, snapshots, t - 1) ==> HoldsLog(feed, start, snapshots, t)
  }

  lemma FeedNext(feed: Feed, start: seq<Event>, snapshots: seq<Snapshot>, t: nat)
    requires Grown(start, snapshots) && Feeds(feed, start, snapshots) && 0 < t <= |snapshots|
    requires HoldsLog(feed, start, snapshots, t - 1)
    ensures HoldsLog(feed, start, snapshots, t)
  {
    assert FollowsAt(start, snapshots, t - 1) && FeedsAt(feed, start, snapshots, t - 1);
    FeedStep(feed, start, snapshots, t);
  }

  lemma {:induction false} FeedHolds(feed: Feed, start: seq<Event>, snapshots: seq<Snapshot>, t: nat)
    requires t <= |snapshots| == |feed.news| && HoldsLog(feed, start, snapshots, 0)
    requires forall u :: 0 < u <= t ==> FeedGrows(feed, start, snapshots, u)
    ensures HoldsLog(feed, start, snapshots, t)
    decreases t
  {
    if t > 0 {
      FeedHolds(feed, start, snapshots, t - 1);
      assert FeedGrows(feed, start, snapshots, t);
    }
  }

  lemma {:induction false} HeldAt(feed: Feed, start: seq<Event>, snapshots: seq<Snapshot>, t: nat, u: nat)
    requires 0 < u <= t <= |snapshots| == |feed.news| && HoldsLog(feed, start, snapshots, t)
    ensures NewsOn(feed, u)
    decreases t - u
  {
    if u < t {
      HeldAt(feed, start, snapshots, t - 1, u);
    }
  }

  /** Of a log that grows a reader is fed later events, in two parts. */
  lemma FeedIsOnward(feed: Feed, start: seq<Event>, snapshots: seq<Snapshot>)
    requires Numbered(start) && multiset(feed.events) == multiset(start)
    requires Grown(start, snapshots) && Feeds(feed, start, snapshots)
    ensures Onward(feed)
  {
    var n := |snapshots|;
    forall t | 0 < t <= n ensures FeedGrows(feed, start, snapshots, t) {
      if HoldsLog(feed, start, snapshots, t - 1) {
        FeedNext(feed, start, snapshots, t);
      }
    }
    FeedHolds(feed, start, snapshots, n);
    forall t | 0 < t <= n ensures NewsOn(feed, t) {
      HeldAt(feed, start, snapshots, n, t);
    }
  }

  /** Tick t finds what is new for a client split. */
  ghost predicate SplitAt(start: seq<Event>, snapshots: seq<Snapshot>, connectSeq: int, f: Filter, t: nat)
    requires 0 < t <= |snapshots|
  {
    Split(HistoryBefore(start, snapshots, t - 1), snapshots[t - 1], connectSeq, f)
  }

  lemma NewsAscendsIffWhole(feed: Feed, t: nat, before: seq<Event>, s: Snapshot, connectSeq: int, f: Filter)
    requires 0 < t <= |feed.news| && feed.news[t - 1] == News(before, s) && Follows(before, s)
    ensures NewsAscends(feed, connectSeq, f, t) <==> !Split(before, s, connectSeq, f)
  {
    NotSplitIff(before, s, connectSeq, f);
  }

  lemma SplitAtIff(feed: Feed, start: seq<Event>, snapshots: seq<Snapshot>, connectSeq: int, f: Filter, t: nat)
    requires 0 < t <= |snapshots| == |feed.news|
    requires FollowsAt(start, snapshots, t - 1) && FeedsAt(feed, start, snapshots, t - 1)
    ensures NewsAscends(feed, connectSeq, f, t) <==> !SplitAt(start, snapshots, connectSeq, f, t)
  {
    NewsAscendsIffWhole(feed, t, HistoryBefore(start, snapshots, t - 1), snapshots[t - 1], connectSeq, f);
  }

  lemma WholeAtIff(feed: Feed, start: seq<Event>, snapshots: seq<Snapshot>, connectSeq: int, f: Filter, t: nat)
    requires 0 < t <= |snapshots| && Grown(start, snapshots) && Feeds(feed, start, snapshots)
    ensures NewsAscends(feed, connectSeq, f, t) <==> !SplitAt(start, snapshots, connectSeq, f, t)
  {
    assert FollowsAt(start, snapshots, t - 1) && FeedsAt(feed, start, snapshots, t - 1);
    SplitAtIff(feed, start, snapshots, connectSeq, f, t);
  }

  /** A client that connects is never sent an event twice, as long as its connection lasts, exactly when no
      tick but the last finds what is new for it split between the current file and rotated ones. */
  lemma NoneTwiceInLogIff(feed: Feed, start: seq<Event>, snapshots: seq<Snapshot>, f: Filter, ok: seq<nat>)
    requires Numbered(start) && multiset(feed.events) == multiset(start)
    requires Grown(start, snapshots) && Feeds(feed, start, snapshots)
    requires Connected(feed, LastSeq(start), f, [], ok)
    ensures NeverTwice(feed, LastSeq(start), f, [], ok) <==>
            forall t :: 0 < t < |snapshots| ==> !SplitAt(start, snapshots, LastSeq(start), f, t)
  {
    NoneAbove(feed.events, start, f);
    FeedIsOnward(feed, start, snapshots);
    NoneTwiceIff(feed, LastSeq(start), f, [], ok);
    forall t | 0 < t < |snapshots|
      ensures NewsAscends(feed, LastSeq(start), f, t) <==> !SplitAt(start, snapshots, LastSeq(start), f, t)
    {
      WholeAtIff(feed, start, snapshots, LastSeq(start), f, t);
    }
  }
}
