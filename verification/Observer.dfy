/** The observer's index over the event log: loaded once, refreshed by re-reading every file. */
module Observer {
  import opened Events
  import opened EventLogs

  /** Times are 0 until set. */
  datatype AgentStats = AgentStats(
    address: string, registeredAt: int, messagesSent: nat, messagesReceived: nat, stateWrites: nat, lastActive: int)

  datatype NetworkEdge = NetworkEdge(from: string, to: string, count: nat)

  type StatsMap = map<string, AgentStats>
  type EdgeMap = map<string, NetworkEdge>

  function EdgeKey(from: string, to: string): string {
    from + "->" + to
  }

  function StatsOf(stats: StatsMap, a: string): AgentStats {
    if a in stats then stats[a] else AgentStats(a, 0, 0, 0, 0, 0)
  }

  // ---- indexEvent as functions ----

  function IndexStats(stats: StatsMap, e: Event): StatsMap {
    match e.data
    case AgentRegistered(address, _, _) =>
      if address != "" && address !in stats
      then stats[address := AgentStats(address, e.timestamp, 0, 0, 0, 0)] else stats
    case MessageSent(_, from, to, _, _) =>
      var s := StatsOf(stats, from);
      var stats1 := if from == "" then stats
                    else stats[from := s.(messagesSent := s.messagesSent + 1, lastActive := e.timestamp)];
      var r := StatsOf(stats1, to);
      if to == "" then stats1 else stats1[to := r.(messagesReceived := r.messagesReceived + 1)]
    case StateWritten(_, _, _, writer) =>
      var s := StatsOf(stats, writer);
      if writer == "" then stats else stats[writer := s.(stateWrites := s.stateWrites + 1, lastActive := e.timestamp)]
    case StateDeleted(_, _) => Touch(stats, e)
    case StateRead(_, _, _) => Touch(stats, e)
    case RegistryRead(_) => Touch(stats, e)
    case _ => stats
  }

  function Touch(stats: StatsMap, e: Event): StatsMap {
    if e.agent == "" then stats else stats[e.agent := StatsOf(stats, e.agent).(lastActive := e.timestamp)]
  }

  function IndexEdges(edges: EdgeMap, e: Event): EdgeMap {
    match e.data
    case MessageSent(_, from, to, _, _) =>
      var key := EdgeKey(from, to);
      if from == "" || to == "" then edges
      else if key in edges then edges[key := edges[key].(count := edges[key].count + 1)]
      else edges[key := NetworkEdge(from, to, 1)]
    case _ => edges
  }

  function FoldStats(es: seq<Event>): StatsMap {
    if es == [] then map[] else IndexStats(FoldStats(Front(es)), Last(es))
  }

  function FoldEdges(es: seq<Event>): EdgeMap {
    if es == [] then map[] else IndexEdges(FoldEdges(Front(es)), Last(es))
  }

  // ---- what the counters mean ----

  datatype Kind = SentFrom(a: string) | ReceivedBy(b: string) | WrittenBy(w: string) | Keyed(key: string) | Between(x: string, y: string)

  predicate Hits(e: Event, k: Kind) {
    match k
    case SentFrom(a) => e.data.MessageSent? && e.data.from == a
    case ReceivedBy(b) => e.data.MessageSent? && e.data.to == b
    case WrittenBy(w) => e.data.StateWritten? && e.data.writtenBy == w
    case Keyed(key) => e.data.MessageSent? && e.data.from != "" && e.data.to != "" && EdgeKey(e.data.from, e.data.to) == key
    case Between(x, y) => e.data.MessageSent? && e.data.from == x && e.data.to == y
  }

  /** How many events of the list are of this kind. */
  function Tally(es: seq<Event>, k: Kind): nat {
    if es == [] then 0 else Tally(Front(es), k) + (if Hits(Last(es), k) then 1 else 0)
  }

  lemma {:induction false} TallyConcat(x: seq<Event>, y: seq<Event>, k: Kind)
    ensures Tally(x + y, k) == Tally(x, k) + Tally(y, k)
  {
    if y == [] {
      assert x + y == x;
    } else {
      assert Front(x + y) == x + Front(y) && Last(x + y) == Last(y);
      TallyConcat(x, Front(y), k);
    }
  }

  lemma TallyWithout(y: seq<Event>, i: nat, k: Kind)
    requires i < |y|
    ensures Tally(y, k) == Tally(y[..i] + y[i + 1..], k) + (if Hits(y[i], k) then 1 else 0)
    ensures multiset(y[..i] + y[i + 1..]) == multiset(y) - multiset{y[i]}
  {
    assert y == y[..i] + [y[i]] + y[i + 1..];
    TallyConcat(y[..i] + [y[i]], y[i + 1..], k);
    TallyConcat(y[..i], y[i + 1..], k);
    Grows(y[..i], y[i]);
  }

  /** A tally does not depend on the order in which the events were read. */
  lemma {:induction false} TallyOrder(x: seq<Event>, y: seq<Event>, k: Kind)
    requires multiset(x) == multiset(y)
    ensures Tally(x, k) == Tally(y, k)
  {
    if x == [] {
      assert |multiset(y)| == |y|;
    } else {
      assert x == Front(x) + [Last(x)];
      assert Last(x) in multiset(y);
      var i :| 0 <= i < |y| && y[i] == Last(x);
      TallyWithout(y, i, k);
      TallyOrder(Front(x), y[..i] + y[i + 1..], k);
    }
  }

  /** Every counter of the index is the number of log events of its kind. */
  lemma {:induction false} StatsAreTallies(es: seq<Event>, a: string)
    requires a != ""
    ensures StatsOf(FoldStats(es), a).messagesSent == Tally(es, SentFrom(a))
    ensures StatsOf(FoldStats(es), a).messagesReceived == Tally(es, ReceivedBy(a))
    ensures StatsOf(FoldStats(es), a).stateWrites == Tally(es, WrittenBy(a))
  {
    if es != [] {
      StatsAreTallies(Front(es), a);
      IndexCounts(FoldStats(Front(es)), Last(es), a);
    }
  }

  lemma IndexCounts(stats: StatsMap, e: Event, a: string)
    requires a != ""
    ensures var s, s' := StatsOf(stats, a), StatsOf(IndexStats(stats, e), a);
            && s'.messagesSent == s.messagesSent + (if Hits(e, SentFrom(a)) then 1 else 0)
            && s'.messagesReceived == s.messagesReceived + (if Hits(e, ReceivedBy(a)) then 1 else 0)
            && s'.stateWrites == s.stateWrites + (if Hits(e, WrittenBy(a)) then 1 else 0)
  {
  }

  /** The event makes the index keep a record of the agent. */
  predicate Mentions(e: Event, a: string) {
    match e.data
    case AgentRegistered(address, _, _) => address == a
    case MessageSent(_, from, to, _, _) => from == a || to == a
    case StateWritten(_, _, _, writtenBy) => writtenBy == a
    case StateDeleted(_, _) => e.agent == a
    case StateRead(_, _, _) => e.agent == a
    case RegistryRead(_) => e.agent == a
    case _ => false
  }

  /** The agent did something: it sent, wrote, deleted or read. */
  predicate Acts(e: Event, a: string) {
    Mentions(e, a) && !e.data.AgentRegistered? && (e.data.MessageSent? ==> e.data.from == a)
  }

  lemma IndexRecords(stats: StatsMap, e: Event, a: string)
    requires a != ""
    ensures var s, s' := StatsOf(stats, a), StatsOf(IndexStats(stats, e), a);
            && (a in IndexStats(stats, e) <==> a in stats || Mentions(e, a))
            && s'.address == s.address
            && s'.lastActive == (if Acts(e, a) then e.timestamp else s.lastActive)
            && s'.registeredAt == (if a !in stats && e.data.AgentRegistered? && e.data.address == a then e.timestamp else s.registeredAt)
  {
  }

  /** Whose records the index has, and that they bear the agent's address. */
  lemma {:induction false} RecordIff(es: seq<Event>, a: string)
    requires a != ""
    ensures a in FoldStats(es) <==> exists e <- es :: Mentions(e, a)
    ensures StatsOf(FoldStats(es), a).address == a
  {
    if es != [] {
      assert es == Front(es) + [Last(es)];
      RecordIff(Front(es), a);
      IndexRecords(FoldStats(Front(es)), Last(es), a);
    }
  }

  /** The time of the last thing the agent did, in the order the events were read; 0 if it did nothing. */
  lemma {:induction false} LastActiveIs(es: seq<Event>, a: string)
    requires a != ""
    ensures forall i :: 0 <= i < |es| && Acts(es[i], a) && (forall j :: i < j < |es| ==> !Acts(es[j], a)) ==>
              StatsOf(FoldStats(es), a).lastActive == es[i].timestamp
    ensures (forall e <- es :: !Acts(e, a)) ==> StatsOf(FoldStats(es), a).lastActive == 0
  {
    if es != [] {
      assert es == Front(es) + [Last(es)];
      LastActiveIs(Front(es), a);
      IndexRecords(FoldStats(Front(es)), Last(es), a);
    }
  }

  /** The time of its registration, if that is the first event read that mentions the agent; 0 otherwise. */
  lemma {:induction false} RegisteredAtIs(es: seq<Event>, a: string)
    requires a != ""
    ensures forall i :: 0 <= i < |es| && Mentions(es[i], a) && (forall j :: 0 <= j < i ==> !Mentions(es[j], a)) ==>
              StatsOf(FoldStats(es), a).registeredAt == if es[i].data.AgentRegistered? then es[i].timestamp else 0
    ensures (forall e <- es :: !Mentions(e, a)) ==> StatsOf(FoldStats(es), a).registeredAt == 0
  {
    if es != [] {
      assert es == Front(es) + [Last(es)];
      RegisteredAtIs(Front(es), a);
      RecordIff(Front(es), a);
      IndexRecords(FoldStats(Front(es)), Last(es), a);
      FirstMention(Front(es), a);
    }
  }

  lemma {:induction false} FirstMention(es: seq<Event>, a: string)
    ensures (exists e <- es :: Mentions(e, a)) ==>
              exists i :: 0 <= i < |es| && Mentions(es[i], a) && forall j :: 0 <= j < i ==> !Mentions(es[j], a)
  {
    if es != [] {
      assert es == Front(es) + [Last(es)];
      FirstMention(Front(es), a);
    }
  }

  lemma {:induction false} EdgesAreTallies(es: seq<Event>, key: string)
    ensures key in FoldEdges(es) <==> Tally(es, Keyed(key)) > 0
    ensures key in FoldEdges(es) ==> FoldEdges(es)[key].count == Tally(es, Keyed(key))
    ensures key in FoldEdges(es) ==> EdgeKey(FoldEdges(es)[key].from, FoldEdges(es)[key].to) == key
  {
    if es != [] {
      EdgesAreTallies(Front(es), key);
    }
  }

  /** Two pairs of agents share an edge record in this log. */
  predicate Collides(es: seq<Event>, from: string, to: string) {
    exists e <- es :: Hits(e, Keyed(EdgeKey(from, to))) && !Hits(e, Between(from, to))
  }

  lemma {:induction false} KeyedOrBetween(es: seq<Event>, from: string, to: string)
    requires from != "" && to != ""
    ensures Tally(es, Between(from, to)) <= Tally(es, Keyed(EdgeKey(from, to)))
    ensures Tally(es, Between(from, to)) == Tally(es, Keyed(EdgeKey(from, to))) <==> !Collides(es, from, to)
  {
    if es != [] {
      assert es == Front(es) + [Last(es)];
      KeyedOrBetween(Front(es), from, to);
    }
  }

  /** The edge count is the number of messages between the two agents exactly when no other pair with the
      same concatenated key occurs. */
  lemma EdgeCountIff(es: seq<Event>, from: string, to: string)
    requires from != "" && to != "" && Tally(es, Between(from, to)) > 0
    ensures EdgeKey(from, to) in FoldEdges(es)
    ensures FoldEdges(es)[EdgeKey(from, to)].count == Tally(es, Between(from, to)) <==> !Collides(es, from, to)
  {
    KeyedOrBetween(es, from, to);
    EdgesAreTallies(es, EdgeKey(from, to));
  }

  /** Keys of senders without '-', such as the addresses the registry hands out, determine the pair. */
  lemma KeyInjective(f: string, t: string, f': string, t': string)
    requires '-' !in f && '-' !in f' && EdgeKey(f, t) == EdgeKey(f', t')
    ensures f == f' && t == t'
  {
    var k := EdgeKey(f, t);
    FirstDash(f, t);
    FirstDash(f', t');
    assert |f| == |f'|;
    assert k[..|f|] == f && k[..|f'|] == f';
    assert k[|f| + 2..] == t && k[|f'| + 2..] == t';
  }

  lemma FirstDash(f: string, t: string)
    requires '-' !in f
    ensures |f| < |EdgeKey(f, t)| && EdgeKey(f, t)[|f|] == '-'
    ensures forall i :: 0 <= i < |f| ==> EdgeKey(f, t)[i] != '-'
  {
    forall i | 0 <= i < |f| ensures EdgeKey(f, t)[i] != '-' {
      assert EdgeKey(f, t)[i] == f[i] && f[i] in f;
    }
  }

  // ---- reading ----

  /** The events numbered above `since`. */
  function After(es: seq<Event>, since: int): (r: seq<Event>)
    ensures forall e {:trigger e in r} :: e in r ==> e in es && e.sequence > since
  {
    if es == [] then [] else After(Front(es), since) + (if Last(es).sequence > since then [Last(es)] else [])
  }

  function MaxSeq(es: seq<Event>, start: int): (m: int)
    ensures m >= start && forall e <- es :: e.sequence <= m
  {
    if es == [] then start
    else
      var m := MaxSeq(Front(es), start);
      assert es == Front(es) + [Last(es)];
      if Last(es).sequence > m then Last(es).sequence else m
  }

  function LastSeq(es: seq<Event>): int {
    if es == [] then 0 else Last(es).sequence
  }

  lemma {:induction false} AfterConcat(x: seq<Event>, y: seq<Event>, since: int)
    ensures After(x + y, since) == After(x, since) + After(y, since)
  {
    if y == [] {
      assert x + y == x;
    } else {
      assert Front(x + y) == x + Front(y) && Last(x + y) == Last(y);
      AfterConcat(x, Front(y), since);
    }
  }

  lemma {:induction false} AfterAll(es: seq<Event>, since: int)
    requires forall e <- es :: e.sequence > since
    ensures After(es, since) == es
  {
    if es != [] {
      assert es == Front(es) + [Last(es)];
      AfterAll(Front(es), since);
    }
  }

  lemma {:induction false} AfterNone(es: seq<Event>, since: int)
    requires forall e <- es :: e.sequence <= since
    ensures After(es, since) == []
  {
    if es != [] {
      assert es == Front(es) + [Last(es)];
      AfterNone(Front(es), since);
    }
  }

  /** What was appended to a numbered list is numbered above all that was there. */
  lemma AppendedIsAbove(seen: seq<Event>, more: seq<Event>)
    requires Numbered(seen + more)
    ensures forall e <- seen :: e.sequence <= LastSeq(seen)
    ensures forall e <- more :: e.sequence > LastSeq(seen)
    ensures LastSeq(seen + more) == if more == [] then LastSeq(seen) else Last(more).sequence
    ensures forall e <- more :: e.sequence <= LastSeq(seen + more)
  {
    var h := seen + more;
    forall e <- seen ensures e.sequence <= LastSeq(seen) {
      var i :| 0 <= i < |seen| && seen[i] == e;
      assert h[i] == e && h[|seen| - 1] == Last(seen);
    }
    forall e <- more ensures LastSeq(seen) < e.sequence <= LastSeq(h) {
      var i :| 0 <= i < |more| && more[i] == e;
      assert h[|seen| + i] == e && e in h;
      if seen != [] {
        assert h[|seen| - 1] == Last(seen);
      }
      AscendingLast(h, |seen| + i);
    }
    assert more == [] ==> h == seen;
  }

  /** The unread events of a grown log are what was appended, whatever the order of its files. */
  lemma UnreadIsAppended(dir: Directory, times: seq<nat>, seen: seq<Event>)
    requires Laid(dir, times) && Numbered(HistoryOf(dir, times)) && seen <= HistoryOf(dir, times)
    ensures multiset(After(AllEvents(dir), LastSeq(seen))) == multiset(HistoryOf(dir, times)[|seen|..])
  {
    var h, since := HistoryOf(dir, times), LastSeq(seen);
    var more := h[|seen|..];
    assert h == seen + more;
    ListingOrder(dir, times);
    AfterConcat(dir[CURRENT_NAME], Older(dir, times), since);
    AfterConcat(Older(dir, times), dir[CURRENT_NAME], since);
    assert multiset(After(AllEvents(dir), since)) == multiset(After(h, since));
    AfterConcat(seen, more, since);
    AppendedIsAbove(seen, more);
    AfterNone(seen, since);
    AfterAll(more, since);
    assert After(h, since) == [] + more == more;
  }

  lemma SameMembers(x: seq<Event>, y: seq<Event>)
    requires multiset(x) == multiset(y)
    ensures forall e :: e in x <==> e in y
  {
    forall e ensures e in x <==> e in y {
      assert e in multiset(x) <==> e in multiset(y);
    }
  }

  lemma MaxSeqIs(es: seq<Event>, start: int, m: int)
    requires start <= m && forall e <- es :: e.sequence <= m
    requires m == start || exists e <- es :: e.sequence == m
    ensures MaxSeq(es, start) == m
  {
    MaxSeqAttained(es, start);
  }

  lemma {:induction false} MaxSeqAttained(es: seq<Event>, start: int)
    ensures MaxSeq(es, start) == start || exists e <- es :: e.sequence == MaxSeq(es, start)
  {
    if es != [] {
      assert es == Front(es) + [Last(es)];
      MaxSeqAttained(Front(es), start);
    }
  }

  lemma {:induction false} MaxSeqConcat(x: seq<Event>, y: seq<Event>, start: int)
    ensures MaxSeq(x + y, start) == MaxSeq(y, MaxSeq(x, start))
  {
    if y == [] {
      assert x + y == x;
    } else {
      assert Front(x + y) == x + Front(y) && Last(x + y) == Last(y);
      MaxSeqConcat(x, Front(y), start);
    }
  }

  class EventReader {
    var events: seq<Event>
    var agentStats: StatsMap
    var edges: EdgeMap
    var lastSeq: int
    /** The log as it stood, in append order, when it was last read. */
    ghost var seen: seq<Event>

    ghost predicate Indexed()
      reads this
    {
      agentStats == FoldStats(events) && edges == FoldEdges(events)
    }

    /** Every event of the log is in the reader exactly once. */
    ghost predicate Valid()
      reads this
    {
      && Indexed()
      && Numbered(seen)
      && multiset(events) == multiset(seen)
      && lastSeq == LastSeq(seen)
    }

    /** NewEventReader. */
    constructor (dir: Directory, ghost times: seq<nat>)
      requires Laid(dir, times) && Numbered(HistoryOf(dir, times))
      ensures Valid() && seen == HistoryOf(dir, times) && events == AllEvents(dir)
    {
      events, agentStats, edges, lastSeq, seen := [], map[], map[], 0, [];
      new;
      LoadAll(dir);
      seen := HistoryOf(dir, times);
      FirstReading(dir, times);
    }

    method LoadAll(dir: Directory)
      requires Indexed() && events == [] && lastSeq == 0
      modifies this
      ensures Indexed() && events == AllEvents(dir) && lastSeq == MaxSeq(events, 0)
    {
      var names := Listing(dir);
      for i := 0 to |names|
        invariant (forall n <- names[..i] :: n in dir) && events == Contents(dir, names[..i])
        invariant Indexed() && lastSeq == MaxSeq(events, 0)
      {
        LoadFile(dir[names[i]]);
        MaxSeqConcat(Contents(dir, names[..i]), dir[names[i]], 0);
        ContentsNext(dir, names, i);
      }
      assert names[..|names|] == names;
    }

    method LoadFile(lines: seq<Event>)
      requires Indexed()
      modifies this
      ensures Indexed() && seen == old(seen)
      ensures events == old(events) + lines && lastSeq == MaxSeq(lines, old(lastSeq))
    {
      for i := 0 to |lines|
        invariant Indexed() && seen == old(seen)
        invariant events == old(events) + lines[..i] && lastSeq == MaxSeq(lines[..i], old(lastSeq))
      {
        Add(lines[i]);
        Grows(lines[..i], lines[i]);
        assert lines[..i + 1] == lines[..i] + [lines[i]];
      }
      assert lines[..|lines|] == lines;
    }

    method LoadFileAfter(lines: seq<Event>, afterSeq: int)
      requires Indexed()
      modifies this
      ensures Indexed() && seen == old(seen)
      ensures events == old(events) + After(lines, afterSeq) && lastSeq == MaxSeq(After(lines, afterSeq), old(lastSeq))
    {
      ghost var before := events;
      for i := 0 to |lines|
        invariant Indexed() && seen == old(seen)
        invariant events == before + After(lines[..i], afterSeq)
        invariant lastSeq == MaxSeq(After(lines[..i], afterSeq), old(lastSeq))
      {
        AfterNext(lines, i, afterSeq);
        if lines[i].sequence <= afterSeq {
          continue;
        }
        MaxSeqNext(After(lines[..i], afterSeq), lines[i], old(lastSeq));
        Assoc(before, After(lines[..i], afterSeq), [lines[i]]);
        Add(lines[i]);
      }
      assert lines[..|lines|] == lines;
    }

    /** The body of both reading loops. */
    method Add(ev: Event)
      requires Indexed()
      modifies this
      ensures Indexed() && seen == old(seen) && events == old(events) + [ev]
      ensures lastSeq == if ev.sequence > old(lastSeq) then ev.sequence else old(lastSeq)
    {
      Grows(events, ev);
      events := events + [ev];
      IndexEvent(ev);
      if ev.sequence > lastSeq {
        lastSeq := ev.sequence;
      }
    }

    method IndexEvent(ev: Event)
      modifies this`agentStats, this`edges
      ensures agentStats == IndexStats(old(agentStats), ev) && edges == IndexEdges(old(edges), ev)
    {
      match ev.data
      case AgentRegistered(address, _, _) =>
        if address != "" {
          if address !in agentStats {
            agentStats := agentStats[address := AgentStats(address, ev.timestamp, 0, 0, 0, 0)];
          }
        }
      case MessageSent(_, from, to, _, _) =>
        if from != "" {
          var s := StatsOf(agentStats, from);
          agentStats := agentStats[from := s.(messagesSent := s.messagesSent + 1, lastActive := ev.timestamp)];
        }
        if to != "" {
          var s := StatsOf(agentStats, to);
          agentStats := agentStats[to := s.(messagesReceived := s.messagesReceived + 1)];
        }
        if from != "" && to != "" {
          var key := EdgeKey(from, to);
          var edge := if key in edges then edges[key] else NetworkEdge(from, to, 0);
          edges := edges[key := edge.(count := edge.count + 1)];
        }
      case StateWritten(_, _, _, writtenBy) =>
        if writtenBy != "" {
          var s := StatsOf(agentStats, writtenBy);
          agentStats := agentStats[writtenBy := s.(stateWrites := s.stateWrites + 1, lastActive := ev.timestamp)];
        }
      case StateDeleted(_, _) => TouchAgent(ev);
      case StateRead(_, _, _) => TouchAgent(ev);
      case RegistryRead(_) => TouchAgent(ev);
      case _ =>
    }

    method TouchAgent(ev: Event)
      modifies this`agentStats
      ensures agentStats == Touch(old(agentStats), ev)
    {
      if ev.agent != "" {
        agentStats := agentStats[ev.agent := StatsOf(agentStats, ev.agent).(lastActive := ev.timestamp)];
      }
    }

    /** Refresh: re-read every file, skipping what was there at the last reading.  The comparison is with
        the highest number before the loop: the current file, with the newest events, is read first. */
    method Refresh(dir: Directory, ghost times: seq<nat>)
      requires Valid() && Laid(dir, times) && Numbered(HistoryOf(dir, times)) && seen <= HistoryOf(dir, times)
      modifies this
      ensures Valid() && seen == HistoryOf(dir, times)
      ensures events == old(events) + After(AllEvents(dir), old(lastSeq))
    {
      LoadAllAfter(dir);
      RefreshedSeq(dir, times, seen);
      AllAreRead(dir, times, seen, old(events));
      seen := HistoryOf(dir, times);
    }

    /** The loop of Refresh. */
    method LoadAllAfter(dir: Directory)
      requires Indexed()
      modifies this
      ensures Indexed() && seen == old(seen)
      ensures events == old(events) + After(AllEvents(dir), old(lastSeq))
      ensures lastSeq == MaxSeq(After(AllEvents(dir), old(lastSeq)), old(lastSeq))
    {
      var names := Listing(dir);
      var prevLastSeq := lastSeq;
      ghost var before := events;
      assert before + [] == before;
      for i := 0 to |names|
        invariant Indexed() && seen == old(seen) && Refreshed(dir, names, i, before, prevLastSeq)
      {
        LoadNext(dir, names, i, before, prevLastSeq);
      }
      assert names[..|names|] == names;
    }

    /** The reader after i files of a refresh that began with the events `before`. */
    ghost predicate Refreshed(dir: Directory, names: seq<string>, i: nat, before: seq<Event>, since: int)
      requires i <= |names|
      reads this
    {
      && (forall n <- names[..i] :: n in dir)
      && events == before + After(Contents(dir, names[..i]), since)
      && lastSeq == MaxSeq(After(Contents(dir, names[..i]), since), since)
    }

    method LoadNext(dir: Directory, names: seq<string>, i: nat, ghost before: seq<Event>, since: int)
      requires Indexed() && i < |names| && (forall n <- names :: n in dir) && Refreshed(dir, names, i, before, since)
      modifies this
      ensures Indexed() && seen == old(seen) && Refreshed(dir, names, i + 1, before, since)
    {
      AfterNextFile(before, dir, names, i, since);
      LoadFileAfter(dir[names[i]], since);
    }

    /** What the observer reports are counts over the whole log. */
    lemma CountersAreExact(a: string)
      requires Valid() && a != ""
      ensures StatsOf(agentStats, a).messagesSent == Tally(seen, SentFrom(a))
      ensures StatsOf(agentStats, a).messagesReceived == Tally(seen, ReceivedBy(a))
      ensures StatsOf(agentStats, a).stateWrites == Tally(seen, WrittenBy(a))
    {
      StatsAreTallies(events, a);
      TallyOrder(events, seen, SentFrom(a));
      TallyOrder(events, seen, ReceivedBy(a));
      TallyOrder(events, seen, WrittenBy(a));
    }

    /** With senders whose addresses have no '-', as the registry's have none, there is one edge per
        pair that exchanged messages, with their number. */
    lemma EdgesAreExact(from: string, to: string)
      requires Valid() && '-' !in from && from != "" && to != ""
      requires forall e <- seen :: e.data.MessageSent? ==> '-' !in e.data.from
      ensures EdgeKey(from, to) in edges <==> Tally(seen, Between(from, to)) > 0
      ensures EdgeKey(from, to) in edges ==> edges[EdgeKey(from, to)] == NetworkEdge(from, to, Tally(seen, Between(from, to)))
    {
      var key := EdgeKey(from, to);
      EdgesAreTallies(events, key);
      TallyOrder(events, seen, Keyed(key));
      KeyedOrBetween(seen, from, to);
      SameMembers(events, seen);
      forall e <- seen ensures Hits(e, Keyed(key)) ==> Hits(e, Between(from, to)) {
        if Hits(e, Keyed(key)) {
          KeyInjective(e.data.from, e.data.to, from, to);
        }
      }
      if key in edges {
        EdgeEnds(events, key);
        var e :| e in events && Hits(e, Between(edges[key].from, edges[key].to));
        KeyInjective(edges[key].from, edges[key].to, from, to);
      }
    }
  }

  /** An edge record names the ends of some message in the log. */
  lemma {:induction false} EdgeEnds(es: seq<Event>, key: string)
    requires key in FoldEdges(es)
    ensures exists e <- es :: Hits(e, Between(FoldEdges(es)[key].from, FoldEdges(es)[key].to))
    ensures EdgeKey(FoldEdges(es)[key].from, FoldEdges(es)[key].to) == key
  {
    assert es == Front(es) + [Last(es)];
    if key in FoldEdges(Front(es)) {
      EdgeEnds(Front(es), key);
      var before, now := FoldEdges(Front(es))[key], FoldEdges(es)[key];
      var e :| e in Front(es) && Hits(e, Between(before.from, before.to));
      assert now.from == before.from && now.to == before.to;
      assert e in es && Hits(e, Between(now.from, now.to));
    } else {
      assert Hits(Last(es), Between(FoldEdges(es)[key].from, FoldEdges(es)[key].to));
    }
  }

  lemma Grows(es: seq<Event>, e: Event)
    ensures Front(es + [e]) == es && Last(es + [e]) == e
  {
  }

  /** After the first reading the highest number is that of the last event. */
  lemma FirstReading(dir: Directory, times: seq<nat>)
    requires Laid(dir, times) && Numbered(HistoryOf(dir, times))
    ensures multiset(AllEvents(dir)) == multiset(HistoryOf(dir, times))
    ensures MaxSeq(AllEvents(dir), 0) == LastSeq(HistoryOf(dir, times))
  {
    var h := HistoryOf(dir, times);
    ListingOrder(dir, times);
    SameMembers(AllEvents(dir), h);
    assert [] + h == h;
    AppendedIsAbove([], h);
    assert h != [] ==> Last(h) in h;
    MaxSeqIs(AllEvents(dir), 0, LastSeq(h));
  }

  /** The highest number read in a refresh is that of the last event appended. */
  lemma RefreshedSeq(dir: Directory, times: seq<nat>, seen: seq<Event>)
    requires Laid(dir, times) && Numbered(HistoryOf(dir, times)) && seen <= HistoryOf(dir, times)
    ensures MaxSeq(After(AllEvents(dir), LastSeq(seen)), LastSeq(seen)) == LastSeq(HistoryOf(dir, times))
  {
    var h, since := HistoryOf(dir, times), LastSeq(seen);
    var more := h[|seen|..];
    assert h == seen + more;
    UnreadIsAppended(dir, times, seen);
    SameMembers(After(AllEvents(dir), since), more);
    AppendedIsAbove(seen, more);
    assert more != [] ==> Last(more) in more;
    MaxSeqIs(After(AllEvents(dir), since), since, LastSeq(h));
  }

  /** What one more file adds to a refresh. */
  lemma AfterNextFile(before: seq<Event>, dir: Directory, names: seq<string>, i: nat, since: int)
    requires i < |names| && forall n <- names :: n in dir
    ensures (forall n <- names[..i] :: n in dir) && forall n <- names[..i + 1] :: n in dir
    ensures before + After(Contents(dir, names[..i + 1]), since)
         == before + After(Contents(dir, names[..i]), since) + After(dir[names[i]], since)
    ensures MaxSeq(After(Contents(dir, names[..i + 1]), since), since)
         == MaxSeq(After(dir[names[i]], since), MaxSeq(After(Contents(dir, names[..i]), since), since))
  {
    var x, y := After(Contents(dir, names[..i]), since), After(dir[names[i]], since);
    ContentsNext(dir, names, i);
    AfterConcat(Contents(dir, names[..i]), dir[names[i]], since);
    Assoc(before, x, y);
    MaxSeqConcat(x, y, since);
  }

  lemma AfterNext(lines: seq<Event>, i: nat, since: int)
    requires i < |lines|
    ensures lines[i].sequence > since ==> After(lines[..i + 1], since) == After(lines[..i], since) + [lines[i]]
    ensures lines[i].sequence <= since ==> After(lines[..i + 1], since) == After(lines[..i], since)
  {
    assert lines[..i + 1] == lines[..i] + [lines[i]];
    Grows(lines[..i], lines[i]);
  }

  lemma MaxSeqNext(es: seq<Event>, e: Event, start: int)
    ensures MaxSeq(es + [e], start) == if e.sequence > MaxSeq(es, start) then e.sequence else MaxSeq(es, start)
  {
    Grows(es, e);
  }

  lemma AllAreRead(dir: Directory, times: seq<nat>, seen: seq<Event>, events: seq<Event>)
    requires Laid(dir, times) && Numbered(HistoryOf(dir, times)) && seen <= HistoryOf(dir, times)
    requires multiset(events) == multiset(seen)
    ensures multiset(events + After(AllEvents(dir), LastSeq(seen))) == multiset(HistoryOf(dir, times))
  {
    UnreadIsAppended(dir, times, seen);
    assert HistoryOf(dir, times) == seen + HistoryOf(dir, times)[|seen|..];
  }

  lemma AscendingConcat(x: seq<Event>, y: seq<Event>)
    ensures Ascending(x + y) ==> Ascending(x) && Ascending(y) && forall e <- x :: forall d <- y :: e.sequence < d.sequence
    ensures Ascending(x) && Ascending(y) && (forall e <- x :: forall d <- y :: e.sequence < d.sequence) ==> Ascending(x + y)
  {
    if Ascending(x + y) {
      assert forall i :: 0 <= i < |x| ==> x[i] == (x + y)[i];
      assert forall i :: 0 <= i < |y| ==> y[i] == (x + y)[|x| + i];
      forall e <- x, d <- y ensures e.sequence < d.sequence {
        var i :| 0 <= i < |x| && x[i] == e;
        var j :| 0 <= j < |y| && y[j] == d;
        assert (x + y)[i] == e && (x + y)[|x| + j] == d;
      }
    }
    if Ascending(x) && Ascending(y) && forall e <- x :: forall d <- y :: e.sequence < d.sequence {
      forall i, j | 0 <= i < j < |x + y| ensures (x + y)[i].sequence < (x + y)[j].sequence {
        if i < |x| <= j {
          assert x[i] in x && y[j - |x|] in y;
        }
      }
    }
  }

  /** A refresh keeps the reader's list in log order exactly when its news is not split between the
      current file and rotated ones: the current file is read first. */
  lemma RefreshAscendsIff(events: seq<Event>, older: seq<Event>, current: seq<Event>, since: int)
    requires Ascending(events) && (forall e <- events :: e.sequence <= since) && Ascending(older + current)
    ensures Ascending(events + After(current + older, since)) <==> After(current, since) == [] || After(older, since) == []
  {
    AfterConcat(current, older, since);
    var c, o := After(current, since), After(older, since);
    AscendingConcat(older, current);
    AfterAscends(older, since);
    AfterAscends(current, since);
    AscendingConcat(events, c + o);
    AscendingConcat(c, o);
    if c != [] && o != [] {
      assert c[0] in c && o[0] in o;
      assert c[0] in current && o[0] in older;
    } else {
      assert c + o == c || c + o == o;
    }
  }

  lemma {:induction false} AfterAscends(es: seq<Event>, since: int)
    ensures Ascending(es) ==> Ascending(After(es, since))
  {
    if es != [] {
      AfterAscends(Front(es), since);
      forall e <- After(Front(es), since) ensures Ascending(es) ==> e.sequence < Last(es).sequence {
        assert e in Front(es);
        var i :| 0 <= i < |Front(es)| && Front(es)[i] == e;
        assert es[i] == e;
      }
    }
  }
}
