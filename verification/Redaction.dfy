/** Redacting a message: its event is rewritten in place in the log files of a stopped kernel. */
module Redaction {
  import opened Events
  import opened MessageQueues
  import opened EventLogs
  import opened Observer
  import Names

  const NOTICE := "[REDACTED]"

  predicate Carries(e: Event, id: string) {
    e.data.MessageSent? && e.data.id == id
  }

  function Cleared(e: Event): Event
    requires e.data.MessageSent?
  {
    e.(data := MessageSent(e.data.id, e.data.from, e.data.to, NOTICE, 0))
  }

  /** The position of the first message_sent event with this id; the length if there is none. */
  function First(es: seq<Event>, id: string): (i: nat)
    ensures i <= |es| && (i < |es| ==> Carries(es[i], id))
    ensures forall j :: 0 <= j < i ==> !Carries(es[j], id)
  {
    if es == [] || Carries(es[0], id) then 0 else 1 + First(es[1..], id)
  }

  /** The list with the first such event cleared. */
  function Redacted(es: seq<Event>, id: string): (r: seq<Event>)
    ensures |r| == |es|
  {
    var i := First(es, id);
    if i < |es| then es[i := Cleared(es[i])] else es
  }

  // ---- the tool ----

  /** redactInFile: the scan over one file. */
  method RedactInFile(events: seq<Event>, messageId: string)
    returns (lines: seq<Event>, found: bool, originalContent: string)
    ensures lines == Redacted(events, messageId)
    ensures found <==> First(events, messageId) < |events|
    ensures found ==> originalContent == events[First(events, messageId)].data.content
  {
    lines, found, originalContent := [], false, "";
    for i := 0 to |events|
      invariant |lines| == i && (found <==> First(events, messageId) < i)
      invariant forall j :: 0 <= j < i ==> lines[j] == Redacted(events, messageId)[j]
      invariant found ==> originalContent == events[First(events, messageId)].data.content
    {
      var line := events[i];
      if !found {
        if line.data.MessageSent? && line.data.id == messageId {
          originalContent := line.data.content;
          line := line.(data := MessageSent(line.data.id, line.data.from, line.data.to, "[REDACTED]", 0));
          found := true;
        }
      }
      lines := lines + [line];
    }
  }

  /** RedactMessage: the first log file that has the message is rewritten; None when none has it. */
  method RedactMessage(dir: Directory, messageId: string) returns (dir': Directory, originalContent: Option<string>)
    ensures dir'.Keys == dir.Keys && Listing(dir') == Listing(dir)
    ensures AllEvents(dir') == Redacted(AllEvents(dir), messageId)
    ensures originalContent.Some? <==> exists e <- AllEvents(dir) :: Carries(e, messageId)
    ensures originalContent.Some? ==> originalContent.value == AllEvents(dir)[First(AllEvents(dir), messageId)].data.content
    ensures originalContent.None? ==> dir' == dir
    ensures forall n <- dir :: dir'[n] == dir[n] || (n in LogNames(dir) && dir'[n] == Redacted(dir[n], messageId))
  {
    dir' := dir;
    var names := Listing(dir);
    for i := 0 to |names|
      invariant dir' == dir && NotBefore(dir, names, i, messageId)
    {
      var lines, found, content := RedactInFile(dir[names[i]], messageId);
      if found {
        dir' := dir[names[i] := lines];
        originalContent := Some(content);
        RewriteFile(dir, i, messageId);
        return;
      }
      NotBeforeNext(dir, names, i, messageId);
    }
    assert names[..|names|] == names;
    originalContent := None;
    assert Redacted(AllEvents(dir), messageId) == AllEvents(dir);
  }

  /** None of the first i files has the message. */
  ghost predicate NotBefore(dir: Directory, names: seq<string>, i: nat, id: string)
    requires i <= |names|
  {
    (forall n <- names[..i] :: n in dir) && First(Contents(dir, names[..i]), id) == |Contents(dir, names[..i])|
  }

  lemma NotBeforeNext(dir: Directory, names: seq<string>, i: nat, id: string)
    requires i < |names| && (forall n <- names :: n in dir)
    requires NotBefore(dir, names, i, id) && First(dir[names[i]], id) == |dir[names[i]]|
    ensures NotBefore(dir, names, i + 1, id)
  {
    ContentsNext(dir, names, i);
    FirstInConcat(Contents(dir, names[..i]), dir[names[i]], id);
  }

  lemma FirstInConcat(x: seq<Event>, y: seq<Event>, id: string)
    ensures First(x + y, id) == if First(x, id) < |x| then First(x, id) else |x| + First(y, id)
  {
    var i := First(x + y, id);
    if i < |x| {
      assert Carries(x[i], id) by { assert (x + y)[i] == x[i]; }
    }
    if First(x, id) < |x| {
      assert (x + y)[First(x, id)] == x[First(x, id)];
    } else if First(y, id) < |y| {
      assert (x + y)[|x| + First(y, id)] == y[First(y, id)];
    }
    if i >= |x| && i < |x + y| {
      assert (x + y)[i] == y[i - |x|];
    }
    forall j | 0 <= j < i && j < |x| ensures !Carries(x[j], id) { assert (x + y)[j] == x[j]; }
    forall j | 0 <= j && |x| + j < i ensures !Carries(y[j], id) { assert (x + y)[|x| + j] == y[j]; }
  }

  lemma SplitFiles(dir: Directory, names: seq<string>, i: nat)
    requires i < |names| && forall n <- names :: n in dir
    ensures (forall n <- names[..i] :: n in dir) && forall n <- names[i + 1..] :: n in dir
    ensures Contents(dir, names) == Contents(dir, names[..i]) + (dir[names[i]] + Contents(dir, names[i + 1..]))
  {
    assert names == names[..i] + names[i..] && names[i..][1..] == names[i + 1..];
    ContentsConcat(dir, names[..i], names[i..]);
  }

  /** Rewriting the i-th listed file, the first that has the message, redacts the whole log. */
  lemma RewriteListing(dir: Directory, i: nat, lines: seq<Event>)
    requires i < |Listing(dir)|
    ensures var name := Listing(dir)[i];
            && name in LogNames(dir) && dir[name := lines].Keys == dir.Keys && Listing(dir[name := lines]) == Listing(dir)
  {
    var name := Listing(dir)[i];
    assert name in Listing(dir);
    assert dir[name := lines].Keys == dir.Keys && LogNames(dir[name := lines]) == LogNames(dir);
  }

  lemma RewriteFile(dir: Directory, i: nat, id: string)
    requires i < |Listing(dir)| && NotBefore(dir, Listing(dir), i, id)
    requires First(dir[Listing(dir)[i]], id) < |dir[Listing(dir)[i]]|
    ensures var name := Listing(dir)[i];
            var dir' := dir[name := Redacted(dir[name], id)];
            && name in LogNames(dir) && dir'.Keys == dir.Keys && Listing(dir') == Listing(dir)
            && AllEvents(dir') == Redacted(AllEvents(dir), id)
            && First(AllEvents(dir), id) < |AllEvents(dir)|
            && AllEvents(dir)[First(AllEvents(dir), id)] == dir[name][First(dir[name], id)]
  {
    var names := Listing(dir);
    var name := names[i];
    var lines := Redacted(dir[name], id);
    var dir' := dir[name := lines];
    RewriteListing(dir, i, lines);
    SplitFiles(dir, names, i);
    SplitFiles(dir', names, i);
    OthersUnchanged(dir, names, i, lines);
    var x, y, z := Contents(dir, names[..i]), dir[name], Contents(dir, names[i + 1..]);
    RedactedInConcat(x, y, z, id);
    UpdateMiddle(x, y, z, First(y, id), y[First(y, id)]);
  }

  lemma RedactedInConcat(x: seq<Event>, y: seq<Event>, z: seq<Event>, id: string)
    requires First(x, id) == |x| && First(y, id) < |y|
    ensures First(x + (y + z), id) == |x| + First(y, id)
    ensures Redacted(x + (y + z), id) == x + (Redacted(y, id) + z)
  {
    FirstInConcat(y, z, id);
    FirstInConcat(x, y + z, id);
    assert First(x + (y + z), id) == |x| + First(y, id);
    UpdateMiddle(x, y, z, First(y, id), Cleared(y[First(y, id)]));
  }

  lemma UpdateMiddle(x: seq<Event>, y: seq<Event>, z: seq<Event>, i: nat, e: Event)
    requires i < |y|
    ensures (x + (y + z))[|x| + i] == y[i] && (x + (y + z))[|x| + i := e] == x + (y[i := e] + z)
  {
  }

  lemma OthersUnchanged(dir: Directory, names: seq<string>, i: nat, lines: seq<Event>)
    requires i < |names| && (forall n <- names :: n in dir) && Names.Ascends(names)
    ensures (forall n <- names[..i] :: n in dir) && (forall n <- names[i + 1..] :: n in dir)
    ensures Contents(dir[names[i] := lines], names[..i]) == Contents(dir, names[..i])
    ensures Contents(dir[names[i] := lines], names[i + 1..]) == Contents(dir, names[i + 1..])
  {
    var dir' := dir[names[i] := lines];
    forall j | 0 <= j < |names| && j != i ensures names[j] != names[i] {
      Names.LessTotal(names[i], names[j]);
    }
    forall n <- names[..i] ensures n in dir && n in dir' && dir[n] == dir'[n] {
      var j :| 0 <= j < i && names[j] == n;
    }
    forall n <- names[i + 1..] ensures n in dir && n in dir' && dir[n] == dir'[n] {
      var j :| i < j < |names| && names[j] == n;
    }
    ContentsSame(dir, dir', names[..i]);
    ContentsSame(dir, dir', names[i + 1..]);
  }

  // ---- clearing every event of an id: what a redaction does when ids are unique ----

  function ClearedAll(es: seq<Event>, id: string): (r: seq<Event>)
    ensures |r| == |es| && forall i :: 0 <= i < |es| ==> r[i] == if Carries(es[i], id) then Cleared(es[i]) else es[i]
  {
    seq(|es|, i requires 0 <= i < |es| => if Carries(es[i], id) then Cleared(es[i]) else es[i])
  }

  function ClearedQueue(q: seq<Message>, id: string): (r: seq<Message>)
    ensures |r| == |q| && forall i :: 0 <= i < |q| ==> r[i] == if q[i].id == id then q[i].(content := NOTICE) else q[i]
  {
    seq(|q|, i requires 0 <= i < |q| => if q[i].id == id then q[i].(content := NOTICE) else q[i])
  }

  predicate SentAtMostOnce(es: seq<Event>, id: string) {
    forall i, j :: 0 <= i < |es| && 0 <= j < |es| && Carries(es[i], id) && Carries(es[j], id) ==> i == j
  }

  lemma RedactedIsCleared(es: seq<Event>, id: string)
    requires SentAtMostOnce(es, id)
    ensures Redacted(es, id) == ClearedAll(es, id)
  {
    var r, c := Redacted(es, id), ClearedAll(es, id);
    forall i | 0 <= i < |es| ensures r[i] == c[i] {
      if Carries(es[i], id) {
        assert First(es, id) <= i;
      }
    }
  }

  /** Redacting and replaying commute, in whatever order the log is read: the queue is the same but for the
      content of that message. */
  lemma RedactionCommutes(es: seq<Event>, id: string, a: string, cap: nat)
    requires cap >= 1 && SentAtMostOnce(es, id)
    ensures Replayed(Redacted(es, id), a, cap) == ClearedQueue(Replayed(es, a, cap), id)
  {
    RedactedIsCleared(es, id);
    ReplayCommutes(es, id, a, cap);
  }

  /** Redaction keeps sequence number, time, agent and type of every event, and touches only the
      content fields of at most one. */
  lemma OnlyContentChanges(es: seq<Event>, id: string)
    ensures var r := Redacted(es, id);
            forall i :: 0 <= i < |es| ==>
              && r[i].sequence == es[i].sequence && r[i].timestamp == es[i].timestamp && r[i].agent == es[i].agent
              && (i != First(es, id) ==> r[i] == es[i])
              && (i == First(es, id) ==> r[i].data == MessageSent(id, es[i].data.from, es[i].data.to, "[REDACTED]", 0))
  {
  }

  lemma ClearedEnqueued(q: seq<Message>, m: Message, cap: nat, id: string)
    requires cap >= 1
    ensures ClearedQueue(Enqueued(q, m, cap), id) == Enqueued(ClearedQueue(q, id), ClearedQueue([m], id)[0], cap)
  {
  }

  lemma {:induction false} ClearedRemoved(q: seq<Message>, gone: string, id: string)
    ensures ClearedQueue(Removed(q, gone), id) == Removed(ClearedQueue(q, id), gone)
  {
    if q != [] {
      assert ClearedQueue(q, id)[1..] == ClearedQueue(q[1..], id);
      ClearedRemoved(q[1..], gone, id);
    }
  }

  /** Redaction commutes with replay: the recovered queues have the same messages in the same order,
      with the content of the redacted one replaced. */
  lemma {:induction false} ReplayCommutes(es: seq<Event>, id: string, a: string, cap: nat)
    requires cap >= 1
    ensures Replayed(ClearedAll(es, id), a, cap) == ClearedQueue(Replayed(es, a, cap), id)
  {
    if es != [] {
      var c := ClearedAll(es, id);
      assert Front(c) == ClearedAll(Front(es), id);
      ReplayCommutes(Front(es), id, a, cap);
      var q, e := Replayed(Front(es), a, cap), Last(es);
      match e.data
      case MessageSent(_, _, _, _, _) => ClearedEnqueued(q, MessageOf(e), cap, id);
      case MessageDelivered(gone, _, _) => ClearedRemoved(q, gone, id);
      case _ =>
    }
  }

  /** The observer's counters and edges do not notice a redaction. */
  lemma ClearedIndexes(stats: StatsMap, edges: EdgeMap, e: Event)
    requires e.data.MessageSent?
    ensures IndexStats(stats, Cleared(e)) == IndexStats(stats, e) && IndexEdges(edges, Cleared(e)) == IndexEdges(edges, e)
  {
  }

  lemma {:induction false} IndexUnchanged(es: seq<Event>, id: string)
    ensures FoldStats(ClearedAll(es, id)) == FoldStats(es) && FoldEdges(ClearedAll(es, id)) == FoldEdges(es)
  {
    if es != [] {
      assert Front(ClearedAll(es, id)) == ClearedAll(Front(es), id);
      IndexUnchanged(Front(es), id);
      if Carries(Last(es), id) {
        ClearedIndexes(FoldStats(Front(es)), FoldEdges(Front(es)), Last(es));
      }
    }
  }

  /** Nor does the numbering after a restart. */
  lemma {:induction false} NumberingUnchanged(es: seq<Event>, id: string, start: int)
    ensures MaxSeq(ClearedAll(es, id), start) == MaxSeq(es, start)
  {
    if es != [] {
      assert Front(ClearedAll(es, id)) == ClearedAll(Front(es), id);
      NumberingUnchanged(Front(es), id, start);
    }
  }

  /** A log that is causal in append order sends no id twice, in whatever order its files are read. */
  lemma {:induction false} CausalSendsOnce(log: seq<Event>, id: string)
    requires Causal(log)
    ensures SentAtMostOnce(log, id)
  {
    if log != [] {
      CausalSendsOnce(Front(log), id);
      assert forall i :: 0 <= i < |log| - 1 ==> log[i] == Front(log)[i] && log[i] in Front(log);
    }
  }

  lemma RotatedSendsOnce(x: seq<Event>, y: seq<Event>, id: string)
    requires SentAtMostOnce(x + y, id)
    ensures SentAtMostOnce(y + x, id)
  {
    forall i, j | 0 <= i < |y + x| && 0 <= j < |y + x| && Carries((y + x)[i], id) && Carries((y + x)[j], id) ensures i == j {
      var i', j' := if i < |y| then |x| + i else i - |y|, if j < |y| then |x| + j else j - |y|;
      assert (x + y)[i'] == (y + x)[i] && (x + y)[j'] == (y + x)[j];
    }
  }

  /** Redacting a message of a stopped kernel's log does not disturb what is rebuilt from it: queues
      (content apart), next sequence number, counters and edges. */
  lemma RedactionIsHarmless(dir: Directory, times: seq<nat>, id: string, a: string, cap: nat)
    requires cap >= 1 && Laid(dir, times) && Causal(HistoryOf(dir, times))
    ensures var all := AllEvents(dir);
            && Replayed(Redacted(all, id), a, cap) == ClearedQueue(Replayed(all, a, cap), id)
            && MaxSeq(Redacted(all, id), 0) == MaxSeq(all, 0)
            && FoldStats(Redacted(all, id)) == FoldStats(all) && FoldEdges(Redacted(all, id)) == FoldEdges(all)
  {
    var all := AllEvents(dir);
    ListingOrder(dir, times);
    CausalSendsOnce(HistoryOf(dir, times), id);
    RotatedSendsOnce(Older(dir, times), dir[CURRENT_NAME], id);
    RedactedIsCleared(all, id);
    RedactionCommutes(all, id, a, cap);
    IndexUnchanged(all, id);
    NumberingUnchanged(all, id, 0);
  }
}
