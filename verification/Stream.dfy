/** Reading the observer's index page by page, and streaming it to WebSocket clients. */
module Stream {
  import opened Events
  import opened EventLogs
  import opened Observer

  datatype Filter = Filter(types: seq<string>, agent: string)

  function TypeName(data: Payload): string {
    match data
    case AgentRegistered(_, _, _) => "agent_registered"
    case MessageSent(_, _, _, _, _) => "message_sent"
    case MessageDelivered(_, _, _) => "message_delivered"
    case StateWritten(_, _, _, _) => "state_written"
    case StateDeleted(_, _) => "state_deleted"
    case StateRead(_, _, _) => "state_read"
    case RegistryRead(_) => "registry_read"
    case OperatorCreated(_, _, _) => "operator_created"
  }

  predicate Selected(e: Event, f: Filter) {
    (f.types == [] || TypeName(e.data) in f.types) && (f.agent == "" || e.agent == f.agent)
  }

  /** The events numbered above `since` that the filter selects, in the order of the list. */
  function Matching(es: seq<Event>, since: int, f: Filter): (r: seq<Event>)
    ensures forall e {:trigger e in r} :: e in r ==> e in es && e.sequence > since && Selected(e, f)
  {
    if es == [] then []
    else Matching(Front(es), since, f) + (if Last(es).sequence > since && Selected(Last(es), f) then [Last(es)] else [])
  }

  /** The event is of one of the named types. */
  predicate OfType(e: Event, types: seq<string>) {
    || (e.data.AgentRegistered? && "agent_registered" in types)
    || (e.data.MessageSent? && "message_sent" in types)
    || (e.data.MessageDelivered? && "message_delivered" in types)
    || (e.data.StateWritten? && "state_written" in types)
    || (e.data.StateDeleted? && "state_deleted" in types)
    || (e.data.StateRead? && "state_read" in types)
    || (e.data.RegistryRead? && "registry_read" in types)
    || (e.data.OperatorCreated? && "operator_created" in types)
  }

  /** What a caller who names an agent, types or both wants to see; nothing named is no restriction. */
  predicate Wanted(e: Event, since: int, f: Filter) {
    e.sequence > since && (f.agent != "" ==> e.agent == f.agent) && (f.types != [] ==> OfType(e, f.types))
  }

  /** The filter selects the wanted events, every one of them as often as the list has it. */
  lemma {:induction false} MatchingIff(es: seq<Event>, since: int, f: Filter)
    ensures forall e {:trigger e in Matching(es, since, f)} :: e in Matching(es, since, f) <==> e in es && Wanted(e, since, f)
    ensures forall e :: multiset(Matching(es, since, f))[e] == if Wanted(e, since, f) then multiset(es)[e] else 0
  {
    if es != [] {
      assert es == Front(es) + [Last(es)];
      MatchingIff(Front(es), since, f);
      assert Last(es).sequence > since && Selected(Last(es), f) <==> Wanted(Last(es), since, f);
    }
  }

  function Take(es: seq<Event>, n: nat): seq<Event> {
    if |es| <= n then es else es[..n]
  }

  lemma TakeHolds(es: seq<Event>, n: nat)
    ensures (forall e <- Take(es, n) :: e in es) && |Take(es, n)| <= n
    ensures |Take(es, n)| < n ==> Take(es, n) == es
  {
  }

  lemma {:induction false} MatchingConcat(x: seq<Event>, y: seq<Event>, since: int, f: Filter)
    ensures Matching(x + y, since, f) == Matching(x, since, f) + Matching(y, since, f)
  {
    if y == [] {
      assert x + y == x;
    } else {
      assert Front(x + y) == x + Front(y) && Last(x + y) == Last(y);
      MatchingConcat(x, Front(y), since, f);
    }
  }

  lemma MatchingNext(es: seq<Event>, i: nat, since: int, f: Filter)
    requires i < |es|
    ensures es[i].sequence > since && Selected(es[i], f) ==>
            Matching(es[..i + 1], since, f) == Matching(es[..i], since, f) + [es[i]]
    ensures !(es[i].sequence > since && Selected(es[i], f)) ==>
            Matching(es[..i + 1], since, f) == Matching(es[..i], since, f)
    ensures Matching(es[..i + 1], since, f) <= Matching(es, since, f)
  {
    assert es[..i + 1] == es[..i] + [es[i]];
    Grows(es[..i], es[i]);
    assert es == es[..i + 1] + es[i + 1..];
    MatchingConcat(es[..i + 1], es[i + 1..], since, f);
  }

  /** Raising the cursor filters what already matched. */
  lemma {:induction false} MatchingAfter(es: seq<Event>, since: int, next: int, f: Filter)
    requires since <= next
    ensures Matching(es, next, f) == After(Matching(es, since, f), next)
  {
    if es != [] {
      MatchingAfter(Front(es), since, next, f);
      var hit := if Last(es).sequence > since && Selected(Last(es), f) then [Last(es)] else [];
      AfterConcat(Matching(Front(es), since, f), hit, next);
      AfterOne(Last(es), next);
    }
  }

  lemma AfterOne(e: Event, since: int)
    ensures After([e], since) == if e.sequence > since then [e] else []
  {
    assert Front([e]) == [];
  }

  /** In an ascending list, what lies above its n-th element is the rest of it. */
  lemma AfterNth(m: seq<Event>, n: nat)
    requires Ascending(m) && 0 < n <= |m|
    ensures After(m, m[n - 1].sequence) == m[n..]
  {
    var x, y := m[..n], m[n..];
    assert m == x + y && Last(x) == m[n - 1];
    AfterLast(x, y);
  }

  lemma AfterLast(x: seq<Event>, y: seq<Event>)
    requires Ascending(x + y) && x != []
    ensures After(x + y, Last(x).sequence) == y
  {
    AscendingConcat(x, y);
    assert Last(x) in x;
    forall e <- x ensures e.sequence <= Last(x).sequence {
      var i :| 0 <= i < |x| && x[i] == e;
      AscendingLast(x, i);
    }
    AfterConcat(x, y, Last(x).sequence);
    AfterNone(x, Last(x).sequence);
    AfterAll(y, Last(x).sequence);
  }

  /** In any list, what lies above an element's number is shorter than the list. */
  lemma {:induction false} AfterShrinks(m: seq<Event>, i: nat)
    requires i < |m|
    ensures |After(m, m[i].sequence)| < |m|
  {
    var since := m[i].sequence;
    assert m == m[..i] + ([m[i]] + m[i + 1..]);
    AfterConcat(m[..i], [m[i]] + m[i + 1..], since);
    AfterConcat([m[i]], m[i + 1..], since);
    AfterNone([m[i]], since);
    AfterLength(m[..i], since);
    AfterLength(m[i + 1..], since);
  }

  lemma {:induction false} AfterLength(m: seq<Event>, since: int)
    ensures |After(m, since)| <= |m|
  {
    if m != [] {
      AfterLength(Front(m), since);
    }
  }

  // ---- pages ----

  /** The collecting loop of QueryEvents. */
  method FirstMatches(all: seq<Event>, since: int, f: Filter, n: nat) returns (events: seq<Event>)
    requires n > 0
    ensures events == Take(Matching(all, since, f), n)
  {
    events := [];
    for i := 0 to |all|
      invariant events == Matching(all[..i], since, f) <= Matching(all, since, f) && |events| < n
    {
      MatchingNext(all, i, since, f);
      if all[i].sequence <= since {
        continue;
      }
      if !Selected(all[i], f) {
        continue;
      }
      events := events + [all[i]];
      if |events| >= n {
        break;
      }
    }
    assert all[..|all|] == all;
    PrefixIsTake(events, Matching(all, since, f), n);
  }

  /** QueryEvents. */
  method QueryEvents(all: seq<Event>, since: int, f: Filter, limit: int)
    returns (events: seq<Event>, nextCursor: int, hasMore: bool)
    ensures events == Take(Matching(all, since, f), PageSize(limit))
    ensures forall e <- events :: e in all && Wanted(e, since, f)
    ensures |events| < PageSize(limit) ==> forall e <- all :: Wanted(e, since, f) ==> e in events
    ensures 1 <= limit <= 1000 ==> |events| <= limit
    ensures nextCursor == if events == [] then 0 else events[|events| - 1].sequence
    ensures hasMore <==> |events| == PageSize(limit) && Matching(all, nextCursor, f) != []
    ensures hasMore <==> |events| == PageSize(limit) && exists e <- all :: Wanted(e, nextCursor, f)
  {
    var n := if limit <= 0 then 100 else limit;
    if n > 1000 {
      n := 1000;
    }
    events := FirstMatches(all, since, f, n);
    MatchingIff(all, since, f);
    TakeHolds(Matching(all, since, f), n);
    nextCursor := if |events| > 0 then events[|events| - 1].sequence else 0;
    hasMore := false;
    if |events| == n {
      hasMore := AnyAfter(all, nextCursor, f);
    }
    SomeMatchIff(all, nextCursor, f);
  }

  lemma SomeMatchIff(all: seq<Event>, since: int, f: Filter)
    ensures Matching(all, since, f) != [] <==> exists e <- all :: Wanted(e, since, f)
  {
    var m := Matching(all, since, f);
    MatchingIff(all, since, f);
    if m != [] {
      assert m[0] in m;
    }
  }

  lemma PrefixIsTake(x: seq<Event>, m: seq<Event>, n: nat)
    requires x <= m && |x| <= n && (|x| == n || x == m)
    ensures x == Take(m, n)
  {
  }

  /** The second loop of QueryEvents: is there a matching event beyond the page? */
  method AnyAfter(all: seq<Event>, nextCursor: int, f: Filter) returns (hasMore: bool)
    ensures hasMore <==> Matching(all, nextCursor, f) != []
  {
    hasMore := false;
    for i := 0 to |all|
      invariant !hasMore && Matching(all[..i], nextCursor, f) == []
    {
      MatchingNext(all, i, nextCursor, f);
      if all[i].sequence > nextCursor {
        if !Selected(all[i], f) {
          continue;
        }
        return true;
      }
    }
    assert all[..|all|] == all;
  }

  /** QueryEvents as a function. */
  function Page(all: seq<Event>, since: int, f: Filter, limit: int): seq<Event> {
    Take(Matching(all, since, f), PageSize(limit))
  }

  predicate HasMore(all: seq<Event>, since: int, f: Filter, limit: int) {
    var page := Page(all, since, f, limit);
    |page| == PageSize(limit) && Matching(all, LastSeq(page), f) != []
  }

  lemma NextPageIsShorter(all: seq<Event>, since: int, f: Filter, limit: int)
    ensures var page := Page(all, since, f, limit);
            page != [] ==> LastSeq(page) > since && |Matching(all, LastSeq(page), f)| < |Matching(all, since, f)|
  {
    var m, page := Matching(all, since, f), Page(all, since, f, limit);
    if page != [] {
      assert page[|page| - 1] == m[|page| - 1] && m[|page| - 1] in m;
      MatchingAfter(all, since, LastSeq(page), f);
      AfterShrinks(m, |page| - 1);
    }
  }

  /** The pages a client gets by following next_cursor while has_more. */
  function AllPages(all: seq<Event>, since: int, f: Filter, limit: int): seq<Event>
    decreases |Matching(all, since, f)|
  {
    NextPageIsShorter(all, since, f, limit);
    var page := Page(all, since, f, limit);
    if HasMore(all, since, f, limit) then page + AllPages(all, LastSeq(page), f, limit) else page
  }

  lemma TakeIsPrefix(m: seq<Event>, n: nat)
    ensures |Take(m, n)| == if |m| <= n then |m| else n
    ensures Take(m, n) == m[..|Take(m, n)|]
    ensures Take(m, n) != [] ==> LastSeq(Take(m, n)) == m[|Take(m, n)| - 1].sequence
  {
  }

  /** Where the matching events ascend, has_more says that another one remains, and the next page
      starts right after this one. */
  lemma PageCuts(all: seq<Event>, since: int, f: Filter, limit: int)
    requires Ascending(Matching(all, since, f))
    ensures var m, page := Matching(all, since, f), Page(all, since, f, limit);
            && (HasMore(all, since, f, limit) <==> |m| > |page|)
            && (page != [] ==> Matching(all, LastSeq(page), f) == m[|page|..])
  {
    var m, page := Matching(all, since, f), Page(all, since, f, limit);
    if page != [] {
      NextPageIsShorter(all, since, f, limit);
      MatchingAfter(all, since, LastSeq(page), f);
      TakeIsPrefix(m, PageSize(limit));
      AfterNth(m, |page|);
    }
  }

  lemma {:induction false} PagesAreComplete(all: seq<Event>, since: int, f: Filter, limit: int)
    requires Ascending(Matching(all, since, f))
    ensures AllPages(all, since, f, limit) == Matching(all, since, f)
    decreases |Matching(all, since, f)|
  {
    var m, page := Matching(all, since, f), Page(all, since, f, limit);
    PageCuts(all, since, f, limit);
    NextPageIsShorter(all, since, f, limit);
    if HasMore(all, since, f, limit) {
      assert m == page + m[|page|..];
      AscendingConcat(page, m[|page|..]);
      PagesAreComplete(all, LastSeq(page), f, limit);
    }
  }

  /** Pages of one event come out in ascending order, whatever the list. */
  lemma {:induction false} SinglesAscend(all: seq<Event>, since: int, f: Filter)
    ensures Ascending(AllPages(all, since, f, 1))
    ensures forall e <- AllPages(all, since, f, 1) :: e.sequence > since
    decreases |Matching(all, since, f)|
  {
    var page := Page(all, since, f, 1);
    NextPageIsShorter(all, since, f, 1);
    if HasMore(all, since, f, 1) {
      SinglesAscend(all, LastSeq(page), f);
      AscendingConcat(page, AllPages(all, LastSeq(page), f, 1));
    }
  }

  /** Following next_cursor yields every matching event, once and in order, for every page size,
      exactly when the matching events ascend in the reader's list. */
  lemma PagingIff(all: seq<Event>, since: int, f: Filter)
    ensures (forall limit: int :: AllPages(all, since, f, limit) == Matching(all, since, f)) <==> Ascending(Matching(all, since, f))
  {
    if Ascending(Matching(all, since, f)) {
      forall limit: int ensures AllPages(all, since, f, limit) == Matching(all, since, f) {
        PagesAreComplete(all, since, f, limit);
      }
    } else {
      SinglesAscend(all, since, f);
      assert AllPages(all, since, f, 1) != Matching(all, since, f);
    }
  }

  // ---- WebSocket clients ----

  /** NewEventsAfter. (Its first loop only looks for the place to start and has no effect.) */
  method NewEventsAfter(all: seq<Event>, since: int, f: Filter) returns (result: seq<Event>)
    ensures result == Matching(all, since, f)
    ensures forall e {:trigger e in result} :: e in result <==> e in all && Wanted(e, since, f)
  {
    MatchingIff(all, since, f);
    result := [];
    for i := 0 to |all|
      invariant result == Matching(all[..i], since, f)
    {
      MatchingNext(all, i, since, f);
      if all[i].sequence <= since {
        continue;
      }
      if !Selected(all[i], f) {
        continue;
      }
      result := result + [all[i]];
    }
    assert all[..|all|] == all;
  }

  class WsClient {
    const filter: Filter
    const connectSeq: int
    var lastSeq: int
    ghost var sent: seq<Event>

    constructor (filter: Filter, connectSeq: int)
      ensures this.filter == filter && this.connectSeq == connectSeq && lastSeq == connectSeq && sent == []
    {
      this.filter, this.connectSeq, lastSeq, sent := filter, connectSeq, connectSeq, [];
    }

    /** What this client is to be sent, given the index. */
    ghost function Due(all: seq<Event>): seq<Event> {
      Matching(all, connectSeq, filter)
    }

    ghost predicate Valid()
      reads this
    {
      lastSeq == Cursor(sent, connectSeq)
    }

    /** What the client is due ascends, and it has been sent a prefix of that, without gap or repeat. */
    ghost predicate InStep(all: seq<Event>)
      reads this
    {
      Ascending(Due(all)) && sent <= Due(all) && Valid()
    }
  }

  /** The number of the last event sent to a client. */
  function Cursor(sent: seq<Event>, connectSeq: int): int {
    if sent == [] then connectSeq else Last(sent).sequence
  }

  /** What a client has been sent after its turn in a broadcast of which `ok` writes succeed. */
  function NextSent(all: seq<Event>, connectSeq: int, f: Filter, sent: seq<Event>, ok: nat): seq<Event> {
    sent + Take(Matching(all, Cursor(sent, connectSeq), f), ok)
  }

  /** HandleWebSocket: a new client is in step with any index, however its events are ordered. */
  method Connect(reader: EventReader, filter: Filter) returns (client: WsClient)
    requires reader.Valid()
    ensures fresh(client) && client.filter == filter && client.connectSeq == reader.lastSeq && client.InStep(reader.events)
    ensures client.sent == [] && reader.lastSeq == LastSeq(reader.seen)
  {
    client := new WsClient(filter, reader.lastSeq);
    NoneAbove(reader.events, reader.seen, filter);
  }

  lemma NoneAbove(events: seq<Event>, seen: seq<Event>, f: Filter)
    requires Numbered(seen) && multiset(events) == multiset(seen)
    ensures forall e <- events :: e.sequence <= LastSeq(seen)
    ensures Matching(events, LastSeq(seen), f) == []
  {
    SameMembers(events, seen);
    AppendedIsAbove(seen, []);
    assert seen + [] == seen;
    NoMatch(events, LastSeq(seen), f);
  }

  lemma {:induction false} NoMatch(es: seq<Event>, since: int, f: Filter)
    requires forall e <- es :: e.sequence <= since
    ensures Matching(es, since, f) == []
  {
    if es != [] {
      assert Last(es) in es && forall e <- Front(es) :: e in es;
      NoMatch(Front(es), since, f);
    }
  }

  ghost predicate AllValid(clients: seq<WsClient>)
    reads clients
  {
    forall i :: 0 <= i < |clients| ==> clients[i].Valid()
  }

  ghost predicate AllInStep(clients: seq<WsClient>, all: seq<Event>)
    reads clients
  {
    forall i :: 0 <= i < |clients| ==> clients[i].InStep(all)
  }

  ghost predicate Distinct(clients: seq<WsClient>) {
    forall i, j :: 0 <= i < j < |clients| ==> clients[i] != clients[j]
  }

  lemma DueRest(all: seq<Event>, connectSeq: int, f: Filter, sent: seq<Event>)
    requires Ascending(Matching(all, connectSeq, f)) && sent <= Matching(all, connectSeq, f)
    ensures Matching(all, Cursor(sent, connectSeq), f) == Matching(all, connectSeq, f)[|sent|..]
  {
    var m := Matching(all, connectSeq, f);
    if sent != [] {
      assert Last(sent) == m[|sent| - 1] && m[|sent| - 1] in m;
      MatchingAfter(all, connectSeq, Last(sent).sequence, f);
      AfterNth(m, |sent|);
    }
  }

  /** Where what is due ascends, a broadcast sends the next of it. */
  lemma NextInStep(all: seq<Event>, connectSeq: int, f: Filter, sent: seq<Event>, ok: nat)
    requires Ascending(Matching(all, connectSeq, f)) && sent <= Matching(all, connectSeq, f)
    ensures NextSent(all, connectSeq, f, sent, ok) == Take(Matching(all, connectSeq, f), |sent| + ok)
    ensures NextSent(all, connectSeq, f, sent, ok) <= Matching(all, connectSeq, f)
  {
    DueRest(all, connectSeq, f, sent);
    TakeOn(Matching(all, connectSeq, f), sent, ok);
  }

  lemma TakeOn(due: seq<Event>, sent: seq<Event>, ok: nat)
    requires sent <= due
    ensures sent + Take(due[|sent|..], ok) == Take(due, |sent| + ok) <= due
  {
    assert due == sent + due[|sent|..];
  }

  lemma {:induction false} MatchingAscends(es: seq<Event>, since: int, f: Filter)
    requires Ascending(es)
    ensures Ascending(Matching(es, since, f))
  {
    if es != [] {
      assert es == Front(es) + [Last(es)];
      AscendingConcat(Front(es), [Last(es)]);
      MatchingAscends(Front(es), since, f);
      AscendingConcat(Matching(Front(es), since, f), [Last(es)]);
      assert Matching(Front(es), since, f) + [] == Matching(Front(es), since, f);
    }
  }

  /** One client's turn in broadcastNewEvents; the write after `ok` successful ones fails. */
  method SendNewEvents(client: WsClient, all: seq<Event>, ok: nat)
    requires client.Valid()
    modifies client
    ensures client.Valid()
    ensures client.sent == NextSent(all, client.connectSeq, client.filter, old(client.sent), ok)
    ensures forall e <- client.sent[|old(client.sent)|..] :: e in all && Wanted(e, old(client.lastSeq), client.filter)
  {
    var events := NewEventsAfter(all, client.lastSeq, client.filter);
    WriteAll(client, events, ok);
    TakeHolds(events, ok);
    assert client.sent[|old(client.sent)|..] == Take(events, ok);
  }

  /** The write loop: it stops at the first failure and moves lastSeq with every success. */
  method WriteAll(client: WsClient, events: seq<Event>, ok: nat)
    modifies client
    ensures client.sent == old(client.sent) + Take(events, ok)
    ensures client.lastSeq == if Take(events, ok) == [] then old(client.lastSeq) else Last(Take(events, ok)).sequence
  {
    for i := 0 to |events|
      invariant i <= ok
      invariant client.sent == old(client.sent) + events[..i]
      invariant client.lastSeq == if i == 0 then old(client.lastSeq) else events[i - 1].sequence
    {
      if i >= ok {
        return;
      }
      client.lastSeq := events[i].sequence;
      client.sent := client.sent + [events[i]];
      assert events[..i + 1] == events[..i] + [events[i]];
    }
    assert events[..|events|] == events;
  }

  /** broadcastNewEvents: every client in turn; ok[i] is the number of writes to client i that succeed. */
  method BroadcastNewEvents(clients: seq<WsClient>, all: seq<Event>, ok: seq<nat>)
    requires |ok| == |clients|
    requires Distinct(clients)
    requires AllValid(clients)
    modifies clients
    ensures AllValid(clients)
    ensures forall i :: 0 <= i < |clients| ==>
              clients[i].sent == NextSent(all, clients[i].connectSeq, clients[i].filter, old(clients[i].sent), ok[i])
    ensures old(AllInStep(clients, all)) ==> AllInStep(clients, all) && Served(clients, all, old(Sent(clients)), ok)
  {
    ghost var was := Sent(clients);
    for k := 0 to |clients|
      invariant AllValid(clients) && |was| == |clients|
      invariant forall i :: 0 <= i < k ==>
                  clients[i].sent == NextSent(all, clients[i].connectSeq, clients[i].filter, was[i], ok[i])
      invariant forall i :: k <= i < |clients| ==> clients[i].sent == was[i]
    {
      SendNewEvents(clients[k], all, ok[k]);
    }
    if old(AllInStep(clients, all)) {
      assert WereInStep(clients, all, was) by {
        assert forall i :: 0 <= i < |clients| ==> old(clients[i].InStep(all));
      }
      AllServed(clients, all, was, ok);
    }
  }

  /** What each client had been sent was a prefix of what it is due. */
  ghost predicate WereInStep(clients: seq<WsClient>, all: seq<Event>, was: seq<seq<Event>>)
    requires |was| == |clients|
  {
    forall i :: 0 <= i < |clients| ==> Ascending(clients[i].Due(all)) && was[i] <= clients[i].Due(all)
  }

  lemma AllServed(clients: seq<WsClient>, all: seq<Event>, was: seq<seq<Event>>, ok: seq<nat>)
    requires |was| == |clients| == |ok| && AllValid(clients) && WereInStep(clients, all, was)
    requires forall i :: 0 <= i < |clients| ==>
               clients[i].sent == NextSent(all, clients[i].connectSeq, clients[i].filter, was[i], ok[i])
    ensures AllInStep(clients, all) && Served(clients, all, was, ok)
  {
    forall i | 0 <= i < |clients|
      ensures clients[i].InStep(all) && clients[i].sent == Take(clients[i].Due(all), |was[i]| + ok[i])
    {
      assert Ascending(clients[i].Due(all));
      NextInStep(all, clients[i].connectSeq, clients[i].filter, was[i], ok[i]);
    }
  }

  /** Each client has been sent as many more events, of those it is due, as writes succeeded. */
  ghost predicate Served(clients: seq<WsClient>, all: seq<Event>, was: seq<seq<Event>>, ok: seq<nat>)
    requires |was| == |clients| == |ok|
    reads clients
  {
    forall i :: 0 <= i < |clients| ==> clients[i].sent == Take(clients[i].Due(all), |was[i]| + ok[i])
  }

  /** Each client with writes enough for all it is due has been sent all of that. */
  ghost predicate Complete(clients: seq<WsClient>, all: seq<Event>, ok: seq<nat>)
    requires |clients| == |ok|
    reads clients
  {
    forall i :: 0 <= i < |clients| && |clients[i].Due(all)| <= ok[i] ==> clients[i].sent == clients[i].Due(all)
  }

  ghost function Sent(clients: seq<WsClient>): (sents: seq<seq<Event>>)
    reads clients
    ensures |sents| == |clients| && forall i :: 0 <= i < |clients| ==> sents[i] == clients[i].sent
  {
    seq(|clients|, i requires 0 <= i < |clients| reads clients => clients[i].sent)
  }

  // ---- the broadcast loop ----

  /** The log directory at a tick: its rotations, and its events in append order. */
  datatype Snapshot = Snapshot(dir: Directory, ghost times: seq<nat>, ghost history: seq<Event>)

  /** A snapshot of the log taken after its history was `before`. */
  ghost predicate Follows(before: seq<Event>, s: Snapshot) {
    && Laid(s.dir, s.times) && s.history == HistoryOf(s.dir, s.times)
    && Numbered(s.history) && before <= s.history
  }

  /** What a refresh adds, in the order of the listing. */
  ghost function News(before: seq<Event>, s: Snapshot): seq<Event> {
    After(AllEvents(s.dir), LastSeq(before))
  }

  /** The news ascends exactly when it is not split between the current file and rotated ones. */
  lemma NewsAscendsIff(before: seq<Event>, s: Snapshot)
    requires Follows(before, s)
    ensures Ascending(News(before, s))
       <==> After(s.dir[CURRENT_NAME], LastSeq(before)) == [] || After(Older(s.dir, s.times), LastSeq(before)) == []
  {
    ListingOrder(s.dir, s.times);
    RefreshAscendsIff([], Older(s.dir, s.times), s.dir[CURRENT_NAME], LastSeq(before));
    assert [] + News(before, s) == News(before, s);
  }

  /** After a refresh what a client is due ascends exactly when the news for it does. */
  lemma DueAscendsIff(events: seq<Event>, before: seq<Event>, s: Snapshot, connectSeq: int, f: Filter)
    requires Numbered(before) && multiset(events) == multiset(before) && Follows(before, s)
    requires Ascending(Matching(events, connectSeq, f))
    ensures Matching(events + News(before, s), connectSeq, f)
         == Matching(events, connectSeq, f) + Matching(News(before, s), connectSeq, f)
    ensures Ascending(Matching(events + News(before, s), connectSeq, f)) <==> Ascending(Matching(News(before, s), connectSeq, f))
  {
    var due, coming := Matching(events, connectSeq, f), Matching(News(before, s), connectSeq, f);
    MatchingConcat(events, News(before, s), connectSeq, f);
    NoneAbove(events, before, f);
    forall e <- due, d <- coming ensures e.sequence < d.sequence {
      assert e in events && d in News(before, s);
    }
    AscendingConcat(due, coming);
  }

  lemma AllStayInStep(clients: seq<WsClient>, events: seq<Event>, before: seq<Event>, s: Snapshot)
    requires Numbered(before) && multiset(events) == multiset(before) && Follows(before, s)
    ensures AllInStep(clients, events) && NewsAscendsForAll(before, s, clients) ==>
              AllInStep(clients, events + News(before, s))
  {
    if AllInStep(clients, events) && NewsAscendsForAll(before, s, clients) {
      forall i | 0 <= i < |clients| ensures clients[i].InStep(events + News(before, s)) {
        assert clients[i].InStep(events);
        DueAscendsIff(events, before, s, clients[i].connectSeq, clients[i].filter);
      }
    }
  }

  /** What is new for each client ascends. */
  ghost predicate NewsAscendsForAll(before: seq<Event>, s: Snapshot, clients: seq<WsClient>) {
    forall i :: 0 <= i < |clients| ==> Ascending(Matching(News(before, s), clients[i].connectSeq, clients[i].filter))
  }

  /** One tick of broadcastLoop: refresh, then broadcast.  If the news for each client ascends, every
      client stays in step. */
  method Tick(reader: EventReader, clients: seq<WsClient>, s: Snapshot, ok: seq<nat>)
    requires |ok| == |clients| && Distinct(clients)
    requires reader.Valid() && Follows(reader.seen, s)
    requires AllValid(clients)
    modifies reader, clients
    ensures reader.Valid() && reader.seen == s.history
    ensures reader.events == old(reader.events + News(reader.seen, s))
    ensures AllValid(clients)
    ensures forall i :: 0 <= i < |clients| ==>
              clients[i].sent == NextSent(reader.events, clients[i].connectSeq, clients[i].filter, old(clients[i].sent), ok[i])
    ensures old(AllInStep(clients, reader.events) && NewsAscendsForAll(reader.seen, s, clients)) ==>
              AllInStep(clients, reader.events) && Served(clients, reader.events, old(Sent(clients)), ok)
  {
    AllStayInStep(clients, reader.events, reader.seen, s);
    reader.Refresh(s.dir, s.times);
    BroadcastNewEvents(clients, reader.events, ok);
  }

  /** The history the reader had seen when snapshot t was taken. */
  ghost function HistoryBefore(start: seq<Event>, snapshots: seq<Snapshot>, t: nat): seq<Event>
    requires t <= |snapshots|
  {
    if t == 0 then start else snapshots[t - 1].history
  }

  /** The snapshots are of one log that grows. */
  ghost predicate Grown(start: seq<Event>, snapshots: seq<Snapshot>) {
    forall t :: 0 <= t < |snapshots| ==> FollowsAt(start, snapshots, t)
  }

  ghost predicate FollowsAt(start: seq<Event>, snapshots: seq<Snapshot>, t: nat)
    requires t < |snapshots|
  {
    Follows(HistoryBefore(start, snapshots, t), snapshots[t])
  }

  /** A reader's list, and what each of the ticks that follow adds to it. */
  datatype Feed = Feed(events: seq<Event>, news: seq<seq<Event>>)

  /** The news is what refreshes read from the snapshots. */
  ghost predicate Feeds(feed: Feed, start: seq<Event>, snapshots: seq<Snapshot>) {
    |feed.news| == |snapshots| && forall t :: 0 <= t < |snapshots| ==> FeedsAt(feed, start, snapshots, t)
  }

  ghost predicate FeedsAt(feed: Feed, start: seq<Event>, snapshots: seq<Snapshot>, t: nat)
    requires t < |snapshots| == |feed.news|
  {
    feed.news[t] == News(HistoryBefore(start, snapshots, t), snapshots[t])
  }

  ghost function FeedOf(events: seq<Event>, start: seq<Event>, snapshots: seq<Snapshot>): (feed: Feed)
    ensures feed.events == events && Feeds(feed, start, snapshots)
  {
    Feed(events, seq(|snapshots|, t requires 0 <= t < |snapshots| => News(HistoryBefore(start, snapshots, t), snapshots[t])))
  }

  /** The reader's list after t ticks. */
  function IndexAfter(feed: Feed, t: nat): seq<Event>
    requires t <= |feed.news|
  {
    if t == 0 then feed.events else IndexAfter(feed, t - 1) + feed.news[t - 1]
  }

  /** What tick t brings a client ascends. */
  predicate NewsAscends(feed: Feed, connectSeq: int, f: Filter, t: nat)
    requires 0 < t <= |feed.news|
  {
    Ascending(Matching(feed.news[t - 1], connectSeq, f))
  }

  ghost predicate AllNewsAscends(feed: Feed, clients: seq<WsClient>) {
    forall t, i :: 0 < t <= |feed.news| && 0 <= i < |clients| ==> NewsAscends(feed, clients[i].connectSeq, clients[i].filter, t)
  }

  /** What a client has been sent after t ticks; ok[t - 1] of the writes to it at tick t succeed. */
  function SentAfter(feed: Feed, connectSeq: int, f: Filter, sent: seq<Event>, ok: seq<nat>, t: nat): seq<Event>
    requires t <= |feed.news| == |ok|
  {
    if t == 0 then sent
    else NextSent(IndexAfter(feed, t), connectSeq, f, SentAfter(feed, connectSeq, f, sent, ok, t - 1), ok[t - 1])
  }

  ghost predicate AllSent(feed: Feed, clients: seq<WsClient>, was: seq<seq<Event>>, ok: seq<seq<nat>>, t: nat)
    requires t <= |feed.news| == |ok| && |was| == |clients| && forall o <- ok :: |o| == |clients|
    reads clients
  {
    forall i :: 0 <= i < |clients| ==>
      clients[i].sent == SentAfter(feed, clients[i].connectSeq, clients[i].filter, was[i], Column(ok, i), t)
  }

  /** Any series of ticks, with the news of each ascending for every client or not. */
  method BroadcastLoop(reader: EventReader, clients: seq<WsClient>, snapshots: seq<Snapshot>, ok: seq<seq<nat>>)
    requires |ok| == |snapshots| && forall o <- ok :: |o| == |clients|
    requires Distinct(clients)
    requires reader.Valid() && Grown(reader.seen, snapshots)
    requires AllValid(clients)
    modifies reader, clients
    ensures var feed := FeedOf(old(reader.events), old(reader.seen), snapshots);
            && reader.Valid() && reader.seen == HistoryBefore(old(reader.seen), snapshots, |snapshots|)
            && reader.events == IndexAfter(feed, |snapshots|)
            && AllValid(clients) && AllSent(feed, clients, old(Sent(clients)), ok, |snapshots|)
            && (old(AllInStep(clients, reader.events)) && AllNewsAscends(feed, clients) ==>
                  && AllInStep(clients, reader.events)
                  && (snapshots != [] ==> Complete(clients, reader.events, ok[|ok| - 1])))
  {
    ghost var start, was := reader.seen, Sent(clients);
    ghost var feed := FeedOf(reader.events, reader.seen, snapshots);
    for t := 0 to |snapshots|
      invariant reader.Valid() && reader.seen == HistoryBefore(start, snapshots, t) && reader.events == IndexAfter(feed, t)
      invariant AllValid(clients) && AllSent(feed, clients, was, ok, t)
      invariant old(AllInStep(clients, reader.events)) && AllNewsAscends(feed, clients) ==>
                  AllInStep(clients, reader.events) && (t > 0 ==> Complete(clients, reader.events, ok[t - 1]))
    {
      assert FollowsAt(start, snapshots, t);
      NextTick(reader, clients, snapshots[t], ok, feed, was, t + 1);
    }
  }

  /** Tick t of them. */
  method NextTick(reader: EventReader, clients: seq<WsClient>, s: Snapshot, ok: seq<seq<nat>>,
                  ghost feed: Feed, ghost was: seq<seq<Event>>, t: nat)
    requires 0 < t <= |feed.news| == |ok| && |was| == |clients| && forall o <- ok :: |o| == |clients|
    requires Distinct(clients) && AllValid(clients) && AllSent(feed, clients, was, ok, t - 1)
    requires reader.Valid() && reader.events == IndexAfter(feed, t - 1)
    requires Follows(reader.seen, s) && feed.news[t - 1] == News(reader.seen, s)
    modifies reader, clients
    ensures reader.Valid() && reader.seen == s.history && reader.events == IndexAfter(feed, t)
    ensures AllValid(clients) && AllSent(feed, clients, was, ok, t)
    ensures old(AllInStep(clients, reader.events)) && AllNewsAscends(feed, clients) ==>
              AllInStep(clients, reader.events) && Complete(clients, reader.events, ok[t - 1])
  {
    assert ok[t - 1] in ok;
    if AllNewsAscends(feed, clients) {
      assert NewsAscendsForAll(reader.seen, s, clients) by {
        forall i | 0 <= i < |clients|
          ensures Ascending(Matching(News(reader.seen, s), clients[i].connectSeq, clients[i].filter))
        {
          assert NewsAscends(feed, clients[i].connectSeq, clients[i].filter, t);
        }
      }
    }
    Tick(reader, clients, s, ok[t - 1]);
    assert reader.events == IndexAfter(feed, t);
    forall i | 0 <= i < |clients|
      ensures clients[i].sent == SentAfter(feed, clients[i].connectSeq, clients[i].filter, was[i], Column(ok, i), t)
    {
    }
  }

  /** The writes to client i that succeed, tick by tick. */
  ghost function Column(ok: seq<seq<nat>>, i: nat): (c: seq<nat>)
    requires forall o <- ok :: i < |o|
    ensures |c| == |ok| && forall t :: 0 <= t < |c| ==> c[t] == ok[t][i]
  {
    seq(|ok|, t requires 0 <= t < |ok| => assert ok[t] in ok; ok[t][i])
  }

  // ---- what split news does ----

  lemma EmptyIsLaid()
    ensures Laid(WithCurrent(map[]), []) && HistoryOf(WithCurrent(map[]), []) == [] && Numbered([])
  {
    assert RotatedNames([]) == [];
  }

  lemma After1(x: Event, since: int)
    ensures After([x], since) == if x.sequence > since then [x] else []
  {
    assert Front([x]) == [] && Last([x]) == x;
  }

  lemma After3(x: Event, y: Event, z: Event, since: int)
    ensures After([x, y, z], since) == After([x], since) + After([y], since) + After([z], since)
  {
    assert [x, y, z] == ([x] + [y]) + [z];
    AfterConcat([x] + [y], [z], since);
    AfterConcat([x], [y], since);
  }

  /** The history 1, 2, 3 with 3 alone in the current file: how it is listed. */
  lemma SplitListing(dir: Directory, times: seq<nat>, e1: Event, e2: Event, e3: Event)
    requires Laid(dir, times) && dir[CURRENT_NAME] == [e3] && HistoryOf(dir, times) == [e1, e2, e3]
    ensures AllEvents(dir) == [e3, e1, e2] && [e1] <= HistoryOf(dir, times)
  {
    ListingOrder(dir, times);
    assert HistoryOf(dir, times)[..2] == [e1, e2];
  }

  /** And what a reader of 1 makes of it. */
  lemma SplitNews(e1: Event, e2: Event, e3: Event)
    requires e1.sequence == 1 && e2.sequence == 2 && e3.sequence == 3
    ensures [e1] + After([e3, e1, e2], LastSeq([e1])) == [e1, e3, e2] && !Ascending([e1, e3, e2])
  {
    After3(e3, e1, e2, 1);
    After1(e1, 1);
    After1(e2, 1);
    After1(e3, 1);
    assert [e1, e3, e2][1].sequence > [e1, e3, e2][2].sequence;
  }

  /** So the index grows out of order. */
  lemma SplitReads(dir: Directory, times: seq<nat>, e1: Event, e2: Event, e3: Event)
    requires Laid(dir, times) && dir[CURRENT_NAME] == [e3] && HistoryOf(dir, times) == [e1, e2, e3]
    requires e1.sequence == 1 && e2.sequence == 2 && e3.sequence == 3
    ensures [e1] <= HistoryOf(dir, times) && [e1] + After(AllEvents(dir), LastSeq([e1])) == [e1, e3, e2]
    ensures !Ascending([e1, e3, e2])
  {
    SplitListing(dir, times, e1, e2, e3);
    SplitNews(e1, e2, e3);
  }

  /** A log file with room for one more event, and a reader of it. */
  method ReadOne(agent: string, nanos: nat) returns (log: EventLog, reader: EventReader, e1: Event)
    requires |Decimal(nanos)| == 19
    ensures fresh(log) && log.Valid() && log.History() == log.files[CURRENT_NAME] == [e1] && log.rotations == []
    ensures log.maxFileSize == 2 && log.fileSize == 1 && (forall e :: log.lineLen(e) == 1) && e1.sequence == 1 == log.lastSeq
    ensures fresh(reader) && reader.Valid() && reader.seen == [e1] == reader.events
  {
    EmptyIsLaid();
    log := new EventLog(map[], 2, (e: Event) => 1, []);
    assert Size(log.lineLen, []) == 0;
    e1 := log.Append(1, agent, RegistryRead(agent), nanos);
    assert Front([e1]) == [] && Last([e1]) == e1 && Size(log.lineLen, [e1]) == 1;
    reader := new EventReader(log.files, log.rotations);
    ListingOrder(log.files, log.rotations);
  }

  /** The second event fills the file. */
  method AppendSecond(log: EventLog, agent: string, nanos: nat) returns (e2: Event)
    requires |Decimal(nanos)| == 19 && log.Valid() && log.rotations == []
    requires log.maxFileSize == 2 && log.fileSize == 1 && forall e :: log.lineLen(e) == 1
    modifies log
    ensures log.Valid() && log.rotations == [nanos] && log.files[CURRENT_NAME] == [] && log.fileSize == 0
    ensures log.History() == old(log.History()) + [e2] && e2.sequence == log.lastSeq == old(log.lastSeq) + 1
  {
    assert [] + [nanos] == [nanos];
    e2 := log.Append(2, agent, RegistryRead(agent), nanos);
  }

  /** The third goes to a new one. */
  method AppendThird(log: EventLog, agent: string, nanos: nat, later: nat) returns (e3: Event)
    requires |Decimal(nanos)| == |Decimal(later)| == 19 && nanos < later && log.Valid() && log.rotations == [nanos]
    requires log.maxFileSize == 2 && log.fileSize == 0 && log.files[CURRENT_NAME] == [] && forall e :: log.lineLen(e) == 1
    modifies log
    ensures log.Valid() && log.files[CURRENT_NAME] == [e3]
    ensures log.History() == old(log.History()) + [e3] && e3.sequence == old(log.lastSeq) + 1
  {
    assert [nanos] + [later] == [nanos, later];
    e3 := log.Append(3, agent, RegistryRead(agent), later);
  }

  /** Both, after the first. */
  method AppendBoth(log: EventLog, agent: string, nanos: nat, later: nat, ghost e1: Event) returns (e2: Event, e3: Event)
    requires |Decimal(nanos)| == |Decimal(later)| == 19 && nanos < later && log.Valid() && log.rotations == []
    requires log.History() == [e1] && e1.sequence == 1 == log.lastSeq
    requires log.maxFileSize == 2 && log.fileSize == 1 && forall e :: log.lineLen(e) == 1
    modifies log
    ensures e2.sequence == 2 && e3.sequence == 3
    ensures var s := Snapshot(log.files, log.rotations, [e1, e2, e3]);
            Follows([e1], s) && [e1] + News([e1], s) == [e1, e3, e2]
  {
    e2 := AppendSecond(log, agent, nanos);
    e3 := AppendThird(log, agent, nanos, later);
    SplitReads(log.files, log.rotations, e1, e2, e3);
  }

  /** Append 1, load the index, append 2 which fills the file, append 3, refresh: the index holds 1, 3, 2. */
  method SplitRefresh(agent: string, nanos: nat, later: nat) returns (reader: EventReader, e1: Event, e2: Event, e3: Event)
    requires |Decimal(nanos)| == |Decimal(later)| == 19 && nanos < later
    ensures fresh(reader) && reader.Valid() && reader.seen == [e1, e2, e3] && reader.events == [e1, e3, e2]
    ensures e1.sequence == 1 && e2.sequence == 2 && e3.sequence == 3 && !Ascending(reader.events)
  {
    var log;
    log, reader, e1 := ReadOne(agent, nanos);
    e2, e3 := AppendBoth(log, agent, nanos, later, e1);
    reader.Refresh(log.files, log.rotations);
    assert reader.events[1].sequence > reader.events[2].sequence;
  }

  const EVERYTHING := Filter([], "")

  lemma Matching1(x: Event, since: int)
    ensures Matching([x], since, EVERYTHING) == if x.sequence > since then [x] else []
  {
    assert Front([x]) == [] && Last([x]) == x;
  }

  lemma Matching3(x: Event, y: Event, z: Event, since: int)
    ensures Matching([x, y, z], since, EVERYTHING)
         == (if x.sequence > since then [x] else []) + (if y.sequence > since then [y] else [])
          + (if z.sequence > since then [z] else [])
  {
    assert [x, y, z] == ([x] + [y]) + [z];
    MatchingConcat([x] + [y], [z], since, EVERYTHING);
    MatchingConcat([x], [y], since, EVERYTHING);
    Matching1(x, since);
    Matching1(y, since);
    Matching1(z, since);
  }

  /** On such an index, pages of one event never show event 2. */
  lemma SplitPagesMiss(e1: Event, e2: Event, e3: Event)
    requires e1.sequence == 1 && e2.sequence == 2 && e3.sequence == 3
    ensures AllPages([e1, e3, e2], 0, EVERYTHING, 1) == [e1, e3]
  {
    var es := [e1, e3, e2];
    Matching3(e1, e3, e2, 0);
    assert Page(es, 0, EVERYTHING, 1) == [e1];
    SplitSecondPage(e1, e2, e3);
  }

  lemma SplitSecondPage(e1: Event, e2: Event, e3: Event)
    requires e1.sequence == 1 && e2.sequence == 2 && e3.sequence == 3
    ensures Matching([e1, e3, e2], 1, EVERYTHING) != [] && AllPages([e1, e3, e2], 1, EVERYTHING, 1) == [e3]
  {
    var es := [e1, e3, e2];
    Matching3(e1, e3, e2, 1);
    Matching3(e1, e3, e2, 3);
    assert Page(es, 1, EVERYTHING, 1) == [e3] && !HasMore(es, 1, EVERYTHING, 1);
  }

  /** And a client that connected after event 1 is sent 3 and 2, and at the next tick 3 once more. */
  lemma SplitStreamRepeats(e1: Event, e2: Event, e3: Event)
    requires e1.sequence == 1 && e2.sequence == 2 && e3.sequence == 3
    ensures NextSent([e1, e3, e2], 1, EVERYTHING, [], 2) == [e3, e2]
    ensures NextSent([e1, e3, e2], 1, EVERYTHING, [e3, e2], 1) == [e3, e2, e3]
  {
    Matching3(e1, e3, e2, 1);
    Matching3(e1, e3, e2, 2);
  }

  /** Nothing is new to a reader of the whole log. */
  lemma NothingNew(dir: Directory, times: seq<nat>)
    requires Laid(dir, times) && Numbered(HistoryOf(dir, times))
    ensures After(AllEvents(dir), LastSeq(HistoryOf(dir, times))) == []
  {
    var h := HistoryOf(dir, times);
    UnreadIsAppended(dir, times, h);
    assert h[|h|..] == [];
    assert |multiset(After(AllEvents(dir), LastSeq(h)))| == 0;
  }

  /** So it happens on a real log: connect after event 1, append 2 and 3, two ticks in a quiet log. */
  method SplitBroadcast(agent: string, nanos: nat, later: nat) returns (client: WsClient, e2: Event, e3: Event)
    requires |Decimal(nanos)| == |Decimal(later)| == 19 && nanos < later
    ensures e2.sequence == 2 && e3.sequence == 3 && client.sent == [e3, e2, e3]
  {
    var log, reader, e1;
    log, reader, e1 := ReadOne(agent, nanos);
    client := Connect(reader, EVERYTHING);
    e2, e3 := AppendBoth(log, agent, nanos, later, e1);
    TickTwice(reader, client, Snapshot(log.files, log.rotations, [e1, e2, e3]), e1, e2, e3);
  }

  /** The second of the ticks finds nothing new. */
  method TickTwice(reader: EventReader, client: WsClient, s: Snapshot, ghost e1: Event, ghost e2: Event, ghost e3: Event)
    requires e1.sequence == 1 && e2.sequence == 2 && e3.sequence == 3
    requires reader.Valid() && reader.seen == reader.events == [e1] && Follows([e1], s)
    requires s.history == [e1, e2, e3] && [e1] + News([e1], s) == [e1, e3, e2]
    requires client.Valid() && client.sent == [] && client.connectSeq == 1 && client.filter == EVERYTHING
    modifies reader, client
    ensures client.sent == [e3, e2, e3]
  {
    ghost var due := [e1, e3, e2];
    SplitStreamRepeats(e1, e2, e3);
    NothingNew(s.dir, s.times);
    TickOne(reader, client, s, 2);
    assert reader.events == due && client.sent == [e3, e2];
    TickOne(reader, client, s, 1);
    assert reader.events == due + [] == due;
  }

  /** A tick with one client. */
  method TickOne(reader: EventReader, client: WsClient, s: Snapshot, ok: nat)
    requires reader.Valid() && Follows(reader.seen, s) && client.Valid()
    modifies reader, client
    ensures reader.Valid() && reader.seen == s.history && client.Valid()
    ensures reader.events == old(reader.events + News(reader.seen, s))
    ensures client.sent == NextSent(reader.events, client.connectSeq, client.filter, old(client.sent), ok)
  {
    var clients := [client];
    Tick(reader, clients, s, [ok]);
    assert clients[0].Valid() && clients[0].sent
        == NextSent(reader.events, client.connectSeq, client.filter, old(clients[0].sent), [ok][0]);
  }
}
