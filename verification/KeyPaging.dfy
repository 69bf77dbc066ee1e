/** Listing the keys of the state store page by page with a bbolt cursor.
    A read transaction sees one state of the bucket; the store may change between two pages. */
module KeyPaging {
  import opened Events
  import opened Names

  /** The keys a listing still owes after `cursor`: those with the prefix that sort above it. */
  function Beyond(keys: set<string>, prefix: string, cursor: string): seq<string> {
    Sorted(set k | k in keys && HasPrefix(k, prefix) && (cursor == "" || Less(cursor, k)))
  }

  function TakeKeys(list: seq<string>, n: nat): seq<string> {
    if |list| <= n then list else list[..n]
  }

  // ---- the cursor ----

  /** Cursor.Seek: the first position whose key is not below k. */
  function Seek(list: seq<string>, k: string): (i: nat)
    ensures i <= |list| && forall j :: 0 <= j < i ==> Less(list[j], k)
    ensures i < |list| ==> !Less(list[i], k)
  {
    if list == [] || !Less(list[0], k) then 0 else 1 + Seek(list[1..], k)
  }

  /** Where ListKeys starts to collect. */
  function Start(list: seq<string>, prefix: string, cursor: string): (i: nat)
    ensures i <= |list|
  {
    if cursor != "" then
      var i := Seek(list, cursor);
      if i < |list| && list[i] == cursor then i + 1 else i
    else Seek(list, prefix)
  }

  /** How many keys in a row from position i have the prefix. */
  function RunLength(list: seq<string>, i: nat, prefix: string): (n: nat)
    requires i <= |list|
    ensures i + n <= |list|
    ensures forall j :: i <= j < i + n ==> HasPrefix(list[j], prefix)
    ensures i + n < |list| ==> !HasPrefix(list[i + n], prefix)
    decreases |list| - i
  {
    if i < |list| && HasPrefix(list[i], prefix) then 1 + RunLength(list, i + 1, prefix) else 0
  }

  function Run(list: seq<string>, i: nat, prefix: string): seq<string>
    requires i <= |list|
  {
    list[i..i + RunLength(list, i, prefix)]
  }

  method HasPrefixLoop(s: string, prefix: string) returns (r: bool)
    ensures r <==> HasPrefix(s, prefix)
  {
    if |s| < |prefix| {
      return false;
    }
    for i := 0 to |prefix|
      invariant s[..i] == prefix[..i]
    {
      if s[i] != prefix[i] {
        assert s[..|prefix|][i] != prefix[i];
        return false;
      }
    }
    return true;
  }

  lemma SeekEmpty(list: seq<string>)
    ensures Seek(list, "") == 0
  {
  }

  /** The last key of a page, when more keys follow it. */
  function NextCursor(run: seq<string>, page: seq<string>): string {
    if |run| > |page| && page != [] then page[|page| - 1] else ""
  }

  /** ListKeys, in one read transaction over the given keys. */
  method ListKeys(bucketKeys: set<string>, prefix: string, cursor: string, limit: int)
    returns (keys: seq<string>, nextCursor: string, total: nat)
    ensures total == |Beyond(bucketKeys, prefix, "")|
    ensures cursor == "" || HasPrefix(cursor, prefix) ==>
            && keys == PageOf(Visit(bucketKeys, limit), prefix, cursor)
            && nextCursor == NextOf(Visit(bucketKeys, limit), prefix, cursor)
    ensures var list := Sorted(bucketKeys);
            var run := Run(list, Start(list, prefix, cursor), prefix);
            keys == TakeKeys(run, PageSize(limit)) && nextCursor == NextCursor(run, keys)
  {
    var list := Sorted(bucketKeys);
    total := CountMatching(list, prefix);
    RunIsBeyond(bucketKeys, prefix, "");
    keys, nextCursor := ListPage(list, prefix, cursor, limit);
    if cursor == "" || HasPrefix(cursor, prefix) {
      RunIsBeyond(bucketKeys, prefix, cursor);
    }
  }

  /** The page and the cursor. */
  method ListPage(list: seq<string>, prefix: string, cursor: string, limit: int) returns (keys: seq<string>, nextCursor: string)
    ensures var run := Run(list, Start(list, prefix, cursor), prefix);
            keys == TakeKeys(run, PageSize(limit)) && nextCursor == NextCursor(run, keys)
  {
    var n := if limit <= 0 then 100 else limit;
    if n > 1000 {
      n := 1000;
    }
    var k := Navigate(list, prefix, cursor);
    keys, k := Collect(list, k, prefix, n);
    nextCursor := "";
    if k < |list| {
      var has := HasPrefixLoop(list[k], prefix);
      if prefix == "" || has {
        if |keys| > 0 {
          nextCursor := keys[|keys| - 1];
        }
      }
    }
  }

  /** The collecting loop of ListKeys; k is where it stops. */
  method Collect(list: seq<string>, start: nat, prefix: string, n: nat) returns (keys: seq<string>, k: nat)
    requires start <= |list|
    ensures keys == TakeKeys(Run(list, start, prefix), n)
    ensures k == start + |keys|
    ensures |keys| < |Run(list, start, prefix)| <==> k < |list| && HasPrefix(list[k], prefix)
  {
    keys := [];
    k := start;
    ghost var length := RunLength(list, start, prefix);
    while k < |list| && |keys| < n
      invariant start <= k <= start + length && |keys| <= n
      invariant keys == list[start..k]
    {
      var has := HasPrefixLoop(list[k], prefix);
      if prefix != "" && !has {
        break;
      }
      assert HasPrefix(list[k], prefix);
      assert list[start..k] + [list[k]] == list[start..k + 1];
      keys := keys + [list[k]];
      k := k + 1;
    }
    assert k == start + length || |keys| == n;
    assert list[start..start + length][..k - start] == list[start..k];
  }

  lemma {:induction false} AllMatch(list: seq<string>, i: nat)
    requires i <= |list|
    ensures RunLength(list, i, "") == |list| - i
    decreases |list| - i
  {
    if i < |list| {
      AllMatch(list, i + 1);
    }
  }

  /** The count of all matching keys: the size of the bucket, or a scan from the prefix on. */
  method CountMatching(list: seq<string>, prefix: string) returns (total: nat)
    ensures total == RunLength(list, Seek(list, prefix), prefix)
  {
    if prefix == "" {
      SeekEmpty(list);
      AllMatch(list, 0);
      return |list|;
    }
    total := 0;
    ghost var from, length := Seek(list, prefix), RunLength(list, Seek(list, prefix), prefix);
    var k := Seek(list, prefix);
    while k < |list|
      invariant from <= k <= |list| && total == k - from <= length
    {
      var has := HasPrefixLoop(list[k], prefix);
      if !has {
        break;
      }
      total := total + 1;
      k := k + 1;
    }
  }

  method Navigate(list: seq<string>, prefix: string, cursor: string) returns (k: nat)
    ensures k == Start(list, prefix, cursor)
  {
    if cursor != "" {
      k := Seek(list, cursor);
      if k < |list| && list[k] == cursor {
        k := k + 1;
      }
    } else if prefix != "" {
      k := Seek(list, prefix);
    } else {
      SeekEmpty(list);
      k := 0;
    }
  }

  // ---- what a page is ----

  lemma SeekIsAbove(list: seq<string>, k: string, j: nat)
    requires Ascends(list) && Seek(list, k) <= j < |list|
    ensures list[j] == k || Less(k, list[j])
  {
    var i := Seek(list, k);
    LessTotal(list[i], k);
    if i < j && list[i] != k {
      LessTransitive(k, list[i], list[j]);
    }
  }

  /** From the start position on, exactly the keys above the cursor (or from the prefix on) follow. */
  lemma StartIsAbove(list: seq<string>, prefix: string, cursor: string, j: nat)
    requires Ascends(list) && j < |list|
    ensures cursor != "" ==> (Start(list, prefix, cursor) <= j <==> Less(cursor, list[j]))
    ensures cursor == "" && HasPrefix(list[j], prefix) ==> Start(list, prefix, cursor) <= j
  {
    LessTotal(cursor, list[j]);
    LessTotal(prefix, list[j]);
    if cursor != "" {
      var i := Seek(list, cursor);
      if i <= j {
        SeekIsAbove(list, cursor, j);
        if i < |list| && list[i] == cursor && j == i {
          assert !Less(cursor, list[j]);
        }
      } else {
        assert Less(list[j], cursor);
      }
    } else if HasPrefix(list[j], prefix) {
      PrefixFirst(prefix, list[j]);
    }
  }

  /** For a cursor that came out of a listing with this prefix, the keys collected are the next
      matching ones: keys with a prefix are contiguous. */
  lemma RunIsBeyond(bucketKeys: set<string>, prefix: string, cursor: string)
    requires cursor == "" || HasPrefix(cursor, prefix)
    ensures var list := Sorted(bucketKeys); Run(list, Start(list, prefix, cursor), prefix) == Beyond(bucketKeys, prefix, cursor)
  {
    var list := Sorted(bucketKeys);
    var run := Run(list, Start(list, prefix, cursor), prefix);
    forall k ensures k in run <==> k in bucketKeys && HasPrefix(k, prefix) && (cursor == "" || Less(cursor, k)) {
      RunHolds(list, prefix, cursor, k);
    }
    RunAscends(list, Start(list, prefix, cursor), prefix);
    SortedIs((set k | k in bucketKeys && HasPrefix(k, prefix) && (cursor == "" || Less(cursor, k))), run);
  }

  lemma RunAscends(list: seq<string>, i: nat, prefix: string)
    requires Ascends(list) && i <= |list|
    ensures Ascends(Run(list, i, prefix))
  {
    var run := Run(list, i, prefix);
    assert forall j :: 0 <= j < |run| ==> run[j] == list[i + j];
  }

  lemma RunHolds(list: seq<string>, prefix: string, cursor: string, k: string)
    requires Ascends(list) && (cursor == "" || HasPrefix(cursor, prefix))
    ensures k in Run(list, Start(list, prefix, cursor), prefix)
       <==> k in list && HasPrefix(k, prefix) && (cursor == "" || Less(cursor, k))
  {
    if k in Run(list, Start(list, prefix, cursor), prefix) {
      RunIsAbove(list, prefix, cursor, k);
    }
    if k in list && HasPrefix(k, prefix) && (cursor == "" || Less(cursor, k)) {
      AboveIsRun(list, prefix, cursor, k);
    }
  }

  lemma RunIsAbove(list: seq<string>, prefix: string, cursor: string, k: string)
    requires Ascends(list) && k in Run(list, Start(list, prefix, cursor), prefix)
    ensures k in list && HasPrefix(k, prefix) && (cursor == "" || Less(cursor, k))
  {
    var start := Start(list, prefix, cursor);
    var length := RunLength(list, start, prefix);
    SliceHolds(list, start, start + length, k);
    var i :| start <= i < start + length && list[i] == k;
    StartIsAbove(list, prefix, cursor, i);
  }

  lemma AboveIsRun(list: seq<string>, prefix: string, cursor: string, k: string)
    requires Ascends(list) && (cursor == "" || HasPrefix(cursor, prefix))
    requires k in list && HasPrefix(k, prefix) && (cursor == "" || Less(cursor, k))
    ensures k in Run(list, Start(list, prefix, cursor), prefix)
  {
    var j :| 0 <= j < |list| && list[j] == k;
    InRun(list, prefix, cursor, j);
    AtInRun(list, Start(list, prefix, cursor), prefix, j);
  }

  lemma AtInRun(list: seq<string>, start: nat, prefix: string, j: nat)
    requires start <= |list| && start <= j < start + RunLength(list, start, prefix)
    ensures list[j] in Run(list, start, prefix)
  {
    assert Run(list, start, prefix)[j - start] == list[j];
  }

  lemma SliceHolds(list: seq<string>, lo: nat, hi: nat, k: string)
    requires lo <= hi <= |list|
    ensures k in list[lo..hi] <==> exists i :: lo <= i < hi && list[i] == k
  {
    if k in list[lo..hi] {
      var i :| 0 <= i < hi - lo && list[lo..hi][i] == k;
      assert list[lo + i] == k;
    }
    if i :| lo <= i < hi && list[i] == k {
      assert list[lo..hi][i - lo] == k;
    }
  }

  lemma InRun(list: seq<string>, prefix: string, cursor: string, j: nat)
    requires Ascends(list) && j < |list| && HasPrefix(list[j], prefix)
    requires cursor == "" || (HasPrefix(cursor, prefix) && Less(cursor, list[j]))
    ensures Start(list, prefix, cursor) <= j < Start(list, prefix, cursor) + RunLength(list, Start(list, prefix, cursor), prefix)
  {
    var start := Start(list, prefix, cursor);
    StartIsAbove(list, prefix, cursor, j);
    var stop := start + RunLength(list, start, prefix);
    if stop <= j {
      if cursor == "" {
        SeekIsAbove(list, prefix, stop);
        PrefixConvex(prefix, prefix, list[stop], list[j]);
      } else {
        StartIsAbove(list, prefix, cursor, stop);
        PrefixConvex(prefix, cursor, list[stop], list[j]);
      }
    }
  }

  // ---- following next_cursor while the store changes ----

  /** One request: the keys in the store at that moment, and the limit asked for. */
  datatype Visit = Visit(keys: set<string>, limit: int)

  function PageOf(v: Visit, prefix: string, cursor: string): seq<string> {
    TakeKeys(Beyond(v.keys, prefix, cursor), PageSize(v.limit))
  }

  function NextOf(v: Visit, prefix: string, cursor: string): string {
    NextCursor(Beyond(v.keys, prefix, cursor), PageOf(v, prefix, cursor))
  }

  /** The keys listed by following next_cursor through a series of requests. */
  function Listed(visits: seq<Visit>, prefix: string, cursor: string): seq<string> {
    if visits == [] then []
    else
      var next := NextOf(visits[0], prefix, cursor);
      PageOf(visits[0], prefix, cursor) + if next == "" then [] else Listed(visits[1..], prefix, next)
  }

  /** The series reaches a page without next_cursor. */
  predicate Finished(visits: seq<Visit>, prefix: string, cursor: string) {
    visits != [] && (NextOf(visits[0], prefix, cursor) == "" || Finished(visits[1..], prefix, NextOf(visits[0], prefix, cursor)))
  }

  predicate Proper(cursor: string, prefix: string) {
    cursor == "" || HasPrefix(cursor, prefix)
  }

  /** What a page holds: ascending matching keys above the cursor, and none of those skipped. */
  lemma PageFacts(v: Visit, prefix: string, cursor: string)
    requires Proper(cursor, prefix) && "" !in v.keys
    ensures var page, next := PageOf(v, prefix, cursor), NextOf(v, prefix, cursor);
            && Ascends(page)
            && (forall k <- page :: k in v.keys && HasPrefix(k, prefix) && (cursor == "" || Less(cursor, k)))
            && (next != "" ==> page != [] && next == page[|page| - 1])
            && (forall k <- Beyond(v.keys, prefix, cursor) :: k in page || (next != "" && Less(next, k)))
  {
    var beyond, page := Beyond(v.keys, prefix, cursor), PageOf(v, prefix, cursor);
    assert forall k <- beyond :: k in v.keys && HasPrefix(k, prefix) && (cursor == "" || Less(cursor, k));
    assert page != [] ==> page[|page| - 1] in beyond;
    forall k <- beyond ensures k in page || (NextOf(v, prefix, cursor) != "" && Less(NextOf(v, prefix, cursor), k)) {
      var i :| 0 <= i < |beyond| && beyond[i] == k;
      if i < |page| {
        assert page[i] == k;
      }
    }
  }

  /** With any changes to the store between the pages, even of the cursor key: the keys come out in
      ascending order without repetition, each with the prefix and in the store when it was listed;
      and a finished listing contains every matching key that was there throughout. */
  lemma {:induction false} ListingIsComplete(visits: seq<Visit>, prefix: string, cursor: string)
    requires Proper(cursor, prefix) && forall v <- visits :: "" !in v.keys
    ensures Ascends(Listed(visits, prefix, cursor))
    ensures forall k <- Listed(visits, prefix, cursor) ::
              HasPrefix(k, prefix) && (cursor == "" || Less(cursor, k)) && exists v <- visits :: k in v.keys
    ensures Finished(visits, prefix, cursor) ==>
            forall k :: HasPrefix(k, prefix) && (cursor == "" || Less(cursor, k)) && (forall v <- visits :: k in v.keys)
                ==> k in Listed(visits, prefix, cursor)
    decreases visits
  {
    if visits != [] {
      var v, rest := visits[0], visits[1..];
      var page, next := PageOf(v, prefix, cursor), NextOf(v, prefix, cursor);
      PageFacts(v, prefix, cursor);
      assert visits == [v] + rest;
      if next != "" {
        assert next in page;
        ListingIsComplete(rest, prefix, next);
        JoinAscends(page, Listed(rest, prefix, next));
        AboveCursor(page, Listed(rest, prefix, next), cursor);
      }
      if Finished(visits, prefix, cursor) {
        forall k | HasPrefix(k, prefix) && (cursor == "" || Less(cursor, k)) && (forall u <- visits :: k in u.keys)
          ensures k in Listed(visits, prefix, cursor)
        {
          assert k in v.keys && k in Beyond(v.keys, prefix, cursor);
        }
      }
    }
  }

  lemma JoinAscends(x: seq<string>, y: seq<string>)
    requires Ascends(x) && Ascends(y) && x != [] && forall k <- y :: Less(x[|x| - 1], k)
    ensures Ascends(x + y)
  {
    forall i, j | 0 <= i < j < |x + y| ensures Less((x + y)[i], (x + y)[j]) {
      if i < |x| <= j {
        assert y[j - |x|] in y;
        if i < |x| - 1 {
          LessTransitive(x[i], x[|x| - 1], y[j - |x|]);
        }
      }
    }
  }

  lemma AboveCursor(x: seq<string>, y: seq<string>, cursor: string)
    requires x != [] && (forall k <- y :: Less(x[|x| - 1], k)) && (cursor == "" || Less(cursor, x[|x| - 1]))
    ensures forall k <- y :: cursor == "" || Less(cursor, k)
  {
    forall k <- y ensures cursor == "" || Less(cursor, k) {
      if cursor != "" {
        LessTransitive(cursor, x[|x| - 1], k);
      }
    }
  }

  /** On a store that does not change, a finished listing is exactly the matching keys in order. */
  lemma FixedStoreListing(visits: seq<Visit>, keys: set<string>, prefix: string)
    requires "" !in keys && Finished(visits, prefix, "") && forall v <- visits :: v.keys == keys
    ensures Listed(visits, prefix, "") == Beyond(keys, prefix, "")
  {
    ListingIsComplete(visits, prefix, "");
    var list := Listed(visits, prefix, "");
    var wanted := set k | k in keys && HasPrefix(k, prefix) && ("" == "" || Less("", k));
    forall k ensures k in list <==> k in wanted {
      if k in list {
        var v :| v in visits && k in v.keys;
      }
    }
    SortedIs(wanted, list);
  }

  /** Such a listing needs no more requests than there are matching keys, plus one. */
  lemma {:induction false} ListingTerminates(visits: seq<Visit>, keys: set<string>, prefix: string, cursor: string)
    requires Proper(cursor, prefix) && "" !in keys && forall v <- visits :: v.keys == keys
    requires |visits| > |Beyond(keys, prefix, cursor)|
    ensures Finished(visits, prefix, cursor)
    decreases visits
  {
    var next := NextOf(visits[0], prefix, cursor);
    PageFacts(visits[0], prefix, cursor);
    if next != "" {
      BeyondShrinks(keys, prefix, cursor, next);
      ListingTerminates(visits[1..], keys, prefix, next);
    }
  }

  lemma BeyondShrinks(keys: set<string>, prefix: string, cursor: string, next: string)
    requires next in keys && HasPrefix(next, prefix) && next != "" && (cursor == "" || Less(cursor, next))
    ensures |Beyond(keys, prefix, next)| < |Beyond(keys, prefix, cursor)|
  {
    var a := set k | k in keys && HasPrefix(k, prefix) && (cursor == "" || Less(cursor, k));
    var b := set k | k in keys && HasPrefix(k, prefix) && (next == "" || Less(next, k));
    forall k <- b ensures k in a {
      if cursor != "" {
        LessTransitive(cursor, next, k);
      }
    }
    LessTotal(next, next);
    assert next in a && next !in b;
    SubsetSize(b, a, next);
  }

  lemma SubsetSize(b: set<string>, a: set<string>, x: string)
    requires b <= a && x in a && x !in b
    ensures |b| < |a|
  {
    assert b <= a - {x};
    SubsetLe(b, a - {x});
  }

  lemma {:induction false} SubsetLe(b: set<string>, a: set<string>)
    requires b <= a
    ensures |b| <= |a|
  {
    if b != {} {
      var x :| x in b;
      SubsetLe(b - {x}, a - {x});
    }
  }
}
