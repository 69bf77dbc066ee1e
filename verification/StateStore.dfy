/** The shared key-value store over a bbolt bucket, with its running counters and its logged writes. */
module StateStore {
  import opened Events
  import opened Names

  datatype Entry = Entry(key: string, value: string, lastModifiedBy: string, lastModifiedAt: int)

  type Bucket = map<string, Entry>

  /** KeyRequired is bbolt's own refusal of an empty key in Put. */
  datatype Outcome = Done | KeyTooLong | ValueTooBig | AtCapacity | KeyNotFound | KeyRequired

  /** encoded(e) is the length of the JSON of e, which bbolt stores. */
  datatype Limits = Limits(maxCapacity: int, maxKeyLen: int, maxValueLen: int, encoded: Entry -> nat)

  function EntrySize(lim: Limits, key: string, e: Entry): nat {
    |key| + lim.encoded(e)
  }

  /** The bytes of all keys and values. */
  function Total(lim: Limits, b: Bucket): nat
    decreases |b|
  {
    if b == map[] then 0
    else
      assert b.Keys != {} by { assert exists k :: k in b; }
      var k := Least(b.Keys);
      assert |b - {k}| < |b| by { assert (b - {k}).Keys == b.Keys - {k}; }
      EntrySize(lim, k, b[k]) + Total(lim, b - {k})
  }

  /** The total may be taken apart at any key. */
  lemma {:induction false} TotalWithout(lim: Limits, b: Bucket, key: string)
    requires key in b
    ensures Total(lim, b) == |key| + lim.encoded(b[key]) + Total(lim, b - {key})
    ensures |b| == |b - {key}| + 1
    decreases |b|
  {
    assert (b - {key}).Keys == b.Keys - {key};
    var k := Least(b.Keys);
    if k != key {
      assert (b - {k}).Keys == b.Keys - {k};
      TotalWithout(lim, b - {k}, key);
      TotalWithout(lim, b - {key}, k);
      assert b - {k} - {key} == b - {key} - {k};
    }
  }

  lemma TotalPut(lim: Limits, b: Bucket, key: string, e: Entry)
    ensures Total(lim, b[key := e])
         == |key| + lim.encoded(e) + (if key in b then Total(lim, b) - |key| - lim.encoded(b[key]) else Total(lim, b))
    ensures |b[key := e]| == if key in b then |b| else |b| + 1
  {
    var b' := b[key := e];
    TotalWithout(lim, b', key);
    if key in b {
      TotalWithout(lim, b, key);
      assert b' - {key} == b - {key};
    } else {
      assert b' - {key} == b;
    }
  }

  // ---- the operations as functions of the bucket ----

  /** The usage a write would lead to. */
  function UsageAfter(lim: Limits, b: Bucket, e: Entry): int {
    Total(lim, b) - (if e.key in b then EntrySize(lim, e.key, b[e.key]) else 0) + EntrySize(lim, e.key, e)
  }

  function SetOutcome(lim: Limits, b: Bucket, e: Entry): Outcome {
    if |e.key| > lim.maxKeyLen then KeyTooLong
    else if |e.value| > lim.maxValueLen then ValueTooBig
    else if UsageAfter(lim, b, e) > lim.maxCapacity then AtCapacity
    else if e.key == "" then KeyRequired
    else Done
  }

  /** Which of the outcomes a write has: it is refused for capacity exactly when the store would hold too
      many bytes with the entry in place of the old one. */
  lemma SetOutcomeIff(lim: Limits, b: Bucket, e: Entry)
    ensures var r, fits := SetOutcome(lim, b, e), |e.key| <= lim.maxKeyLen && |e.value| <= lim.maxValueLen;
            && (r.KeyTooLong? <==> |e.key| > lim.maxKeyLen)
            && (r.ValueTooBig? <==> |e.key| <= lim.maxKeyLen && |e.value| > lim.maxValueLen)
            && (r.AtCapacity? <==> fits && Total(lim, b[e.key := e]) > lim.maxCapacity)
            && (r.KeyRequired? <==> fits && Total(lim, b[e.key := e]) <= lim.maxCapacity && e.key == "")
            && (r.Done? <==> fits && Total(lim, b[e.key := e]) <= lim.maxCapacity && e.key != "")
            && (SetLogged(lim, b, e) <==> fits)
  {
    TotalPut(lim, b, e.key, e);
  }

  function DeleteOutcome(lim: Limits, b: Bucket, key: string): Outcome {
    if |key| > lim.maxKeyLen then KeyTooLong else if key !in b then KeyNotFound else Done
  }

  /** Whether the call gets as far as logging its event. */
  predicate SetLogged(lim: Limits, b: Bucket, e: Entry) {
    !SetOutcome(lim, b, e).KeyTooLong? && !SetOutcome(lim, b, e).ValueTooBig?
  }

  function WriteEvent(e: Entry): Payload {
    StateWritten(e.key, e.value, |e.value|, e.lastModifiedBy)
  }

  class Store {
    const lim: Limits
    var bucket: Bucket
    var usedBytes: int
    var keyCount: int
    /** The state events logged so far. */
    var logged: seq<Payload>

    /** The running counters are right. */
    ghost predicate Valid()
      reads this
    {
      usedBytes == Total(lim, bucket) && keyCount == |bucket| && "" !in bucket
    }

    /** NewStore: initialise the counters by a cursor scan of what is on disk. */
    constructor (lim: Limits, onDisk: Bucket)
      requires "" !in onDisk
      ensures Valid() && bucket == onDisk && this.lim == lim && logged == []
    {
      this.lim := lim;
      bucket := onDisk;
      logged := [];
      new;
      usedBytes, keyCount := Scan(lim, onDisk);
    }

    static method Scan(lim: Limits, b: Bucket) returns (used: int, count: int)
      ensures used == Total(lim, b) && count == |b|
    {
      var list := Sorted(b.Keys);
      used, count := 0, 0;
      ghost var rest := b;
      for i := 0 to |list|
        invariant used + Total(lim, rest) == Total(lim, b) && count + |rest| == |b|
        invariant Unscanned(b, rest, list, i)
      {
        count := count + 1;
        used := used + |list[i]| + lim.encoded(b[list[i]]);
        ScanStep(lim, b, rest, list, i);
        rest := rest - {list[i]};
      }
      assert rest == map[];
    }

    /** Set: the write is logged before the capacity is checked. */
    method Set(key: string, value: string, writtenBy: string, now: int) returns (outcome: Outcome)
      requires Valid()
      modifies this
      ensures Valid()
      ensures var e := Entry(key, value, writtenBy, now);
              && outcome == SetOutcome(lim, old(bucket), e)
              && bucket == (if outcome.Done? then old(bucket)[key := e] else old(bucket))
              && logged == (if SetLogged(lim, old(bucket), e) then old(logged) + [WriteEvent(e)] else old(logged))
      ensures var e, fits := Entry(key, value, writtenBy, now), |key| <= lim.maxKeyLen && |value| <= lim.maxValueLen;
              && (outcome.KeyTooLong? <==> |key| > lim.maxKeyLen)
              && (outcome.ValueTooBig? <==> |key| <= lim.maxKeyLen && |value| > lim.maxValueLen)
              && (outcome.AtCapacity? <==> fits && Total(lim, old(bucket)[key := e]) > lim.maxCapacity)
              && (outcome.KeyRequired? <==> fits && Total(lim, old(bucket)[key := e]) <= lim.maxCapacity && key == "")
              && logged == old(logged) + if fits then [StateWritten(key, value, |value|, writtenBy)] else []
      ensures usedBytes <= old(usedBytes) || usedBytes <= lim.maxCapacity
    {
      SetOutcomeIff(lim, bucket, Entry(key, value, writtenBy, now));
      if |key| > lim.maxKeyLen {
        return KeyTooLong;
      }
      if |value| > lim.maxValueLen {
        return ValueTooBig;
      }
      var entry := Entry(key, value, writtenBy, now);
      var newEntrySize := |key| + lim.encoded(entry);
      logged := logged + [StateWritten(key, value, |value|, writtenBy)];
      var existing := key in bucket;
      var oldSize := if existing then |key| + lim.encoded(bucket[key]) else 0;
      var currentUsed := usedBytes;
      if !existing && currentUsed + newEntrySize > lim.maxCapacity {
        return AtCapacity;
      }
      if existing && currentUsed - oldSize + newEntrySize > lim.maxCapacity {
        return AtCapacity;
      }
      if key == "" {
        return KeyRequired;
      }
      Put(entry);
      outcome := Done;
    }

    /** The write and the counter update of one transaction. */
    method Put(e: Entry)
      requires Valid() && e.key != ""
      modifies this`bucket, this`usedBytes, this`keyCount
      ensures Valid() && bucket == old(bucket)[e.key := e] && usedBytes == UsageAfter(lim, old(bucket), e)
    {
      var newSize := |e.key| + lim.encoded(e);
      TotalPut(lim, bucket, e.key, e);
      if e.key !in bucket {
        keyCount := keyCount + 1;
        usedBytes := usedBytes + newSize;
      } else {
        var oldSize := |e.key| + lim.encoded(bucket[e.key]);
        usedBytes := usedBytes + newSize - oldSize;
      }
      bucket := bucket[e.key := e];
    }

    method Delete(key: string, deletedBy: string) returns (outcome: Outcome)
      requires Valid()
      modifies this
      ensures Valid()
      ensures outcome == DeleteOutcome(lim, old(bucket), key)
      ensures outcome.KeyTooLong? <==> |key| > lim.maxKeyLen
      ensures outcome.KeyNotFound? <==> |key| <= lim.maxKeyLen && key !in old(bucket)
      ensures outcome.Done? <==> |key| <= lim.maxKeyLen && key in old(bucket)
      ensures bucket == if outcome.Done? then old(bucket) - {key} else old(bucket)
      ensures logged == if outcome.Done? then old(logged) + [StateDeleted(key, deletedBy)] else old(logged)
      ensures usedBytes <= old(usedBytes)
    {
      if |key| > lim.maxKeyLen {
        return KeyTooLong;
      }
      if key !in bucket {
        return KeyNotFound;
      }
      logged := logged + [StateDeleted(key, deletedBy)];
      Remove(key);
      outcome := Done;
    }

    method Remove(key: string)
      requires Valid() && key in bucket
      modifies this`bucket, this`usedBytes, this`keyCount
      ensures Valid() && bucket == old(bucket) - {key} && usedBytes <= old(usedBytes)
    {
      TotalWithout(lim, bucket, key);
      var oldSize := |key| + lim.encoded(bucket[key]);
      bucket := bucket - {key};
      usedBytes := usedBytes - oldSize;
      keyCount := keyCount - 1;
    }

    /** Recovery writes are not logged and know no capacity. */
    method ApplyStateWrite(key: string, value: string, writtenBy: string, at: int) returns (outcome: Outcome)
      requires Valid()
      modifies this`bucket, this`usedBytes, this`keyCount
      ensures Valid()
      ensures outcome == if key == "" then KeyRequired else Done
      ensures bucket == if outcome.Done? then old(bucket)[key := Entry(key, value, writtenBy, at)] else old(bucket)
    {
      if key == "" {
        return KeyRequired;
      }
      Put(Entry(key, value, writtenBy, at));
      outcome := Done;
    }

    method ApplyStateDelete(key: string)
      requires Valid()
      modifies this`bucket, this`usedBytes, this`keyCount
      ensures Valid() && bucket == old(bucket) - {key}
    {
      if key !in bucket {
        assert bucket - {key} == bucket;
        return;
      }
      Remove(key);
    }
  }

  /** In an ascending list, the keys after position i are those from i on without the i-th. */
  lemma HeadIsNew(list: seq<string>, i: nat)
    requires Ascends(list) && i < |list|
    ensures list[i] in list[i..] && forall k :: k in list[i + 1..] <==> k in list[i..] && k != list[i]
  {
    assert list[i..] == [list[i]] + list[i + 1..];
    forall j | i < j < |list| ensures list[j] != list[i] {
      LessTotal(list[i], list[j]);
    }
  }

  /** What the scan has yet to visit at position i. */
  ghost predicate Unscanned(b: Bucket, rest: Bucket, list: seq<string>, i: nat)
    requires i <= |list|
  {
    (forall k :: k in rest <==> k in list[i..]) && forall k <- rest :: k in b && rest[k] == b[k]
  }

  lemma ScanStep(lim: Limits, b: Bucket, rest: Bucket, list: seq<string>, i: nat)
    requires Ascends(list) && i < |list| && Unscanned(b, rest, list, i)
    ensures list[i] in rest && rest[list[i]] == b[list[i]] && Unscanned(b, rest - {list[i]}, list, i + 1)
    ensures Total(lim, rest) == |list[i]| + lim.encoded(b[list[i]]) + Total(lim, rest - {list[i]})
    ensures |rest| == |rest - {list[i]}| + 1
  {
    HeadIsNew(list, i);
    assert list[i] in rest;
    forall k ensures k in rest - {list[i]} <==> k in list[i + 1..] {
      assert k in rest <==> k in list[i..];
    }
    TotalWithout(lim, rest, list[i]);
  }

  // ---- runs ----

  datatype Op = DoSet(e: Entry) | DoDelete(key: string, deletedBy: string)

  datatype State = State(bucket: Bucket, logged: seq<Payload>)

  /** The effect of a call of Set or Delete, as the methods state it. */
  function After(lim: Limits, s: State, op: Op): State {
    match op
    case DoSet(e) =>
      State(if SetOutcome(lim, s.bucket, e).Done? then s.bucket[e.key := e] else s.bucket,
            if SetLogged(lim, s.bucket, e) then s.logged + [WriteEvent(e)] else s.logged)
    case DoDelete(key, deletedBy) =>
      if DeleteOutcome(lim, s.bucket, key).Done?
      then State(s.bucket - {key}, s.logged + [StateDeleted(key, deletedBy)]) else s
  }

  function RunFrom(lim: Limits, s: State, ops: seq<Op>): State {
    if ops == [] then s else After(lim, RunFrom(lim, s, ops[..|ops| - 1]), ops[|ops| - 1])
  }

  /** Over any run of Set and Delete, usage never exceeds the larger of its starting value and the capacity. */
  lemma {:induction false} CapacityBound(lim: Limits, s: State, ops: seq<Op>)
    ensures var used := Total(lim, RunFrom(lim, s, ops).bucket); used <= Total(lim, s.bucket) || used <= lim.maxCapacity
  {
    if ops != [] {
      var before, op := RunFrom(lim, s, ops[..|ops| - 1]), ops[|ops| - 1];
      CapacityBound(lim, s, ops[..|ops| - 1]);
      match op
      case DoSet(e) => TotalPut(lim, before.bucket, e.key, e);
      case DoDelete(key, _) =>
        if key in before.bucket {
          TotalWithout(lim, before.bucket, key);
        }
    }
  }

  // ---- the log as a record of the store ----

  /** Value and writer of each key, as a reader of the store sees them. */
  function Visible(b: Bucket): map<string, (string, string)> {
    map k | k in b :: (b[k].value, b[k].lastModifiedBy)
  }

  /** One logged event applied by ApplyStateWrite or ApplyStateDelete. */
  function Replay1(m: map<string, (string, string)>, p: Payload): map<string, (string, string)> {
    match p
    case StateWritten(key, value, _, writtenBy) => if key == "" then m else m[key := (value, writtenBy)]
    case StateDeleted(key, _) => m - {key}
    case _ => m
  }

  function Replay(logged: seq<Payload>): map<string, (string, string)> {
    if logged == [] then map[] else Replay1(Replay(logged[..|logged| - 1]), logged[|logged| - 1])
  }

  ghost predicate LogAgrees(s: State) {
    Replay(s.logged) == Visible(s.bucket)
  }

  lemma ReplayNext(logged: seq<Payload>, p: Payload)
    ensures Replay(logged + [p]) == Replay1(Replay(logged), p)
  {
    assert (logged + [p])[..|logged|] == logged;
  }

  /** The write was refused for capacity after it had been logged, and would have changed what readers see. */
  predicate LoggedButRefused(lim: Limits, b: Bucket, e: Entry) {
    && e.key != ""
    && SetOutcome(lim, b, e).AtCapacity?
    && !(e.key in b && b[e.key].value == e.value && b[e.key].lastModifiedBy == e.lastModifiedBy)
  }

  lemma VisiblePut(b: Bucket, e: Entry)
    ensures Visible(b[e.key := e]) == Visible(b)[e.key := (e.value, e.lastModifiedBy)]
  {
  }

  lemma VisibleDelete(b: Bucket, key: string)
    ensures Visible(b - {key}) == Visible(b) - {key}
  {
  }

  lemma PutIsNoChange(v: map<string, (string, string)>, key: string, shown: (string, string))
    ensures v[key := shown] == v <==> key in v && v[key] == shown
  {
    assert v[key := shown][key] == shown;
  }

  lemma SetAgreementIff(lim: Limits, s: State, e: Entry)
    requires LogAgrees(s)
    ensures LogAgrees(After(lim, s, DoSet(e))) <==> !LoggedButRefused(lim, s.bucket, e)
  {
    match SetOutcome(lim, s.bucket, e)
    case Done =>
      ReplayNext(s.logged, WriteEvent(e));
      VisiblePut(s.bucket, e);
    case AtCapacity =>
      ReplayNext(s.logged, WriteEvent(e));
      PutIsNoChange(Visible(s.bucket), e.key, (e.value, e.lastModifiedBy));
    case KeyRequired =>
      ReplayNext(s.logged, WriteEvent(e));
    case _ =>
  }

  lemma DeleteAgreement(lim: Limits, s: State, key: string, deletedBy: string)
    requires LogAgrees(s)
    ensures LogAgrees(After(lim, s, DoDelete(key, deletedBy)))
  {
    ReplayNext(s.logged, StateDeleted(key, deletedBy));
    VisibleDelete(s.bucket, key);
  }

  /** A call keeps log and store in agreement exactly when it is not such a write. */
  lemma AgreementIff(lim: Limits, s: State, op: Op)
    requires LogAgrees(s)
    ensures LogAgrees(After(lim, s, op)) <==> !(op.DoSet? && LoggedButRefused(lim, s.bucket, op.e))
  {
    match op
    case DoSet(e) => SetAgreementIff(lim, s, e);
    case DoDelete(key, deletedBy) => DeleteAgreement(lim, s, key, deletedBy);
  }

  ghost predicate AgreesThroughout(lim: Limits, ops: seq<Op>) {
    LogAgrees(RunFrom(lim, State(map[], []), ops)) && (ops != [] ==> AgreesThroughout(lim, ops[..|ops| - 1]))
  }

  /** No write of the run is logged, refused for capacity, and visible if it had been made. */
  predicate NoneRefused(lim: Limits, ops: seq<Op>) {
    ops == [] ||
    (NoneRefused(lim, ops[..|ops| - 1]) &&
     !(ops[|ops| - 1].DoSet?
       && LoggedButRefused(lim, RunFrom(lim, State(map[], []), ops[..|ops| - 1]).bucket, ops[|ops| - 1].e)))
  }

  /** Folding the logged events gives the live store throughout a run from an empty store, if and only if
      the run has no such write. */
  lemma {:induction false} LogRebuildsStore(lim: Limits, ops: seq<Op>)
    ensures AgreesThroughout(lim, ops) <==> NoneRefused(lim, ops)
  {
    if ops != [] {
      var front := ops[..|ops| - 1];
      LogRebuildsStore(lim, front);
      if LogAgrees(RunFrom(lim, State(map[], []), front)) {
        AgreementIff(lim, RunFrom(lim, State(map[], []), front), ops[|ops| - 1]);
      }
    }
  }

  /** A store with no room: the write is refused, the log has it, and folding the log shows it. */
  lemma RefusedWriteIsLogged(e: Entry, encoded: Entry -> nat)
    requires e.key != ""
    ensures var lim := Limits(0, |e.key|, |e.value|, encoded);
            var s := After(lim, State(map[], []), DoSet(e));
            && SetOutcome(lim, map[], e).AtCapacity? && s.bucket == map[] && s.logged == [WriteEvent(e)]
            && !LogAgrees(s)
  {
    ReplayNext([], WriteEvent(e));
    assert [] + [WriteEvent(e)] == [WriteEvent(e)];
    assert e.key in Replay([WriteEvent(e)]);
  }

  /** The fold is what ApplyStateWrite and ApplyStateDelete do: applied to an empty store in log order,
      they rebuild it.  `at` gives the times of the events. */
  method Rebuild(lim: Limits, logged: seq<Payload>, at: seq<int>) returns (store: Store)
    requires |at| == |logged|
    ensures fresh(store) && store.Valid() && Visible(store.bucket) == Replay(logged)
  {
    store := new Store(lim, map[]);
    for i := 0 to |logged|
      invariant fresh(store) && store.Valid() && Visible(store.bucket) == Replay(logged[..i])
    {
      ReplayNext(logged[..i], logged[i]);
      assert logged[..i + 1] == logged[..i] + [logged[i]];
      ApplyLogged(store, logged[i], at[i]);
    }
    assert logged[..|logged|] == logged;
  }

  method ApplyLogged(store: Store, p: Payload, at: int)
    requires store.Valid()
    modifies store
    ensures store.Valid() && Visible(store.bucket) == Replay1(Visible(old(store.bucket)), p)
  {
    match p {
      case StateWritten(key, value, _, writtenBy) =>
        VisiblePut(store.bucket, Entry(key, value, writtenBy, at));
        var _ := store.ApplyStateWrite(key, value, writtenBy, at);
      case StateDeleted(key, _) =>
        VisibleDelete(store.bucket, key);
        store.ApplyStateDelete(key);
      case _ =>
    }
  }
}
