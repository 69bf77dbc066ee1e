/** The append-only event log: one current file, rotated files, and a sequence counter that is
    recovered by scanning.  A directory maps file names to the events of their lines. */
module EventLogs {
  import opened Events
  import opened Names

  type Directory = map<string, seq<Event>>

  const CURRENT_NAME := "events.jsonl"

  /** The %d rendering of a clock reading. */
  function Decimal(n: nat): (r: string)
    ensures |r| >= 1 && (|r| == 1 <==> n < 10)
  {
    if n < 10 then [('0' as int + n) as char] else Decimal(n / 10) + [('0' as int + n % 10) as char]
  }

  function RotatedName(nanos: nat): string {
    "events_" + Decimal(nanos) + ".jsonl"
  }

  function RotatedNames(times: seq<nat>): (names: seq<string>)
    ensures |names| == |times| && forall i :: 0 <= i < |times| ==> names[i] == RotatedName(times[i])
  {
    seq(|times|, i requires 0 <= i < |times| => RotatedName(times[i]))
  }

  predicate IsLogName(name: string) {
    |name| >= 6 && name[|name| - 6..] == ".jsonl"
  }

  function LogNames(dir: Directory): set<string> {
    set n | n in dir && IsLogName(n)
  }

  /** The log files in the order sort.Strings gives them. */
  function Listing(dir: Directory): (names: seq<string>)
    ensures forall n <- names :: n in dir
  {
    Sorted(LogNames(dir))
  }

  function Contents(dir: Directory, names: seq<string>): seq<Event>
    requires forall n <- names :: n in dir
  {
    if names == [] then [] else dir[names[0]] + Contents(dir, names[1..])
  }

  /** Every event of the directory, in the order a replay or a scan reads them. */
  function AllEvents(dir: Directory): seq<Event> {
    Contents(dir, Listing(dir))
  }

  function WithCurrent(dir: Directory): Directory {
    if CURRENT_NAME in dir then dir else dir[CURRENT_NAME := []]
  }

  function Size(lineLen: Event -> nat, es: seq<Event>): nat {
    if es == [] then 0 else Size(lineLen, Front(es)) + lineLen(Last(es))
  }

  /** UnixNano readings of the present: 19 digits, and a clock that moves on between rotations. */
  predicate Clock(times: seq<nat>) {
    (forall t <- times :: |Decimal(t)| == 19) && forall i, j :: 0 <= i < j < |times| ==> times[i] < times[j]
  }

  /** The log files of dir are the current one and one per rotation. */
  predicate Laid(dir: Directory, times: seq<nat>) {
    && Clock(times)
    && CURRENT_NAME in dir
    && (forall n <- RotatedNames(times) :: n in dir)
    && forall n <- LogNames(dir) :: n == CURRENT_NAME || n in RotatedNames(times)
  }

  /** The events of rotated files, oldest rotation first. */
  function Older(dir: Directory, times: seq<nat>): seq<Event>
    requires Laid(dir, times)
  {
    Contents(dir, RotatedNames(times))
  }

  /** Every event of the log in append order. */
  function HistoryOf(dir: Directory, times: seq<nat>): seq<Event>
    requires Laid(dir, times)
  {
    Older(dir, times) + dir[CURRENT_NAME]
  }

  /** Numbered as Append numbers: positive and ascending. */
  predicate Numbered(es: seq<Event>) {
    Ascending(es) && forall e <- es :: e.sequence > 0
  }

  // ---- names ----

  /** The number a string of decimal digits stands for. */
  function Value(s: string): int {
    if s == [] then 0 else 10 * Value(s[..|s| - 1]) + (s[|s| - 1] as int - '0' as int)
  }

  /** The rendering is in decimal digits, without a leading zero, and reads back as the number. */
  lemma {:induction false} DecimalValue(n: nat)
    ensures Value(Decimal(n)) == n && forall c <- Decimal(n) :: '0' <= c <= '9'
    ensures n > 0 ==> Decimal(n)[0] != '0'
  {
    if n >= 10 {
      DecimalValue(n / 10);
      assert Decimal(n)[..|Decimal(n)| - 1] == Decimal(n / 10);
    } else {
      assert Decimal(n)[..0] == [];
    }
  }

  /** Log files are the names that end in .jsonl. */
  lemma LogNameIff(name: string)
    ensures IsLogName(name) <==> exists stem :: name == stem + ".jsonl"
  {
    if IsLogName(name) {
      assert name == name[..|name| - 6] + ".jsonl";
    }
    if stem :| name == stem + ".jsonl" {
      assert name[|name| - 6..] == ".jsonl";
    }
  }

  /** The size of a file is the sum of its lines' lengths. */
  lemma {:induction false} SizeConcat(lineLen: Event -> nat, x: seq<Event>, y: seq<Event>, e: Event)
    ensures Size(lineLen, x + y) == Size(lineLen, x) + Size(lineLen, y)
    ensures Size(lineLen, [e]) == lineLen(e)
  {
    assert Front([e]) == [] && Last([e]) == e;
    if y == [] {
      assert x + y == x;
    } else {
      assert Front(x + y) == x + Front(y) && Last(x + y) == Last(y);
      SizeConcat(lineLen, x, Front(y), e);
    }
  }

  lemma {:induction false} LessAppend(x: string, y: string, u: string, v: string)
    requires |x| == |y| && Less(x, y)
    ensures Less(x + u, y + v)
  {
    assert (x + u)[1..] == x[1..] + u && (y + v)[1..] == y[1..] + v;
    if x[0] == y[0] {
      LessAppend(x[1..], y[1..], u, v);
    }
  }

  lemma {:induction false} LessSamePrefix(p: string, x: string, y: string)
    requires Less(x, y)
    ensures Less(p + x, p + y)
  {
    if p == [] {
      assert p + x == x && p + y == y;
    } else {
      assert (p + x)[1..] == p[1..] + x && (p + y)[1..] == p[1..] + y;
      LessSamePrefix(p[1..], x, y);
    }
  }

  /** Among renderings of one length, string order is number order. */
  lemma {:induction false} DecimalLess(a: nat, b: nat)
    requires a < b && |Decimal(a)| == |Decimal(b)|
    ensures Less(Decimal(a), Decimal(b))
  {
    if a >= 10 {
      assert b >= 10;
      if a / 10 < b / 10 {
        DecimalLess(a / 10, b / 10);
        LessAppend(Decimal(a / 10), Decimal(b / 10), [('0' as int + a % 10) as char], [('0' as int + b % 10) as char]);
      } else {
        LessSamePrefix(Decimal(a / 10), [('0' as int + a % 10) as char], [('0' as int + b % 10) as char]);
      }
    }
  }

  lemma RotatedLess(a: nat, b: nat)
    requires a < b && |Decimal(a)| == |Decimal(b)|
    ensures Less(RotatedName(a), RotatedName(b))
  {
    DecimalLess(a, b);
    LessAppend(Decimal(a), Decimal(b), ".jsonl", ".jsonl");
    LessSamePrefix("events_", Decimal(a) + ".jsonl", Decimal(b) + ".jsonl");
    assert RotatedName(a) == "events_" + (Decimal(a) + ".jsonl");
    assert RotatedName(b) == "events_" + (Decimal(b) + ".jsonl");
  }

  /** The newest file sorts before every rotated one. */
  lemma CurrentFirst(nanos: nat)
    ensures Less(CURRENT_NAME, RotatedName(nanos)) && IsLogName(CURRENT_NAME) && IsLogName(RotatedName(nanos))
  {
    LessSamePrefix("events", ".jsonl", "_" + (Decimal(nanos) + ".jsonl"));
    assert CURRENT_NAME == "events" + ".jsonl";
    assert RotatedName(nanos) == "events" + ("_" + (Decimal(nanos) + ".jsonl"));
    assert RotatedName(nanos)[|RotatedName(nanos)| - 6..] == ".jsonl";
  }

  /** The listing of a log directory: events.jsonl, then the rotated files from oldest to newest. */
  lemma ListingOrder(dir: Directory, times: seq<nat>)
    requires Laid(dir, times)
    ensures Listing(dir) == [CURRENT_NAME] + RotatedNames(times)
    ensures AllEvents(dir) == dir[CURRENT_NAME] + Older(dir, times)
  {
    var list := [CURRENT_NAME] + RotatedNames(times);
    ListAscends(dir, times);
    ListIsLaid(dir, times);
    SortedIs(LogNames(dir), list);
    assert list[1..] == RotatedNames(times);
  }

  lemma ListAscends(dir: Directory, times: seq<nat>)
    requires Laid(dir, times)
    ensures Ascends([CURRENT_NAME] + RotatedNames(times))
  {
    var list := [CURRENT_NAME] + RotatedNames(times);
    forall i, j | 0 <= i < j < |list| ensures Less(list[i], list[j]) {
      NamesAscend(times, i, j);
    }
  }

  lemma NamesAscend(times: seq<nat>, i: nat, j: nat)
    requires Clock(times) && i < j <= |times|
    ensures Less(([CURRENT_NAME] + RotatedNames(times))[i], ([CURRENT_NAME] + RotatedNames(times))[j])
  {
    if i == 0 {
      CurrentFirst(times[j - 1]);
    } else {
      RotatedLess(times[i - 1], times[j - 1]);
    }
  }

  lemma ListIsLaid(dir: Directory, times: seq<nat>)
    requires Laid(dir, times)
    ensures forall n :: n in [CURRENT_NAME] + RotatedNames(times) <==> n in LogNames(dir)
  {
    var list := [CURRENT_NAME] + RotatedNames(times);
    forall n ensures n in list <==> n in LogNames(dir) {
      if n in list {
        var i :| 0 <= i < |list| && list[i] == n;
        CurrentFirst(if i == 0 then 0 else times[i - 1]);
      }
    }
  }

  lemma {:induction false} ContentsConcat(dir: Directory, x: seq<string>, y: seq<string>)
    requires forall n <- x + y :: n in dir
    ensures (forall n <- x :: n in dir) && (forall n <- y :: n in dir)
    ensures Contents(dir, x + y) == Contents(dir, x) + Contents(dir, y)
  {
    assert forall i :: 0 <= i < |x| ==> x[i] == (x + y)[i];
    assert forall i :: 0 <= i < |y| ==> y[i] == (x + y)[|x| + i];
    if x == [] {
      assert x + y == y;
    } else {
      assert (x + y)[1..] == x[1..] + y;
      ContentsConcat(dir, x[1..], y);
    }
  }

  lemma ContentsNext(dir: Directory, names: seq<string>, i: nat)
    requires i < |names| && forall n <- names :: n in dir
    ensures (forall n <- names[..i] :: n in dir) && forall n <- names[..i + 1] :: n in dir
    ensures Contents(dir, names[..i + 1]) == Contents(dir, names[..i]) + dir[names[i]]
  {
    assert names[..i + 1] == names[..i] + [names[i]];
    ContentsConcat(dir, names[..i], [names[i]]);
    assert Contents(dir, [names[i]]) == dir[names[i]] + [];
  }

  lemma {:induction false} ContentsSame(dir: Directory, dir': Directory, names: seq<string>)
    requires forall n <- names :: n in dir && n in dir' && dir[n] == dir'[n]
    ensures Contents(dir, names) == Contents(dir', names)
  {
    if names != [] {
      ContentsSame(dir, dir', names[1..]);
    }
  }

  lemma {:induction false} ContentsMember(dir: Directory, names: seq<string>, e: Event)
    requires forall n <- names :: n in dir
    ensures e in Contents(dir, names) <==> exists n <- names :: e in dir[n]
  {
    if names != [] {
      ContentsMember(dir, names[1..], e);
      assert names == [names[0]] + names[1..];
    }
  }

  /** An append extends the history by the event. */
  lemma AppendHistory(dir: Directory, times: seq<nat>, e: Event)
    requires Laid(dir, times)
    ensures Laid(dir[CURRENT_NAME := dir[CURRENT_NAME] + [e]], times)
    ensures HistoryOf(dir[CURRENT_NAME := dir[CURRENT_NAME] + [e]], times) == HistoryOf(dir, times) + [e]
  {
    var dir' := dir[CURRENT_NAME := dir[CURRENT_NAME] + [e]];
    assert LogNames(dir') == LogNames(dir);
    forall n <- RotatedNames(times) ensures n in dir && dir'[n] == dir[n] {
      var i :| 0 <= i < |times| && n == RotatedName(times[i]);
      CurrentFirst(times[i]);
      LessTotal(CURRENT_NAME, n);
    }
    ContentsSame(dir, dir', RotatedNames(times));
    assert dir'[CURRENT_NAME] == dir[CURRENT_NAME] + [e];
    assert Older(dir, times) + (dir[CURRENT_NAME] + [e]) == Older(dir, times) + dir[CURRENT_NAME] + [e];
  }

  /** rotate: rename the current file, then open an empty one. */
  function Rotated(dir: Directory, name: string): Directory
    requires CURRENT_NAME in dir
  {
    dir[name := dir[CURRENT_NAME]][CURRENT_NAME := []]
  }

  lemma NewNameIsFresh(dir: Directory, times: seq<nat>, nanos: nat)
    requires Laid(dir, times) && Clock(times + [nanos])
    ensures RotatedName(nanos) !in LogNames(dir) && RotatedName(nanos) != CURRENT_NAME
  {
    CurrentFirst(nanos);
    LessTotal(CURRENT_NAME, RotatedName(nanos));
    if RotatedName(nanos) in RotatedNames(times) {
      var i :| 0 <= i < |times| && RotatedName(times[i]) == RotatedName(nanos);
      assert (times + [nanos])[i] < (times + [nanos])[|times|];
      assert times[i] in times + [nanos] && nanos in times + [nanos];
      RotatedLess(times[i], nanos);
      LessTotal(RotatedName(nanos), RotatedName(nanos));
    }
  }

  /** A rotation changes neither the events nor their order. */
  lemma RotateHistory(dir: Directory, times: seq<nat>, nanos: nat)
    requires Laid(dir, times) && Clock(times + [nanos])
    ensures Laid(Rotated(dir, RotatedName(nanos)), times + [nanos])
    ensures HistoryOf(Rotated(dir, RotatedName(nanos)), times + [nanos]) == HistoryOf(dir, times)
    ensures Rotated(dir, RotatedName(nanos))[CURRENT_NAME] == []
  {
    var name := RotatedName(nanos);
    var dir' := Rotated(dir, name);
    NewNameIsFresh(dir, times, nanos);
    CurrentFirst(nanos);
    var names := RotatedNames(times);
    assert RotatedNames(times + [nanos]) == names + [name];
    forall n <- names ensures n in dir && n in dir' && dir'[n] == dir[n] {
      var i :| 0 <= i < |times| && n == RotatedName(times[i]);
      CurrentFirst(times[i]);
      LessTotal(CURRENT_NAME, n);
    }
    assert LogNames(dir') == LogNames(dir) + {name};
    assert forall n <- names + [name] :: n in dir';
    ContentsSame(dir, dir', names);
    ContentsConcat(dir', names, [name]);
    assert Contents(dir', [name]) == dir[CURRENT_NAME];
  }

  class EventLog {
    var files: Directory
    var lastSeq: int
    var fileSize: int
    const maxFileSize: int
    const lineLen: Event -> nat
    ghost var rotations: seq<nat>

    ghost predicate Valid()
      reads this
    {
      && Laid(files, rotations)
      && fileSize == Size(lineLen, files[CURRENT_NAME])
      && Numbered(History())
      && lastSeq == (if History() == [] then 0 else Last(History()).sequence)
    }

    ghost function History(): seq<Event>
      requires Laid(files, rotations)
      reads this
    {
      HistoryOf(files, rotations)
    }

    /** How many events of the history are in rotated files. */
    ghost function Cut(): (n: nat)
      requires Laid(files, rotations)
      reads this
      ensures n <= |History()|
    {
      |Older(files, rotations)|
    }

    /** NewEventLog: scan every log file for the highest sequence number, then open the current file.
        The number found does not depend on the order of the listing. */
    constructor (dir: Directory, maxFileSize: int, lineLen: Event -> nat, ghost rotations: seq<nat>)
      ensures files == WithCurrent(dir) && this.maxFileSize == maxFileSize && this.lineLen == lineLen
      ensures lastSeq >= 0 && forall n <- LogNames(dir) :: forall e <- dir[n] :: e.sequence <= lastSeq
      ensures lastSeq == 0 || exists n <- LogNames(dir) :: exists e <- dir[n] :: e.sequence == lastSeq
      ensures this.rotations == rotations
      ensures Laid(WithCurrent(dir), rotations) && Numbered(HistoryOf(WithCurrent(dir), rotations)) ==> Valid()
    {
      this.maxFileSize := maxFileSize;
      this.lineLen := lineLen;
      this.rotations := rotations;
      files := dir;
      new;
      lastSeq := ScanExistingLogs(dir);
      files := WithCurrent(dir);
      fileSize := Size(lineLen, files[CURRENT_NAME]);
      if Laid(files, rotations) {
        ScannedMaximum(files, dir, rotations, lastSeq);
      }
    }

    static method ScanFileForSeq(events: seq<Event>, start: int) returns (highest: int)
      ensures highest >= start && forall e <- events :: e.sequence <= highest
      ensures highest == start || exists e <- events :: e.sequence == highest
    {
      highest := start;
      for i := 0 to |events|
        invariant highest >= start && forall e <- events[..i] :: e.sequence <= highest
        invariant highest == start || exists e <- events[..i] :: e.sequence == highest
      {
        assert events[..i + 1] == events[..i] + [events[i]];
        if events[i].sequence > highest {
          highest := events[i].sequence;
          assert events[i] in events[..i + 1];
        }
      }
      assert events[..|events|] == events;
    }

    static method ScanExistingLogs(dir: Directory) returns (highest: int)
      ensures highest >= 0 && forall n <- LogNames(dir) :: forall e <- dir[n] :: e.sequence <= highest
      ensures highest == 0 || exists n <- LogNames(dir) :: exists e <- dir[n] :: e.sequence == highest
    {
      var names := Listing(dir);
      highest := 0;
      for i := 0 to |names|
        invariant highest >= 0 && forall n <- names[..i] :: forall e <- dir[n] :: e.sequence <= highest
        invariant highest == 0 || exists n <- LogNames(dir) :: exists e <- dir[n] :: e.sequence == highest
      {
        assert names[i] in names && names[i] in LogNames(dir);
        assert names[..i + 1] == names[..i] + [names[i]];
        highest := ScanFileForSeq(dir[names[i]], highest);
      }
      assert names[..|names|] == names;
    }

    /** Append: number the event, write its line, rotate when the file has grown past the limit.
        `nanos` is the clock reading a rotation would name the old file by. */
    method Append(timestamp: int, agent: string, data: Payload, nanos: nat) returns (e: Event)
      requires Valid() && Clock(rotations + [nanos])
      modifies this
      ensures Valid()
      ensures e == Event(old(lastSeq) + 1, timestamp, agent, data) && lastSeq == e.sequence
      ensures History() == old(History()) + [e]
      ensures var full := maxFileSize > 0 && old(fileSize) + lineLen(e) >= maxFileSize;
              && rotations == (if full then old(rotations) + [nanos] else old(rotations))
              && files[CURRENT_NAME] == (if full then [] else old(files[CURRENT_NAME]) + [e])
              && fileSize == (if full then 0 else old(fileSize) + lineLen(e))
      ensures Cut() == if rotations == old(rotations) then old(Cut()) else |History()|
    {
      lastSeq := lastSeq + 1;
      e := Event(lastSeq, timestamp, agent, data);
      AppendHistory(files, rotations, e);
      AppendNumbered(History(), e);
      var current := files[CURRENT_NAME] + [e];
      assert Front(current) == files[CURRENT_NAME] && Last(current) == e;
      files := files[CURRENT_NAME := current];
      fileSize := fileSize + lineLen(e);
      assert Last(History()) == e;
      if maxFileSize > 0 && fileSize >= maxFileSize {
        Rotate(nanos);
      }
    }

    method Rotate(nanos: nat)
      requires Valid() && Clock(rotations + [nanos])
      modifies this
      ensures Valid() && History() == old(History()) && lastSeq == old(lastSeq)
      ensures rotations == old(rotations) + [nanos] && files == Rotated(old(files), RotatedName(nanos))
      ensures files[CURRENT_NAME] == []
    {
      RotateHistory(files, rotations, nanos);
      files := Rotated(files, RotatedName(nanos));
      rotations := rotations + [nanos];
      fileSize := 0;
    }
  }

  lemma AppendNumbered(es: seq<Event>, e: Event)
    requires Numbered(es) && e.sequence == 1 + (if es == [] then 0 else Last(es).sequence)
    ensures Numbered(es + [e])
  {
    if es != [] {
      assert Last(es) in es;
    }
  }

  lemma AscendingLast(es: seq<Event>, i: nat)
    requires Ascending(es) && i < |es|
    ensures es[i].sequence <= Last(es).sequence
  {
  }

  /** A restart of the log: the files and the history are as they were, and numbering goes on. */
  method Reopen(log: EventLog) returns (reopened: EventLog)
    requires log.Valid()
    ensures fresh(reopened) && reopened.Valid()
    ensures reopened.files == log.files && reopened.rotations == log.rotations
    ensures reopened.History() == log.History() && reopened.lastSeq == log.lastSeq
    ensures reopened.maxFileSize == log.maxFileSize && reopened.lineLen == log.lineLen
  {
    reopened := new EventLog(log.files, log.maxFileSize, log.lineLen, log.rotations);
  }

  /** An event of a well-numbered log is in exactly one of its files. */
  lemma ExactlyOneFile(dir: Directory, times: seq<nat>, e: Event)
    requires Laid(dir, times) && Ascending(HistoryOf(dir, times)) && e in HistoryOf(dir, times)
    ensures exists n <- LogNames(dir) :: e in dir[n]
    ensures forall n, n' :: n in LogNames(dir) && n' in LogNames(dir) && e in dir[n] && e in dir[n'] ==> n == n'
  {
    HistoryMember(dir, times, e);
    var names := RotatedNames(times) + [CURRENT_NAME];
    ContentsConcat(dir, RotatedNames(times), [CURRENT_NAME]);
    assert Contents(dir, names) == HistoryOf(dir, times);
    forall n, n' | n in LogNames(dir) && n' in LogNames(dir) && e in dir[n] && e in dir[n'] ensures n == n' {
      assert n in names && n' in names;
      var i :| 0 <= i < |names| && names[i] == n;
      var j :| 0 <= j < |names| && names[j] == n';
      if i < j {
        TwiceInContents(dir, names, i, j, e);
      } else if j < i {
        TwiceInContents(dir, names, j, i, e);
      }
    }
  }

  lemma TwiceInContents(dir: Directory, names: seq<string>, i: nat, j: nat, e: Event)
    requires (forall n <- names :: n in dir) && i < j < |names| && e in dir[names[i]] && e in dir[names[j]]
    ensures !Ascending(Contents(dir, names))
  {
    ContentsConcat(dir, names[..j], names[j..]);
    assert names == names[..j] + names[j..];
    assert names[..j][i] == names[i] && names[j..][0] == names[j];
    ContentsMember(dir, names[..j], e);
    ContentsMember(dir, names[j..], e);
    var x, y := Contents(dir, names[..j]), Contents(dir, names[j..]);
    var p :| 0 <= p < |x| && x[p] == e;
    var q :| 0 <= q < |y| && y[q] == e;
    assert (x + y)[p] == (x + y)[|x| + q] == e;
  }

  /** The history holds exactly the events of the directory's log files. */
  lemma HistoryMember(dir: Directory, times: seq<nat>, e: Event)
    requires Laid(dir, times)
    ensures e in HistoryOf(dir, times) <==> exists n <- LogNames(dir) :: e in dir[n]
  {
    ListingOrder(dir, times);
    ContentsMember(dir, Listing(dir), e);
    assert e in AllEvents(dir) <==> e in HistoryOf(dir, times);
    assert forall n :: n in Listing(dir) <==> n in LogNames(dir);
  }

  /** On a well-laid log whose numbers ascend in append order, the scanned maximum is the last number. */
  lemma ScannedMaximum(files: Directory, dir: Directory, times: seq<nat>, highest: int)
    requires files == WithCurrent(dir) && Laid(files, times)
    requires highest >= 0 && forall n <- LogNames(dir) :: forall e <- dir[n] :: e.sequence <= highest
    requires highest == 0 || exists n <- LogNames(dir) :: exists e <- dir[n] :: e.sequence == highest
    ensures Numbered(HistoryOf(files, times)) ==>
            highest == (if HistoryOf(files, times) == [] then 0 else Last(HistoryOf(files, times)).sequence)
  {
    var h := HistoryOf(files, times);
    if h != [] {
      HistoryMember(files, times, Last(h));
      var n :| n in LogNames(files) && Last(h) in files[n];
      assert n in LogNames(dir);
    }
    if highest != 0 {
      var n :| n in LogNames(dir) && exists e <- dir[n] :: e.sequence == highest;
      var e :| e in dir[n] && e.sequence == highest;
      assert n in LogNames(files);
      HistoryMember(files, times, e);
      if Numbered(h) {
        var i :| 0 <= i < |h| && h[i] == e;
        AscendingLast(h, i);
      }
    } else {
      assert h != [] && Numbered(h) ==> Last(h) in h;
    }
  }
}
