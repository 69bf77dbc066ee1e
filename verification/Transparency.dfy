/** The transparency log: one line per removal, appended by the removal tool, listed by it, and indexed
    by the observer.  Encoding and decoding of a line are functions that undo each other. */
module Transparency {
  import opened Events

  datatype Entry = Entry(
    timestamp: int, action: string, key: string, messageId: string, reason: string, performedBy: string, contentHash: string)

  /** json.Marshal and json.Unmarshal of an entry. */
  datatype Codec = Codec(encode: Entry -> string, decode: string -> Option<Entry>)

  /** A marshalled entry is one non-empty line without a newline, and parses back. */
  ghost predicate Proper(codec: Codec) {
    forall e :: codec.encode(e) != "" && '\n' !in codec.encode(e) && codec.decode(codec.encode(e)) == Some(e)
  }

  /** AppendTransparencyEntry. */
  method AppendTransparencyEntry(codec: Codec, file: string, entry: Entry) returns (file': string)
    ensures file' == file + Line(codec, entry)
    ensures forall entries :: file == FileOf(codec, entries) ==> file' == FileOf(codec, entries + [entry])
  {
    file' := file + (codec.encode(entry) + ['\n']);
  }

  function Line(codec: Codec, e: Entry): string {
    codec.encode(e) + ['\n']
  }

  function FileOf(codec: Codec, entries: seq<Entry>): string {
    if entries == [] then [] else FileOf(codec, entries[..|entries| - 1]) + Line(codec, entries[|entries| - 1])
  }

  // ---- splitLines ----

  /** Lines joined by a newline after each. */
  function Joined(lines: seq<string>): string {
    if lines == [] then [] else Joined(lines[..|lines| - 1]) + lines[|lines| - 1] + ['\n']
  }

  predicate NewlineFree(lines: seq<string>) {
    forall l <- lines :: '\n' !in l
  }

  /** splitLines. */
  method SplitLines(data: string) returns (lines: seq<string>)
    ensures NewlineFree(lines)
    ensures data == Joined(lines) || (lines != [] && lines[|lines| - 1] != "" && data + ['\n'] == Joined(lines))
    ensures data == [] || data[|data| - 1] == '\n' <==> data == Joined(lines)
  {
    lines := [];
    var start := 0;
    for i := 0 to |data|
      invariant 0 <= start <= i && NewlineFree(lines)
      invariant data[..start] == Joined(lines)
      invariant '\n' !in data[start..i]
    {
      if data[i] == '\n' {
        JoinedNext(lines, data[start..i]);
        assert data[..i + 1] == data[..start] + data[start..i] + ['\n'];
        lines := lines + [data[start..i]];
        start := i + 1;
      } else {
        assert data[start..i + 1] == data[start..i] + [data[i]];
      }
    }
    assert data[start..|data|] == data[start..];
    if start < |data| {
      JoinedNext(lines, data[start..]);
      assert data + ['\n'] == data[..start] + data[start..] + ['\n'];
      assert data[|data| - 1] == data[start..][|data| - start - 1] && data[start..][|data| - start - 1] in data[start..];
      lines := lines + [data[start..]];
      assert |Joined(lines)| == |data| + 1;
    } else {
      assert data[..|data|] == data;
      JoinedEnds(lines);
    }
  }

  lemma JoinedNext(lines: seq<string>, line: string)
    ensures Joined(lines + [line]) == Joined(lines) + line + ['\n']
  {
    assert (lines + [line])[..|lines|] == lines;
  }

  lemma JoinedEnds(lines: seq<string>)
    ensures lines != [] ==> Joined(lines) != [] && Joined(lines)[|Joined(lines)| - 1] == '\n'
    ensures lines == [] ==> Joined(lines) == []
  {
  }

  /** Splitting undoes joining: newline-free lines are determined by their joined text. */
  lemma {:induction false} JoinedInjective(x: seq<string>, y: seq<string>)
    requires NewlineFree(x) && NewlineFree(y) && Joined(x) == Joined(y)
    ensures x == y
  {
    JoinedEnds(x);
    JoinedEnds(y);
    if x != [] && y != [] {
      var x0, y0, l, m := x[..|x| - 1], y[..|y| - 1], x[|x| - 1], y[|y| - 1];
      JoinedEnds(x0);
      JoinedEnds(y0);
      LastLine(Joined(x0), l, Joined(y0), m);
      JoinedInjective(x0, y0);
      assert x == x0 + [l] && y == y0 + [m];
    }
  }

  /** The last line of a text is what follows its last newline. */
  lemma LastLine(p: string, l: string, q: string, m: string)
    requires p + l + ['\n'] == q + m + ['\n'] && '\n' !in l && '\n' !in m
    requires (p == [] || p[|p| - 1] == '\n') && (q == [] || q[|q| - 1] == '\n')
    ensures p == q && l == m
  {
    var t := p + l + ['\n'];
    assert forall i :: |p| <= i < |t| - 1 ==> t[i] == l[i - |p|];
    assert forall i :: |q| <= i < |t| - 1 ==> t[i] == m[i - |q|];
    assert p != [] ==> t[|p| - 1] == '\n';
    assert q != [] ==> t[|q| - 1] == '\n';
    assert |p| == |q|;
    assert p == t[..|p|] == q;
    assert l == t[|p|..|t| - 1] == m;
  }

  // ---- listing ----

  function Parsed(codec: Codec, lines: seq<string>): seq<Entry> {
    if lines == [] then []
    else
      var line := lines[|lines| - 1];
      Parsed(codec, lines[..|lines| - 1]) +
      (if line != "" && codec.decode(line).Some? then [codec.decode(line).value] else [])
  }

  /** ListRemovals of an existing file: empty and unreadable lines are skipped. */
  method ListRemovals(codec: Codec, file: string, ghost entries: seq<Entry>) returns (listed: seq<Entry>)
    ensures exists lines :: NewlineFree(lines) && listed == Parsed(codec, lines)
                         && (file == Joined(lines) || file + ['\n'] == Joined(lines))
    ensures Proper(codec) && file == FileOf(codec, entries) ==> listed == entries
  {
    var lines := SplitLines(file);
    listed := [];
    for i := 0 to |lines|
      invariant listed == Parsed(codec, lines[..i])
    {
      assert lines[..i + 1][..i] == lines[..i] && lines[..i + 1][i] == lines[i];
      if lines[i] == "" {
        continue;
      }
      match codec.decode(lines[i])
      case None => continue;
      case Some(e) => listed := listed + [e];
    }
    assert lines[..|lines|] == lines;
    if Proper(codec) && file == FileOf(codec, entries) {
      FileIsJoined(codec, entries);
      JoinedEnds(Encoded(codec, entries));
      JoinedInjective(lines, Encoded(codec, entries));
      ParsedEncoded(codec, entries);
    }
  }

  function Encoded(codec: Codec, entries: seq<Entry>): (r: seq<string>)
    ensures |r| == |entries| && forall i :: 0 <= i < |entries| ==> r[i] == codec.encode(entries[i])
  {
    seq(|entries|, i requires 0 <= i < |entries| => codec.encode(entries[i]))
  }

  lemma {:induction false} FileIsJoined(codec: Codec, entries: seq<Entry>)
    requires Proper(codec)
    ensures FileOf(codec, entries) == Joined(Encoded(codec, entries)) && NewlineFree(Encoded(codec, entries))
  {
    if entries != [] {
      var lines := Encoded(codec, entries);
      assert lines[..|lines| - 1] == Encoded(codec, entries[..|entries| - 1]);
      FileIsJoined(codec, entries[..|entries| - 1]);
      assert Joined(lines) == Joined(lines[..|lines| - 1]) + (lines[|lines| - 1] + ['\n']);
    }
  }

  /** A line that does not parse costs its own entry and no other. */
  lemma {:induction false} ParsedConcat(codec: Codec, x: seq<string>, y: seq<string>)
    ensures Parsed(codec, x + y) == Parsed(codec, x) + Parsed(codec, y)
  {
    if y == [] {
      assert x + y == x;
    } else {
      assert (x + y)[..|x + y| - 1] == x + y[..|y| - 1];
      ParsedConcat(codec, x, y[..|y| - 1]);
    }
  }

  lemma ParsedOne(codec: Codec, line: string)
    ensures Parsed(codec, [line]) == if line == "" || codec.decode(line).None? then [] else [codec.decode(line).value]
  {
    assert [line][..0] == [];
  }

  /** Entries appended to the log come back in the same order. */
  lemma {:induction false} ParsedEncoded(codec: Codec, entries: seq<Entry>)
    requires Proper(codec)
    ensures Parsed(codec, Encoded(codec, entries)) == entries
  {
    if entries != [] {
      var lines := Encoded(codec, entries);
      assert lines[..|lines| - 1] == Encoded(codec, entries[..|entries| - 1]);
      ParsedEncoded(codec, entries[..|entries| - 1]);
      assert entries == entries[..|entries| - 1] + [entries[|entries| - 1]];
    }
  }

  // ---- the observer's maps ----

  predicate RemovesKey(e: Entry, key: string) {
    e.key != "" && e.action == "state_key_removed" && e.key == key
  }

  predicate RemovesMessage(e: Entry, id: string) {
    e.messageId != "" && e.action == "message_redacted" && e.messageId == id
  }

  /** The reason of the last entry that removes the key, or redacts the message. */
  function KeyReason(es: seq<Entry>, key: string): Option<string> {
    if es == [] then None
    else if RemovesKey(es[|es| - 1], key) then Some(es[|es| - 1].reason)
    else KeyReason(es[..|es| - 1], key)
  }

  function MessageReason(es: seq<Entry>, id: string): Option<string> {
    if es == [] then None
    else if RemovesMessage(es[|es| - 1], id) then Some(es[|es| - 1].reason)
    else MessageReason(es[..|es| - 1], id)
  }

  /** What is shown of a key is the reason of the last entry that removed it. */
  lemma {:induction false} KeyReasonIs(es: seq<Entry>, key: string)
    ensures KeyReason(es, key).None? <==> key == "" || forall e <- es :: e.action == "state_key_removed" ==> e.key != key
    ensures KeyReason(es, key).Some? ==> exists i :: 0 <= i < |es| && LastRemoval(es, i, key) && KeyReason(es, key) == Some(es[i].reason)
  {
    if es != [] {
      var front := es[..|es| - 1];
      assert es == front + [es[|es| - 1]];
      KeyReasonIs(front, key);
      if KeyReason(es, key).Some? {
        if RemovesKey(es[|es| - 1], key) {
          assert LastRemoval(es, |es| - 1, key);
        } else {
          var i :| 0 <= i < |front| && LastRemoval(front, i, key) && KeyReason(front, key) == Some(front[i].reason);
          assert LastRemoval(es, i, key);
        }
      }
    }
  }

  /** Entry i is the last of its kind. */
  predicate LastRemoval(es: seq<Entry>, i: nat, key: string)
    requires i < |es|
  {
    && es[i].action == "state_key_removed" && es[i].key == key
    && forall j :: i < j < |es| ==> es[j].action == "state_key_removed" ==> es[j].key != key
  }

  /** What is shown of a message is the reason of the last entry that redacted it. */
  lemma {:induction false} MessageReasonIs(es: seq<Entry>, id: string)
    ensures MessageReason(es, id).None? <==> id == "" || forall e <- es :: e.action == "message_redacted" ==> e.messageId != id
    ensures MessageReason(es, id).Some? ==> exists i :: 0 <= i < |es| && LastRedaction(es, i, id) && MessageReason(es, id) == Some(es[i].reason)
  {
    if es != [] {
      var front := es[..|es| - 1];
      assert es == front + [es[|es| - 1]];
      MessageReasonIs(front, id);
      if MessageReason(es, id).Some? {
        if RemovesMessage(es[|es| - 1], id) {
          assert LastRedaction(es, |es| - 1, id);
        } else {
          var i :| 0 <= i < |front| && LastRedaction(front, i, id) && MessageReason(front, id) == Some(front[i].reason);
          assert LastRedaction(es, i, id);
        }
      }
    }
  }

  /** Entry i is the last of its kind. */
  predicate LastRedaction(es: seq<Entry>, i: nat, id: string)
    requires i < |es|
  {
    && es[i].action == "message_redacted" && es[i].messageId == id
    && forall j :: i < j < |es| ==> es[j].action == "message_redacted" ==> es[j].messageId != id
  }

  function Lookup(m: map<string, string>, k: string): Option<string> {
    if k in m then Some(m[k]) else None
  }

  class TransparencyLog {
    var removals: seq<Entry>
    var redactedKeys: map<string, string>
    var redactedMsgIds: map<string, string>

    /** The maps hold, for each key or message, the reason of its last matching entry. */
    ghost predicate Valid()
      reads this
    {
      && (forall k :: Lookup(redactedKeys, k) == KeyReason(removals, k))
      && (forall id :: Lookup(redactedMsgIds, id) == MessageReason(removals, id))
    }

    constructor (codec: Codec, lines: seq<string>)
      ensures Valid() && removals == Parsed(codec, lines)
    {
      removals, redactedKeys, redactedMsgIds := [], map[], map[];
      new;
      Load(codec, lines);
    }

    /** load: the lines of the file in turn, empty and unreadable ones skipped. */
    method Load(codec: Codec, lines: seq<string>)
      requires Valid()
      modifies this
      ensures Valid() && removals == old(removals) + Parsed(codec, lines)
    {
      for i := 0 to |lines|
        invariant Valid() && removals == old(removals) + Parsed(codec, lines[..i])
      {
        assert lines[..i + 1][..i] == lines[..i] && lines[..i + 1][i] == lines[i];
        if lines[i] == "" {
          continue;
        }
        match codec.decode(lines[i])
        case None => continue;
        case Some(r) => Add(r);
      }
      assert lines[..|lines|] == lines;
    }

    /** The end of the loop body: one more removal. */
    method Add(r: Entry)
      requires Valid()
      modifies this
      ensures Valid() && removals == old(removals) + [r]
    {
      ghost var before := removals;
      removals := removals + [r];
      assert removals[..|removals| - 1] == before;
      if r.key != "" && r.action == "state_key_removed" {
        redactedKeys := redactedKeys[r.key := r.reason];
      }
      if r.messageId != "" && r.action == "message_redacted" {
        redactedMsgIds := redactedMsgIds[r.messageId := r.reason];
      }
    }

    /** Refresh: start over. */
    method Refresh(codec: Codec, lines: seq<string>)
      modifies this
      ensures Valid() && removals == Parsed(codec, lines)
    {
      removals, redactedKeys, redactedMsgIds := [], map[], map[];
      Load(codec, lines);
    }
  }
}
