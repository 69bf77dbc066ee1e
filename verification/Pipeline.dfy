/** The verification pipeline: a chain of string operations applied to a random seed.
    Strings are ASCII throughout; one char is one byte. */
module Pipeline {
  import opened Events
  import opened Names
  import opened Powers

  datatype Failure = UnknownOperation(op: string) | CorruptBase64

  type Outcome = Result<string, Failure>

  predicate IsAscii(s: string) {
    forall i :: 0 <= i < |s| ==> s[i] as int < 128
  }

  predicate IsHex(s: string) {
    forall i :: 0 <= i < |s| ==> '0' <= s[i] <= '9' || 'a' <= s[i] <= 'f'
  }

  function Zeros(n: nat): (s: string)
    ensures |s| == n && IsHex(s)
  {
    seq(n, i => '0')
  }

  /** SHA-256 with its digest in hex: all that is used of it is the shape of its result. */
  type Sha256 = f: string -> string | forall s :: |f(s)| == 64 && IsHex(f(s)) witness (s => Zeros(64))

  /** An operation string as the switch of executePipeline reads it. */
  datatype Op =
    | Reverse | Base64Encode | Base64Decode | HexEncode | Sha | Uppercase | Lowercase | Rot13
    | Prepend(text: string)
    | Append(text: string)
    | Unknown(op: string)

  function Parse(op: string): Op {
    if op == "reverse" then Reverse
    else if op == "base64_encode" then Base64Encode
    else if op == "base64_decode" then Base64Decode
    else if op == "hex_encode" then HexEncode
    else if op == "sha256" then Sha
    else if op == "uppercase" then Uppercase
    else if op == "lowercase" then Lowercase
    else if op == "rot13" then Rot13
    else if HasPrefix(op, "prepend:") then Prepend(op[8..])
    else if HasPrefix(op, "append:") then Append(op[7..])
    else Unknown(op)
  }

  function ParseAll(ops: seq<string>): (r: seq<Op>)
    ensures |r| == |ops| && forall i :: 0 <= i < |ops| ==> r[i] == Parse(ops[i])
  {
    seq(|ops|, i requires 0 <= i < |ops| => Parse(ops[i]))
  }

  const SIMPLE_OPS: seq<string> := ["reverse", "base64_encode", "hex_encode", "sha256", "uppercase", "lowercase", "rot13"]

  // ---- the operations ----

  function Reversed(s: string): (r: string)
    ensures |r| == |s| && forall i :: 0 <= i < |s| ==> r[i] == s[|s| - 1 - i]
  {
    seq(|s|, i requires 0 <= i < |s| => s[|s| - 1 - i])
  }

  function MapChars(s: string, f: char -> char): (r: string)
    ensures |r| == |s| && forall i :: 0 <= i < |s| ==> r[i] == f(s[i])
  {
    seq(|s|, i requires 0 <= i < |s| => f(s[i]))
  }

  function Upper(c: char): char {
    if 'a' <= c <= 'z' then (c as int - 32) as char else c
  }

  function Lower(c: char): char {
    if 'A' <= c <= 'Z' then (c as int + 32) as char else c
  }

  function Rot13Char(c: char): char {
    if 'A' <= c <= 'Z' then ('A' as int + (c as int - 'A' as int + 13) % 26) as char
    else if 'a' <= c <= 'z' then ('a' as int + (c as int - 'a' as int + 13) % 26) as char
    else c
  }

  function HexDigit(n: nat): char
    requires n < 16
  {
    if n < 10 then ('0' as int + n) as char else ('a' as int + n - 10) as char
  }

  /** Section 8 of RFC 4648, in lower case. */
  function EncodeHex(s: string): (r: string)
    requires IsAscii(s)
    ensures |r| == 2 * |s| && IsHex(r)
  {
    if s == [] then []
    else [HexDigit(s[0] as int / 16), HexDigit(s[0] as int % 16)] + EncodeHex(s[1..])
  }

  /** The alphabet of section 4 of RFC 4648. */
  function Sextet(n: nat): (c: char)
    requires n < 64
    ensures c as int < 128 && c != '=' && c != '\r' && c != '\n'
  {
    if n < 26 then ('A' as int + n) as char
    else if n < 52 then ('a' as int + n - 26) as char
    else if n < 62 then ('0' as int + n - 52) as char
    else if n == 62 then '+' else '/'
  }

  function SextetValue(c: char): (n: Option<nat>)
    ensures n.Some? ==> n.value < 64 && Sextet(n.value) == c
  {
    if 'A' <= c <= 'Z' then Some(c as int - 'A' as int)
    else if 'a' <= c <= 'z' then Some(c as int - 'a' as int + 26)
    else if '0' <= c <= '9' then Some(c as int - '0' as int + 52)
    else if c == '+' then Some(62)
    else if c == '/' then Some(63)
    else None
  }

  predicate IsBreakFree(t: string) {
    forall i :: 0 <= i < |t| ==> t[i] != '\r' && t[i] != '\n'
  }

  /** One to three bytes as four characters, padded with '='. */
  function Quantum(s: string): (r: string)
    requires IsAscii(s) && 1 <= |s| <= 3
    ensures |r| == 4 && IsAscii(r) && IsBreakFree(r)
  {
    var x, y, z := s[0] as int, if |s| > 1 then s[1] as int else 0, if |s| > 2 then s[2] as int else 0;
    [Sextet(x / 4), Sextet(x % 4 * 16 + y / 16),
     if |s| > 1 then Sextet(y % 16 * 4 + z / 64) else '=',
     if |s| > 2 then Sextet(z % 64) else '=']
  }

  function EncodeBase64(s: string): (r: string)
    requires IsAscii(s)
    ensures IsAscii(r) && IsBreakFree(r) && |r| == 4 * ((|s| + 2) / 3)
  {
    if s == [] then []
    else if |s| <= 3 then Quantum(s)
    else
      assert (|s| + 2) / 3 == 1 + (|s[3..]| + 2) / 3;
      Quantum(s[..3]) + EncodeBase64(s[3..])
  }

  /** Four characters back to their bytes; unused trailing bits are not looked at. */
  function DecodeQuantum(t: string): (r: Option<string>)
    requires |t| == 4
    ensures r.Some? ==> 1 <= |r.value| <= 3
  {
    var a, b, c, d := SextetValue(t[0]), SextetValue(t[1]), SextetValue(t[2]), SextetValue(t[3]);
    if a.None? || b.None? then None
    else
      var x := (a.value * 4 + b.value / 16) as char;
      if t[2] == '=' && t[3] == '=' then Some([x])
      else if c.None? then None
      else
        var y := (b.value % 16 * 16 + c.value / 4) as char;
        if t[3] == '=' then Some([x, y])
        else if d.None? then None
        else Some([x, y, (c.value % 4 * 64 + d.value) as char])
  }

  /** Go's decoder: whole quanta, with padding only in the last. */
  function DecodeQuanta(t: string): Outcome {
    if t == [] then Ok([])
    else if |t| < 4 then Err(CorruptBase64)
    else
      match DecodeQuantum(t[..4])
      case None => Err(CorruptBase64)
      case Some(bytes) =>
        if |bytes| < 3 then (if |t| == 4 then Ok(bytes) else Err(CorruptBase64))
        else
          match DecodeQuanta(t[4..])
          case Ok(rest) => Ok(bytes + rest)
          case Err(f) => Err(f)
  }

  /** Line breaks in the input are skipped. */
  function WithoutBreaks(t: string): string {
    if t == [] then []
    else (if t[0] == '\r' || t[0] == '\n' then [] else [t[0]]) + WithoutBreaks(t[1..])
  }

  function DecodeBase64(t: string): Outcome {
    DecodeQuanta(WithoutBreaks(t))
  }

  function ApplyOp(op: Op, s: string, sha: Sha256): Outcome
    requires IsAscii(s)
  {
    match op
    case Reverse => Ok(Reversed(s))
    case Base64Encode => Ok(EncodeBase64(s))
    case Base64Decode => DecodeBase64(s)
    case HexEncode => Ok(EncodeHex(s))
    case Sha => Ok(sha(s))
    case Uppercase => Ok(MapChars(s, Upper))
    case Lowercase => Ok(MapChars(s, Lower))
    case Rot13 => Ok(MapChars(s, Rot13Char))
    case Prepend(text) => Ok(text + s)
    case Append(text) => Ok(s + text)
    case Unknown(op) => Err(UnknownOperation(op))
  }

  /** A run of the pipeline; None when an intermediate string leaves ASCII, which the model does not follow. */
  function Execute(seed: string, ops: seq<Op>, sha: Sha256): Option<Outcome>
    requires IsAscii(seed)
    decreases |ops|
  {
    if ops == [] then Some(Ok(seed))
    else
      match ApplyOp(ops[0], seed, sha)
      case Err(f) => Some(Err(f))
      case Ok(s) => if IsAscii(s) then Execute(s, ops[1..], sha) else None
  }

  // ---- the code ----

  /** The in-place swap loop of reverse. */
  method ReverseRunes(runes: array<char>)
    modifies runes
    ensures runes[..] == Reversed(old(runes[..]))
  {
    var i, j := 0, runes.Length - 1;
    while i < j
      invariant 0 <= i <= j + 1 && i + j == runes.Length - 1
      invariant forall k :: 0 <= k < i || j < k < runes.Length ==> runes[k] == old(runes[..])[runes.Length - 1 - k]
      invariant forall k :: i <= k <= j ==> runes[k] == old(runes[..])[k]
    {
      runes[i], runes[j] := runes[j], runes[i];
      i, j := i + 1, j - 1;
    }
  }

  // ---- what the operations mean ----

  /** Upper case: no small letter is left, capitals and other characters stay, and lower case gives small
      letters back. */
  lemma UpperIs(c: char)
    ensures !('a' <= Upper(c) <= 'z') && (!('a' <= c <= 'z') ==> Upper(c) == c)
    ensures 'a' <= c <= 'z' ==> 'A' <= Upper(c) <= 'Z' && Lower(Upper(c)) == c
  {
  }

  lemma LowerIs(c: char)
    ensures !('A' <= Lower(c) <= 'Z') && (!('A' <= c <= 'Z') ==> Lower(c) == c)
    ensures 'A' <= c <= 'Z' ==> 'a' <= Lower(c) <= 'z' && Upper(Lower(c)) == c
  {
  }

  /** The first half of each alphabet moves on by 13, the second half back, and nothing else moves. */
  lemma Rot13Is(c: char)
    ensures 'A' <= c <= 'M' || 'a' <= c <= 'm' ==> Rot13Char(c) as int == c as int + 13
    ensures 'N' <= c <= 'Z' || 'n' <= c <= 'z' ==> Rot13Char(c) as int == c as int - 13
    ensures !('A' <= c <= 'Z') && !('a' <= c <= 'z') ==> Rot13Char(c) == c
  {
  }

  /** The value of a hexadecimal digit, and of a string of them, two to a byte. */
  function HexValue(c: char): int {
    if '0' <= c <= '9' then c as int - '0' as int else c as int - 'a' as int + 10
  }

  /** Byte i is digits 2i and 2i + 1, the high one first. */
  lemma {:induction false} HexIs(s: string, i: nat)
    requires IsAscii(s) && i < |s|
    ensures s[i] as int == 16 * HexValue(EncodeHex(s)[2 * i]) + HexValue(EncodeHex(s)[2 * i + 1])
  {
    var x, r, rest := s[0] as int, EncodeHex(s), EncodeHex(s[1..]);
    assert r == [HexDigit(x / 16), HexDigit(x % 16)] + rest;
    HexDigitValue(x / 16);
    HexDigitValue(x % 16);
    if i > 0 {
      HexIs(s[1..], i - 1);
      assert s[i] == s[1..][i - 1] && r[2 * i] == rest[2 * (i - 1)] && r[2 * i + 1] == rest[2 * (i - 1) + 1];
    }
  }

  lemma HexDigitValue(n: nat)
    requires n < 16
    ensures HexValue(HexDigit(n)) == n
  {
  }

  /** Table 1 of RFC 4648: capitals, small letters, digits, '+' and '/', each in order. */
  lemma SextetIs(n: nat)
    requires n < 64
    ensures Sextet(0) == 'A' && Sextet(26) == 'a' && Sextet(52) == '0' && Sextet(62) == '+' && Sextet(63) == '/'
    ensures n !in {0, 26, 52, 62, 63} ==> Sextet(n) as int == Sextet(n - 1) as int + 1
    ensures InAlphabet(Sextet(n))
  {
  }

  predicate InAlphabet(c: char) {
    'A' <= c <= 'Z' || 'a' <= c <= 'z' || '0' <= c <= '9' || c == '+' || c == '/'
  }

  lemma InAlphabetIff(c: char)
    ensures SextetValue(c).Some? <==> InAlphabet(c)
  {
    if SextetValue(c).Some? {
      SextetIs(SextetValue(c).value);
    }
  }

  /** The text is of the alphabet, but for k '=' at its end. */
  predicate Padded(t: string, k: nat) {
    && k <= |t|
    && (forall i :: 0 <= i < |t| - k ==> InAlphabet(t[i]))
    && forall i :: |t| - k <= i < |t| ==> t[i] == '='
  }

  lemma QuantumDecodes(t: string)
    requires |t| == 4
    ensures var r := DecodeQuantum(t);
            && (r.Some? && |r.value| == 3 <==> Padded(t, 0))
            && (r.Some? && |r.value| == 2 <==> Padded(t, 1))
            && (r.Some? && |r.value| == 1 <==> Padded(t, 2))
  {
    forall i | 0 <= i < 4 ensures SextetValue(t[i]).Some? <==> InAlphabet(t[i]) {
      InAlphabetIff(t[i]);
    }
    NoPad();
    PaddedFour(t, 0);
    PaddedFour(t, 1);
    PaddedFour(t, 2);
  }

  lemma NoPad()
    ensures !InAlphabet('=') && SextetValue('=').None?
  {
    InAlphabetIff('=');
  }

  lemma PaddedFour(t: string, k: nat)
    requires |t| == 4 && k <= 2
    ensures Padded(t, k) <==> InAlphabet(t[0]) && InAlphabet(t[1])
                              && (if k < 2 then InAlphabet(t[2]) else t[2] == '=') && (if k < 1 then InAlphabet(t[3]) else t[3] == '=')
  {
  }

  lemma PaddedRest(t: string, k: nat)
    requires |t| > 4 && k <= |t| - 4
    ensures Padded(t, k) <==> Padded(t[..4], 0) && Padded(t[4..], k)
  {
    if Padded(t, k) {
      assert forall i :: 0 <= i < |t| - 4 ==> t[4..][i] == t[4 + i];
    }
    if Padded(t[..4], 0) && Padded(t[4..], k) {
      assert forall i :: 0 <= i < 4 ==> t[i] == t[..4][i];
      assert forall i :: 4 <= i < |t| ==> t[i] == t[4..][i - 4];
    }
  }

  /** In whole quanta of the alphabet, with at most two '=' at the very end. */
  predicate WellFormed(t: string) {
    |t| % 4 == 0 && (Padded(t, 0) || (t != [] && (Padded(t, 1) || Padded(t, 2))))
  }

  lemma WellFormedRest(t: string)
    requires |t| > 4
    ensures WellFormed(t) <==> Padded(t[..4], 0) && t[4..] != [] && WellFormed(t[4..])
  {
    if |t| >= 8 {
      PaddedRest(t, 0);
      PaddedRest(t, 1);
      PaddedRest(t, 2);
    }
  }

  /** Apart from line breaks exactly the well-formed texts decode. */
  lemma {:induction false} DecodesIff(t: string)
    ensures DecodeQuanta(t).Ok? <==> WellFormed(t)
    decreases |t|
  {
    if |t| >= 4 {
      QuantumDecodes(t[..4]);
      if |t| == 4 {
        assert t[..4] == t && t[4..] == [];
      } else {
        DecodesIff(t[4..]);
        WellFormedRest(t);
      }
    }
  }

  /** The vectors of section 10 of RFC 4648. */
  lemma Vectors()
    ensures EncodeBase64("") == "" && EncodeBase64("f") == "Zg==" && EncodeBase64("fo") == "Zm8=" && EncodeBase64("foo") == "Zm9v"
  {
  }

  lemma LongVector()
    ensures EncodeBase64("foobar") == "Zm9vYmFy"
  {
    assert "foobar"[..3] == "foo" && "foobar"[3..] == "bar";
    QuantumOfBar();
    Vectors();
    assert EncodeBase64("foobar") == Quantum("foo") + EncodeBase64("bar");
  }

  lemma QuantumOfBar()
    ensures EncodeBase64("bar") == "YmFy"
  {
  }

  /** The operations by name. */
  lemma OpMeans(s: string, sha: Sha256)
    requires IsAscii(s)
    ensures ApplyOp(Parse("reverse"), s, sha) == Ok(Reversed(s)) && ApplyOp(Parse("sha256"), s, sha) == Ok(sha(s))
    ensures ApplyOp(Parse("uppercase"), s, sha) == Ok(MapChars(s, Upper)) && ApplyOp(Parse("lowercase"), s, sha) == Ok(MapChars(s, Lower))
    ensures ApplyOp(Parse("rot13"), s, sha) == Ok(MapChars(s, Rot13Char))
  {
    ParseNames();
  }

  lemma CodecMeans(s: string, sha: Sha256)
    requires IsAscii(s)
    ensures ApplyOp(Parse("base64_encode"), s, sha) == Ok(EncodeBase64(s))
    ensures ApplyOp(Parse("base64_decode"), s, sha) == DecodeQuanta(WithoutBreaks(s))
    ensures ApplyOp(Parse("hex_encode"), s, sha) == Ok(EncodeHex(s))
  {
    ParseCodecs();
  }

  lemma ParseNames()
    ensures Parse("reverse") == Reverse && Parse("sha256") == Sha && Parse("uppercase") == Uppercase
    ensures Parse("lowercase") == Lowercase && Parse("rot13") == Rot13
  {
    assert "lowercase"[0] == 'l' && "uppercase"[0] == 'u';
  }

  lemma ParseCodecs()
    ensures Parse("base64_encode") == Base64Encode && Parse("base64_decode") == Base64Decode && Parse("hex_encode") == HexEncode
  {
    assert "base64_encode"[7] == 'e' && "base64_decode"[7] == 'd';
  }

  lemma TextOpMeans(text: string, s: string, sha: Sha256)
    requires IsAscii(s)
    ensures ApplyOp(Parse("prepend:" + text), s, sha) == Ok(text + s)
    ensures ApplyOp(Parse("append:" + text), s, sha) == Ok(s + text)
  {
    ParsePrepend(text);
    ParseAppend(text);
  }

  lemma ParsePrepend(text: string)
    ensures Parse("prepend:" + text) == Prepend(text)
  {
    var op := "prepend:" + text;
    assert op[0] == 'p' && op[..8] == "prepend:" && op[8..] == text;
  }

  lemma ParseAppend(text: string)
    ensures Parse("append:" + text) == Append(text)
  {
    var op := "append:" + text;
    assert op[0] == 'a' && op[..7] == "append:" && op[7..] == text;
  }

  /** Anything else is refused. */
  lemma UnknownOp(op: string, s: string, sha: Sha256)
    requires IsAscii(s)
    ensures ApplyOp(Unknown(op), s, sha) == Err(UnknownOperation(op))
  {
  }

  lemma ParseUnknown(op: string)
    requires op !in SIMPLE_OPS && op != "base64_decode" && !HasPrefix(op, "prepend:") && !HasPrefix(op, "append:")
    ensures Parse(op) == Unknown(op)
  {
    assert forall i :: 0 <= i < 7 ==> op != SIMPLE_OPS[i];
    assert SIMPLE_OPS[0] == "reverse" && SIMPLE_OPS[1] == "base64_encode" && SIMPLE_OPS[2] == "hex_encode" && SIMPLE_OPS[3] == "sha256";
    assert SIMPLE_OPS[4] == "uppercase" && SIMPLE_OPS[5] == "lowercase" && SIMPLE_OPS[6] == "rot13";
  }

  /** executePipeline. */
  method ExecutePipeline(seed: string, ops: seq<string>, sha: Sha256) returns (r: Option<Outcome>)
    requires IsAscii(seed)
    ensures r == Execute(seed, ParseAll(ops), sha)
  {
    var result := seed;
    ghost var all := ParseAll(ops);
    for i := 0 to |ops|
      invariant IsAscii(result) && Execute(seed, all, sha) == Execute(result, all[i..], sha)
    {
      var op := Parse(ops[i]);
      ExecuteNext(result, all, i, sha);
      var step := ExecuteOne(op, result, sha);
      if step.Err? {
        return Some(step);
      }
      result := step.value;
      if !IsAscii(result) {
        return None;
      }
    }
    assert all[|ops|..] == [];
    r := Some(Ok(result));
  }

  method ExecuteOne(op: Op, s: string, sha: Sha256) returns (r: Outcome)
    requires IsAscii(s)
    ensures r == ApplyOp(op, s, sha)
  {
    if op == Reverse {
      var runes := new char[|s|](k requires 0 <= k < |s| => s[k]);
      assert runes[..] == s;
      ReverseRunes(runes);
      r := Ok(runes[..]);
    } else {
      r := ApplyOp(op, s, sha);
    }
  }

  lemma ExecuteNext(s: string, ops: seq<Op>, i: nat, sha: Sha256)
    requires IsAscii(s) && i < |ops|
    ensures Execute(s, ops[i..], sha)
         == match ApplyOp(ops[i], s, sha)
            case Err(f) => Some(Err(f))
            case Ok(r) => if IsAscii(r) then Execute(r, ops[i + 1..], sha) else None
  {
    assert ops[i..][0] == ops[i] && ops[i..][1..] == ops[i + 1..];
  }

  /** An operation generateOperations can choose. */
  predicate Generated(op: string) {
    || op in SIMPLE_OPS
    || (HasPrefix(op, "prepend:") && |op| == 16 && IsHex(op[8..]))
    || (HasPrefix(op, "append:") && |op| == 15 && IsHex(op[7..]))
  }

  /** The random draws for one operation. */
  datatype Draw = Draw(roll: int, pick: nat, suffix: string, coin: int)

  predicate ProperDraw(d: Draw) {
    1 <= d.roll <= 10 && d.pick < |SIMPLE_OPS| && |d.suffix| == 8 && IsHex(d.suffix) && 0 <= d.coin <= 1
  }

  /** The operation is the simple one picked, or the drawn suffix put in front or behind as the coin says. */
  predicate Drawn(d: Draw, op: string) {
    && (d.roll <= 7 ==> d.pick < |SIMPLE_OPS| && op == SIMPLE_OPS[d.pick])
    && (d.roll > 7 ==> Parse(op) == if d.coin == 0 then Prepend(d.suffix) else Append(d.suffix))
  }

  /** generateOperations, with its random numbers as an argument. */
  method GenerateOperations(draws: seq<Draw>) returns (ops: seq<string>)
    requires |draws| == 8 && forall d <- draws :: ProperDraw(d)
    ensures |ops| == 8 && forall op <- ops :: Generated(op)
    ensures forall i :: 0 <= i < 8 ==> (ops[i] in SIMPLE_OPS <==> draws[i].roll <= 7)
    ensures forall i :: 0 <= i < 8 ==> Drawn(draws[i], ops[i])
  {
    ops := [];
    for i := 0 to 8
      invariant |ops| == i && forall op <- ops :: Generated(op)
      invariant forall k :: 0 <= k < i ==> (ops[k] in SIMPLE_OPS <==> draws[k].roll <= 7)
      invariant forall k :: 0 <= k < i ==> Drawn(draws[k], ops[k])
    {
      var d := draws[i];
      assert ProperDraw(d);
      var op: string;
      if d.roll <= 7 {
        op := SIMPLE_OPS[d.pick];
      } else if d.coin == 0 {
        op := "prepend:" + d.suffix;
        ParsePrepend(d.suffix);
        assert op[..8] == "prepend:" && op[8..] == d.suffix;
      } else {
        op := "append:" + d.suffix;
        ParseAppend(d.suffix);
        assert op[..7] == "append:" && op[7..] == d.suffix;
      }
      ops := ops + [op];
    }
  }

  // ---- every generated pipeline runs ----

  lemma HexIsAscii(s: string)
    requires IsHex(s)
    ensures IsAscii(s)
  {
  }

  /** What a generated operation reads as. */
  predicate GeneratedOp(op: Op) {
    match op
    case Base64Decode => false
    case Unknown(_) => false
    case Prepend(text) => |text| == 8 && IsHex(text)
    case Append(text) => |text| == 8 && IsHex(text)
    case _ => true
  }

  lemma ParseGenerated(op: string)
    requires Generated(op)
    ensures GeneratedOp(Parse(op))
  {
    if HasPrefix(op, "prepend:") {
      assert op[0] == "prepend:"[0] && |op| == 16;
    } else if HasPrefix(op, "append:") {
      assert op[0] == "append:"[0] && op[1] == "append:"[1];
    }
  }

  /** One generated operation on a string of at least 32 characters: no error, ASCII again, not below
      32 characters and at most twice as long. */
  lemma GeneratedStep(op: Op, s: string, sha: Sha256)
    requires GeneratedOp(op) && IsAscii(s) && |s| >= 32
    ensures var r := ApplyOp(op, s, sha); r.Ok? && IsAscii(r.value) && 32 <= |r.value| <= 2 * |s|
  {
    HexIsAscii(sha(s));
    HexIsAscii(EncodeHex(s));
  }

  /** A run that gave an ASCII string, within its length bounds. */
  predicate Within(r: Option<Outcome>, most: nat) {
    r.Some? && r.value.Ok? && IsAscii(r.value.value) && 32 <= |r.value.value| <= most
  }

  /** m doubled n times. */
  function Doubled(m: nat, n: nat): nat
    decreases n
  {
    if n == 0 then m else Doubled(2 * m, n - 1)
  }

  lemma {:induction false} DoubledIs(m: nat, n: nat)
    ensures Doubled(m, n) == m * Pow2(n)
    decreases n
  {
    if n > 0 {
      DoubledIs(2 * m, n - 1);
    }
  }

  lemma {:induction false} PrefixRuns(seed: string, ops: seq<Op>, sha: Sha256, most: nat)
    requires IsAscii(seed) && 32 <= |seed| <= most && forall op <- ops :: GeneratedOp(op)
    ensures Within(Execute(seed, ops, sha), Doubled(most, |ops|))
    decreases |ops|
  {
    if ops != [] {
      GeneratedStep(ops[0], seed, sha);
      PrefixRuns(ApplyOp(ops[0], seed, sha).value, ops[1..], sha, 2 * most);
    }
  }

  lemma ParseAllGenerated(ops: seq<string>)
    requires forall op <- ops :: Generated(op)
    ensures forall op <- ParseAll(ops) :: GeneratedOp(op)
  {
    var parsed := ParseAll(ops);
    forall op <- parsed ensures GeneratedOp(op) {
      var i :| 0 <= i < |parsed| && parsed[i] == op;
      ParseGenerated(ops[i]);
    }
  }

  /** Every pipeline generateOperations can produce runs without error on a 32-character hex seed, and
      after each of its k operations the string is ASCII, at least 32 and at most 32 * 2^k long. */
  lemma GeneratedRuns(seed: string, ops: seq<string>, sha: Sha256, k: nat)
    requires IsHex(seed) && |seed| == 32 && k <= |ops| && forall op <- ops :: Generated(op)
    ensures Within(Execute(seed, ParseAll(ops[..k]), sha), 32 * Pow2(k))
  {
    HexIsAscii(seed);
    assert forall op <- ops[..k] :: op in ops;
    ParseAllGenerated(ops[..k]);
    PrefixRuns(seed, ParseAll(ops[..k]), sha, 32);
    DoubledIs(32, k);
  }

  // ---- composition and inverses ----

  /** Running a concatenated list of operations is running one list after the other. */
  lemma {:induction false} Composition(seed: string, ops: seq<Op>, more: seq<Op>, sha: Sha256)
    requires IsAscii(seed)
    ensures Execute(seed, ops + more, sha)
         == match Execute(seed, ops, sha)
            case None => None
            case Some(Err(f)) => Some(Err(f))
            case Some(Ok(s)) => if IsAscii(s) then Execute(s, more, sha) else None
    decreases |ops|
  {
    if ops == [] {
      assert ops + more == more;
    } else {
      assert (ops + more)[0] == ops[0] && (ops + more)[1..] == ops[1..] + more;
      match ApplyOp(ops[0], seed, sha)
      case Err(_) =>
      case Ok(s) =>
        if IsAscii(s) {
          Composition(s, ops[1..], more, sha);
        }
    }
  }

  lemma TwoSteps(s: string, op1: Op, op2: Op, sha: Sha256)
    requires IsAscii(s) && ApplyOp(op1, s, sha).Ok? && IsAscii(ApplyOp(op1, s, sha).value)
    requires ApplyOp(op2, ApplyOp(op1, s, sha).value, sha) == Ok(s)
    ensures Execute(s, [op1, op2], sha) == Some(Ok(s))
  {
    var r := ApplyOp(op1, s, sha).value;
    assert [op1, op2][1..] == [op2];
    OneStep(r, op2, sha);
  }

  lemma OneStep(s: string, op: Op, sha: Sha256)
    requires IsAscii(s)
    ensures Execute(s, [op], sha)
         == match ApplyOp(op, s, sha)
            case Err(f) => Some(Err(f))
            case Ok(r) => if IsAscii(r) then Some(Ok(r)) else None
  {
    assert [op][1..] == [];
  }

  lemma ReverseTwice(s: string, sha: Sha256)
    requires IsAscii(s)
    ensures Execute(s, [Reverse, Reverse], sha) == Some(Ok(s))
  {
    assert Reversed(Reversed(s)) == s;
    TwoSteps(s, Reverse, Reverse, sha);
  }

  lemma Rot13Inverse(c: char)
    requires c as int < 128
    ensures Rot13Char(Rot13Char(c)) == c && Rot13Char(c) as int < 128
  {
    if 'A' <= c <= 'Z' {
      TurnTwice(c as int - 'A' as int);
    } else if 'a' <= c <= 'z' {
      TurnTwice(c as int - 'a' as int);
    }
  }

  lemma TurnTwice(n: nat)
    requires n < 26
    ensures ((n + 13) % 26 + 13) % 26 == n
  {
  }

  lemma Rot13Twice(s: string, sha: Sha256)
    requires IsAscii(s)
    ensures Execute(s, [Rot13, Rot13], sha) == Some(Ok(s))
  {
    var r := MapChars(s, Rot13Char);
    forall i | 0 <= i < |s| ensures MapChars(r, Rot13Char)[i] == s[i] && r[i] as int < 128 {
      Rot13Inverse(s[i]);
    }
    assert MapChars(r, Rot13Char) == s;
    TwoSteps(s, Rot13, Rot13, sha);
  }

  lemma SextetInverse(n: nat)
    requires n < 64
    ensures SextetValue(Sextet(n)) == Some(n)
  {
  }

  lemma {:induction false} NoBreaks(t: string)
    requires IsBreakFree(t)
    ensures WithoutBreaks(t) == t
  {
    if t != [] {
      NoBreaks(t[1..]);
      assert t == [t[0]] + t[1..];
    }
  }

  /** A line break in the text makes no difference. */
  lemma {:induction false} BreaksSkipped(x: string, c: char, y: string)
    requires c == '\r' || c == '\n'
    ensures WithoutBreaks(x + [c] + y) == WithoutBreaks(x + y)
  {
    if x == [] {
      assert x + [c] + y == [c] + y && x + y == y;
      assert ([c] + y)[1..] == y;
    } else {
      assert (x + [c] + y)[1..] == x[1..] + [c] + y && (x + y)[1..] == x[1..] + y;
      BreaksSkipped(x[1..], c, y);
    }
  }

  /** The bits of three bytes, cut into four sextets and put together again. */
  lemma SextetBits(x: nat, y: nat, z: nat)
    requires x < 256 && y < 256 && z < 256
    ensures var a, b, c, d := x / 4, x % 4 * 16 + y / 16, y % 16 * 4 + z / 64, z % 64;
            && a < 64 && b < 64 && c < 64
            && a * 4 + b / 16 == x && b % 16 * 16 + c / 4 == y && c % 4 * 64 + d == z
  {
  }

  lemma QuantumInverse(s: string)
    requires IsAscii(s) && 1 <= |s| <= 3
    ensures DecodeQuantum(Quantum(s)) == Some(s)
  {
    if |s| == 1 {
      QuantumOfOne(s[0]);
      assert s == [s[0]];
    } else if |s| == 2 {
      QuantumOfTwo(s[0], s[1]);
      assert s == [s[0], s[1]];
    } else {
      QuantumOfThree(s[0], s[1], s[2]);
      assert s == [s[0], s[1], s[2]];
    }
  }

  lemma QuantumOfOne(x: char)
    requires x as int < 128
    ensures DecodeQuantum(Quantum([x])) == Some([x])
  {
    SextetBits(x as int, 0, 0);
    SextetInverse(x as int / 4);
    SextetInverse(x as int % 4 * 16);
  }

  lemma QuantumOfTwo(x: char, y: char)
    requires x as int < 128 && y as int < 128
    ensures DecodeQuantum(Quantum([x, y])) == Some([x, y])
  {
    SextetBits(x as int, y as int, 0);
    SextetInverse(x as int / 4);
    SextetInverse(x as int % 4 * 16 + y as int / 16);
    SextetInverse(y as int % 16 * 4);
  }

  lemma DecodeFour(a: nat, b: nat, c: nat, d: nat)
    requires a < 64 && b < 64 && c < 64 && d < 64 && a * 4 + b / 16 < 128
    requires b % 16 * 16 + c / 4 < 128 && c % 4 * 64 + d < 128
    ensures DecodeQuantum([Sextet(a), Sextet(b), Sextet(c), Sextet(d)])
         == Some([(a * 4 + b / 16) as char, (b % 16 * 16 + c / 4) as char, (c % 4 * 64 + d) as char])
  {
    SextetInverse(a);
    SextetInverse(b);
    SextetInverse(c);
    SextetInverse(d);
  }

  lemma QuantumOfThree(x: char, y: char, z: char)
    requires x as int < 128 && y as int < 128 && z as int < 128
    ensures DecodeQuantum(Quantum([x, y, z])) == Some([x, y, z])
  {
    var a, b, c, d := x as int / 4, x as int % 4 * 16 + y as int / 16, y as int % 16 * 4 + z as int / 64, z as int % 64;
    SextetBits(x as int, y as int, z as int);
    DecodeFour(a, b, c, d);
    assert Quantum([x, y, z]) == [Sextet(a), Sextet(b), Sextet(c), Sextet(d)];
  }

  /** Decoding undoes encoding. */
  lemma {:induction false} DecodeEncode(s: string)
    requires IsAscii(s)
    ensures DecodeQuanta(EncodeBase64(s)) == Ok(s)
  {
    if s == [] {
    } else if |s| <= 3 {
      QuantumInverse(s);
      assert Quantum(s)[..4] == Quantum(s) && Quantum(s)[4..] == [] && s + [] == s;
    } else {
      QuantumInverse(s[..3]);
      DecodeEncode(s[3..]);
      var t := EncodeBase64(s);
      assert t[..4] == Quantum(s[..3]) && t[4..] == EncodeBase64(s[3..]);
      assert s == s[..3] + s[3..];
    }
  }

  lemma Base64Inverse(s: string, sha: Sha256)
    requires IsAscii(s)
    ensures Execute(s, [Base64Encode, Base64Decode], sha) == Some(Ok(s))
  {
    NoBreaks(EncodeBase64(s));
    DecodeEncode(s);
    TwoSteps(s, Base64Encode, Base64Decode, sha);
  }
}
