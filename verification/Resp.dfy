/** The RESP2 wire format: values, printer, parser, and how the two fit together. */
module Resp {
  import opened Base
  import opened Decimal

  datatype Resp =
    | SimpleString(text: Bytes)
    | ErrorString(message: Bytes)
    | Integer(number: int)
    | BulkString(bytes: Bytes)
    | NilBulk
    | Array(items: seq<Resp>)
    | NilArray
    | Null

  const STAR: byte := 42
  const DOLLAR: byte := 36
  const COLON: byte := 58

  // ----- Printer -----

  function Encode(v: Resp): (b: Bytes)
    ensures |b| > 0
    decreases v, 1
  {
    match v
    case SimpleString(s) => [PLUS] + s + CRLF
    case ErrorString(s) => [MINUS] + s + CRLF
    case Integer(n) => [COLON] + Itoa(n) + CRLF
    case BulkString(s) => [DOLLAR] + Itoa(|s|) + CRLF + s + CRLF
    case NilBulk => [DOLLAR] + Itoa(-1) + CRLF
    case Array(items) => [STAR] + Itoa(|items|) + CRLF + EncodeItems(items)
    case NilArray => [STAR] + Itoa(0) + CRLF
    case Null => [DOLLAR] + Itoa(-1) + CRLF
  }

  function EncodeItems(items: seq<Resp>): Bytes
    decreases items, 0
  {
    if items == [] then [] else Encode(items[0]) + EncodeItems(items[1..])
  }

  // ----- Header scanner: fmt.Fscanf(reader, "%d\r\n", &n) -----

  datatype Scan = Scanned(number: int, rest: Bytes) | ScanFailed

  /** White space other than the newline. */
  predicate IsBlank(c: byte) {
    c == 32 || c == 9 || 11 <= c <= 13
  }

  function SkipBlanks(b: Bytes): (r: Bytes)
    ensures |r| <= |b|
  {
    if b != [] && IsBlank(b[0]) then SkipBlanks(b[1..]) else b
  }

  function DigitRun(b: Bytes): (k: nat)
    ensures k <= |b| && AllDigits(b[..k])
    ensures k < |b| ==> !IsDigit(b[k])
  {
    if b != [] && IsDigit(b[0]) then 1 + DigitRun(b[1..]) else 0
  }

  /** Blanks, a sign, digits, blanks, then a newline or the end of the input. */
  function ScanHeader(b: Bytes): (r: Scan)
    ensures r.Scanned? ==> |r.rest| <= |b| && InInt64(r.number)
  {
    var start := SkipBlanks(b);
    var sign := SignLength(start);
    var run := DigitRun(start[sign..]);
    EndHeader(Atoi(start[..sign + run]), start[sign + run..])
  }

  function EndHeader(number: Option<int>, after: Bytes): (r: Scan)
    ensures r.Scanned? ==> number == Some(r.number) && |r.rest| <= |after|
  {
    var tail := SkipBlanks(after);
    if number.None? then ScanFailed
    else if tail == [] then Scanned(number.value, [])
    else if tail[0] == LF then Scanned(number.value, tail[1..])
    else ScanFailed
  }

  // ----- Parser -----

  /** Panicked stands for the run-time panics of make and of slice expressions. */
  datatype Parse<+T> = Parsed(value: T, rest: Bytes) | Failed | Panicked

  /** The index of the first newline, or the length when there is none. */
  function LineLength(b: Bytes): (k: nat)
    ensures k <= |b|
    ensures forall i :: 0 <= i < k ==> b[i] != LF
    ensures k < |b| ==> b[k] == LF
  {
    if b == [] || b[0] == LF then 0 else 1 + LineLength(b[1..])
  }

  /** ReadString('\n'), then the line without its last two bytes. */
  function ParseLine(b: Bytes): (r: Parse<Bytes>)
    ensures r.Parsed? ==> |r.rest| < |b|
  {
    var k := LineLength(b);
    if k == |b| then Failed
    else if k == 0 then Panicked
    else Parsed(b[..k - 1], b[k + 1..])
  }

  function ParseBulk(b: Bytes): (r: Parse<Resp>)
    ensures r.Parsed? ==> |r.rest| <= |b|
  {
    match ScanHeader(b)
    case ScanFailed => Failed
    case Scanned(n, rest) =>
      if n == -1 then Parsed(NilBulk, rest)
      else if n < 0 || n > MAX_INT64 - 2 then Panicked
      else if |rest| < n + 2 then Failed
      else Parsed(BulkString(rest[..n]), rest[n + 2..])
  }

  function TextOf(r: Parse<Bytes>, error: bool): Parse<Resp> {
    match r
    case Parsed(s, rest) => Parsed(if error then ErrorString(s) else SimpleString(s), rest)
    case Failed => Failed
    case Panicked => Panicked
  }

  function NumberOf(r: Scan): Parse<Resp> {
    match r
    case Scanned(n, rest) => Parsed(Integer(n), rest)
    case ScanFailed => Failed
  }

  function ParseValue(b: Bytes): (r: Parse<Resp>)
    ensures r.Parsed? ==> |r.rest| < |b|
    decreases |b|, 0
  {
    if b == [] then Failed
    else if b[0] == PLUS then TextOf(ParseLine(b[1..]), false)
    else if b[0] == MINUS then TextOf(ParseLine(b[1..]), true)
    else if b[0] == COLON then NumberOf(ScanHeader(b[1..]))
    else if b[0] == DOLLAR then ParseBulk(b[1..])
    else if b[0] == STAR then ParseArray(b[1..])
    else Failed
  }

  function ArrayOf(r: Parse<seq<Resp>>): Parse<Resp> {
    match r
    case Parsed(items, rest) => Parsed(Array(items), rest)
    case Failed => Failed
    case Panicked => Panicked
  }

  function ParseArray(b: Bytes): (r: Parse<Resp>)
    ensures r.Parsed? ==> |r.rest| <= |b|
    decreases |b|, 2
  {
    match ScanHeader(b)
    case ScanFailed => Failed
    case Scanned(n, rest) =>
      if n == -1 then Parsed(NilArray, rest)
      else if n < 0 then Panicked
      else
        ArrayOf(ParseItems(n, rest))
  }

  function Prepend(v: Resp, r: Parse<seq<Resp>>): Parse<seq<Resp>> {
    match r
    case Parsed(vs, rest) => Parsed([v] + vs, rest)
    case Failed => Failed
    case Panicked => Panicked
  }

  function ParseItems(n: nat, b: Bytes): (r: Parse<seq<Resp>>)
    ensures r.Parsed? ==> |r.rest| <= |b| && |r.value| == n
    decreases |b|, 1
  {
    if n == 0 then Parsed([], b)
    else
      match ParseValue(b)
      case Failed => Failed
      case Panicked => Panicked
      case Parsed(v, rest) => Prepend(v, ParseItems(n - 1, rest))
  }

  // ----- What a value turns into on the wire -----

  /** RESP2 has one null: the nil bulk string; a nil array is printed as an empty one. */
  function Norm(v: Resp): Resp
    decreases v, 1
  {
    match v
    case Null => NilBulk
    case NilArray => Array([])
    case Array(items) => Array(NormItems(items))
    case _ => v
  }

  function NormItems(items: seq<Resp>): (r: seq<Resp>)
    ensures |r| == |items|
    decreases items, 0
  {
    if items == [] then [] else [Norm(items[0])] + NormItems(items[1..])
  }

  /** What Go's types already guarantee: 64-bit integers and lengths. */
  predicate Representable(v: Resp)
    decreases v, 1
  {
    match v
    case Integer(n) => InInt64(n)
    case BulkString(s) => |s| <= MAX_INT64 - 2
    case Array(items) => |items| <= MAX_INT64 && RepresentableItems(items)
    case _ => true
  }

  predicate RepresentableItems(items: seq<Resp>)
    decreases items, 0
  {
    items != [] ==> Representable(items[0]) && RepresentableItems(items[1..])
  }

  /** No simple or error string contains a newline. */
  predicate LineSafe(v: Resp)
    decreases v, 1
  {
    match v
    case SimpleString(s) => LF !in s
    case ErrorString(s) => LF !in s
    case Array(items) => LineSafeItems(items)
    case _ => true
  }

  predicate LineSafeItems(items: seq<Resp>)
    decreases items, 0
  {
    items != [] ==> LineSafe(items[0]) && LineSafeItems(items[1..])
  }

  // ----- Scanning what was printed -----

  lemma {:induction false} DigitRunOfDigits(s: Bytes, rest: Bytes)
    requires AllDigits(s) && (rest == [] || !IsDigit(rest[0]))
    ensures DigitRun(s + rest) == |s|
  {
    if s == [] {
      assert s + rest == rest;
    } else {
      assert (s + rest)[1..] == s[1..] + rest;
      DigitRunOfDigits(s[1..], rest);
    }
  }

  /** The scanner on a sign-and-digits token followed by something that is not a digit. */
  lemma ScanToken(token: Bytes, after: Bytes)
    requires token != [] && !IsBlank(token[0])
    requires AllDigits(token[SignLength(token)..])
    requires after == [] || !IsDigit(after[0])
    ensures ScanHeader(token + after) == EndHeader(Atoi(token), after)
  {
    var b := token + after;
    var sign := SignLength(token);
    assert SkipBlanks(b) == b && SignLength(b) == sign;
    assert b[sign..] == token[sign..] + after;
    DigitRunOfDigits(token[sign..], after);
    assert b[..|token|] == token && b[|token|..] == after;
  }

  lemma ItoaToken(n: int)
    ensures var s := Itoa(n);
            s != [] && !IsBlank(s[0]) && AllDigits(s[SignLength(s)..]) && |s| > SignLength(s)
  {
    if n < 0 {
      assert Itoa(n)[1..] == Digits(-n);
    }
  }

  lemma EndCRLF(n: int, rest: Bytes)
    ensures EndHeader(Some(n), CRLF + rest) == Scanned(n, rest)
  {
    var after := CRLF + rest;
    assert after[1..] == [LF] + rest && ([LF] + rest)[1..] == rest;
    assert SkipBlanks(after) == SkipBlanks([LF] + rest) == [LF] + rest;
  }

  lemma ScanItoa(n: int, rest: Bytes)
    requires InInt64(n)
    ensures ScanHeader(Itoa(n) + CRLF + rest) == Scanned(n, rest)
  {
    ItoaToken(n);
    AtoiItoa(n);
    assert Itoa(n) + CRLF + rest == Itoa(n) + (CRLF + rest);
    ScanToken(Itoa(n), CRLF + rest);
    EndCRLF(n, rest);
  }

  lemma {:induction false} LineLengthOf(s: Bytes, rest: Bytes)
    requires LF !in s
    ensures LineLength(s + [LF] + rest) == |s|
  {
    var b := s + [LF] + rest;
    if s != [] {
      assert b[0] == s[0] && b[1..] == s[1..] + [LF] + rest;
      LineLengthOf(s[1..], rest);
    }
  }

  lemma ParsePrintedLine(s: Bytes, rest: Bytes)
    requires LF !in s
    ensures ParseLine(s + CRLF + rest) == Parsed(s, rest)
  {
    var b := s + CRLF + rest;
    assert b == (s + [CR]) + [LF] + rest;
    LineLengthOf(s + [CR], rest);
    assert b[..|s|] == s && b[|s| + 2..] == rest;
  }

  /** A newline inside the text ends the line early, so the text read back is shorter. */
  lemma ParseCutLine(s: Bytes, rest: Bytes)
    requires LF in s
    ensures var r := ParseLine(s + CRLF + rest); r.Panicked? || (r.Parsed? && |r.value| < |s|)
  {
    var b := s + CRLF + rest;
    var i :| 0 <= i < |s| && s[i] == LF;
    assert b[i] == LF;
  }

  // ----- The parser, one byte or one item at a time -----

  lemma ParsePlus(b: Bytes)
    ensures ParseValue([PLUS] + b) == TextOf(ParseLine(b), false)
  {
    hide ParseLine, ScanHeader, ParseBulk, ParseArray;
    assert ([PLUS] + b)[1..] == b;
  }

  lemma ParseMinus(b: Bytes)
    ensures ParseValue([MINUS] + b) == TextOf(ParseLine(b), true)
  {
    hide ParseLine, ScanHeader, ParseBulk, ParseArray;
    assert ([MINUS] + b)[1..] == b;
  }

  lemma ParseColon(b: Bytes)
    ensures ParseValue([COLON] + b) == NumberOf(ScanHeader(b))
  {
    hide ParseLine, ScanHeader, ParseBulk, ParseArray;
    assert ([COLON] + b)[1..] == b;
  }

  lemma ParseDollar(b: Bytes)
    ensures ParseValue([DOLLAR] + b) == ParseBulk(b)
  {
    hide ParseLine, ScanHeader, ParseBulk, ParseArray;
    assert ([DOLLAR] + b)[1..] == b;
  }

  lemma ParseStar(b: Bytes)
    ensures ParseValue([STAR] + b) == ParseArray(b)
  {
    hide ParseLine, ScanHeader, ParseBulk, ParseArray;
    assert ([STAR] + b)[1..] == b;
  }

  lemma ParseNone(b: Bytes)
    ensures ParseItems(0, b) == Parsed([], b)
  {
  }

  lemma ParseFirst(n: nat, b: Bytes, v: Resp, rest: Bytes)
    requires ParseValue(b) == Parsed(v, rest)
    ensures ParseItems(n + 1, b) == Prepend(v, ParseItems(n, rest))
  {
    hide ParseValue;
  }

  lemma ParseFirstFails(n: nat, b: Bytes)
    requires !ParseValue(b).Parsed?
    ensures ParseItems(n + 1, b) == if ParseValue(b).Failed? then Failed else Panicked
  {
    hide ParseValue;
  }

  // ----- Round trip -----

  lemma PrintedText(s: Bytes, rest: Bytes)
    requires LF !in s
    ensures ParseValue(Encode(SimpleString(s)) + rest) == Parsed(SimpleString(s), rest)
    ensures ParseValue(Encode(ErrorString(s)) + rest) == Parsed(ErrorString(s), rest)
  {
    hide ParseValue, ParseLine;
    ParsePrintedLine(s, rest);
    ParsePlus(s + CRLF + rest);
    ParseMinus(s + CRLF + rest);
    assert Encode(SimpleString(s)) + rest == [PLUS] + (s + CRLF + rest);
    assert Encode(ErrorString(s)) + rest == [MINUS] + (s + CRLF + rest);
  }

  lemma PrintedNumber(n: int, rest: Bytes)
    requires InInt64(n)
    ensures ParseValue(Encode(Integer(n)) + rest) == Parsed(Integer(n), rest)
  {
    hide ParseValue, ScanHeader, Itoa;
    ScanItoa(n, rest);
    ParseColon(Itoa(n) + CRLF + rest);
    assert Encode(Integer(n)) + rest == [COLON] + (Itoa(n) + CRLF + rest);
  }

  lemma PrintedNil(rest: Bytes)
    ensures ParseValue(Encode(NilBulk) + rest) == Parsed(NilBulk, rest)
  {
    hide ParseValue, ScanHeader, Itoa;
    ScanItoa(-1, rest);
    ParseDollar(Itoa(-1) + CRLF + rest);
    assert Encode(NilBulk) + rest == [DOLLAR] + (Itoa(-1) + CRLF + rest);
  }

  lemma PrintedLength(s: Bytes, rest: Bytes)
    requires |s| <= MAX_INT64 - 2
    ensures ParseBulk(Itoa(|s|) + CRLF + (s + CRLF + rest)) == Parsed(BulkString(s), rest)
  {
    hide ScanHeader, Itoa;
    var body := s + CRLF + rest;
    ScanItoa(|s|, body);
    assert body[..|s|] == s && body[|s| + 2..] == rest;
  }

  lemma PrintedBulk(s: Bytes, rest: Bytes)
    requires |s| <= MAX_INT64 - 2
    ensures ParseValue(Encode(BulkString(s)) + rest) == Parsed(BulkString(s), rest)
  {
    hide ParseValue, ParseBulk, Itoa;
    var body := s + CRLF + rest;
    PrintedLength(s, rest);
    ParseDollar(Itoa(|s|) + CRLF + body);
    assert Encode(BulkString(s)) + rest == [DOLLAR] + (Itoa(|s|) + CRLF + body);
  }

  /** The parser on an array header followed by anything. */
  lemma PrintedArrayHeader(n: nat, body: Bytes)
    requires n <= MAX_INT64
    ensures ParseValue([STAR] + Itoa(n) + CRLF + body) == ArrayOf(ParseItems(n, body))
  {
    hide ParseValue, ParseItems, ScanHeader, Itoa;
    ScanItoa(n, body);
    ParseStar(Itoa(n) + CRLF + body);
    assert [STAR] + Itoa(n) + CRLF + body == [STAR] + (Itoa(n) + CRLF + body);
  }

  /** Printing and parsing back gives the normal form and consumes exactly the printed bytes. */
  lemma {:induction false} RoundTrip(v: Resp, rest: Bytes)
    requires Representable(v) && LineSafe(v)
    ensures ParseValue(Encode(v) + rest) == Parsed(Norm(v), rest)
    decreases v, 1
  {
    hide ParseValue, ParseItems, Itoa;
    match v
    case SimpleString(s) => PrintedText(s, rest);
    case ErrorString(s) => PrintedText(s, rest);
    case Integer(n) => PrintedNumber(n, rest);
    case BulkString(s) => PrintedBulk(s, rest);
    case NilBulk => PrintedNil(rest);
    case Null => PrintedNil(rest);
    case NilArray =>
      PrintedArrayHeader(0, rest);
      ParseNone(rest);
    case Array(items) =>
      assert Encode(v) + rest == [STAR] + Itoa(|items|) + CRLF + (EncodeItems(items) + rest);
      PrintedArrayHeader(|items|, EncodeItems(items) + rest);
      RoundTripItems(items, rest);
  }

  lemma {:induction false} RoundTripItems(items: seq<Resp>, rest: Bytes)
    requires RepresentableItems(items) && LineSafeItems(items)
    ensures ParseItems(|items|, EncodeItems(items) + rest) == Parsed(NormItems(items), rest)
    decreases items, 0
  {
    hide ParseValue, Encode;
    if items == [] {
      assert EncodeItems(items) + rest == rest;
    } else {
      var tail := EncodeItems(items[1..]) + rest;
      assert EncodeItems(items) + rest == Encode(items[0]) + tail;
      RoundTrip(items[0], tail);
      RoundTripItems(items[1..], rest);
      ParseFirst(|items| - 1, Encode(items[0]) + tail, Norm(items[0]), tail);
    }
  }

  /** With a newline inside some simple or error string, the value read back is a different one. */
  lemma {:induction false} UnsafeChanges(v: Resp, rest: Bytes)
    requires Representable(v) && !LineSafe(v)
    ensures var r := ParseValue(Encode(v) + rest); r.Parsed? ==> r.value != Norm(v)
    decreases v, 1
  {
    hide ParseValue, ParseItems, ParseLine, Itoa;
    match v
    case SimpleString(s) =>
      assert Encode(v) + rest == [PLUS] + (s + CRLF + rest);
      ParsePlus(s + CRLF + rest);
      ParseCutLine(s, rest);
    case ErrorString(s) =>
      assert Encode(v) + rest == [MINUS] + (s + CRLF + rest);
      ParseMinus(s + CRLF + rest);
      ParseCutLine(s, rest);
    case Array(items) =>
      assert Encode(v) + rest == [STAR] + Itoa(|items|) + CRLF + (EncodeItems(items) + rest);
      PrintedArrayHeader(|items|, EncodeItems(items) + rest);
      UnsafeItemsChange(items, rest);
  }

  lemma PrependDiffers(v: Resp, vs: seq<Resp>, w: Resp, ws: seq<Resp>)
    requires v != w || vs != ws
    ensures [v] + vs != [w] + ws
  {
    assert ([v] + vs)[0] == v && ([w] + ws)[0] == w;
    assert ([v] + vs)[1..] == vs && ([w] + ws)[1..] == ws;
  }

  lemma {:induction false} UnsafeItemsChange(items: seq<Resp>, rest: Bytes)
    requires RepresentableItems(items) && !LineSafeItems(items)
    ensures var r := ParseItems(|items|, EncodeItems(items) + rest); r.Parsed? ==> r.value != NormItems(items)
    decreases items, 0
  {
    hide ParseValue, ParseItems, Encode;
    var n, tail := |items| - 1, EncodeItems(items[1..]) + rest;
    var b := Encode(items[0]) + tail;
    assert EncodeItems(items) + rest == b;
    if LineSafe(items[0]) {
      RoundTrip(items[0], tail);
      UnsafeItemsChange(items[1..], rest);
    } else {
      UnsafeChanges(items[0], tail);
    }
    match ParseValue(b)
    case Parsed(v, after) =>
      ParseFirst(n, b, v, after);
      var r := ParseItems(n, after);
      if r.Parsed? {
        PrependDiffers(v, r.value, Norm(items[0]), NormItems(items[1..]));
      }
    case _ => ParseFirstFails(n, b);
  }

  /** Exactly the newline-free values survive the wire. */
  lemma RoundTripExactly(v: Resp, rest: Bytes)
    requires Representable(v)
    ensures ParseValue(Encode(v) + rest) == Parsed(Norm(v), rest) <==> LineSafe(v)
  {
    if LineSafe(v) {
      RoundTrip(v, rest);
    } else {
      UnsafeChanges(v, rest);
    }
  }

  /** No encoding is a proper prefix of another, and equal encodings come from equal normal forms. */
  lemma PrefixFree(v: Resp, r: Bytes, w: Resp, s: Bytes)
    requires Representable(v) && LineSafe(v) && Representable(w) && LineSafe(w)
    requires Encode(v) + r == Encode(w) + s
    ensures Norm(v) == Norm(w) && r == s
  {
    RoundTrip(v, r);
    RoundTrip(w, s);
  }

  lemma {:induction false} EncodeOfNorm(v: Resp)
    ensures Encode(Norm(v)) == Encode(v)
    decreases v, 1
  {
    if v.Array? {
      EncodeOfNormItems(v.items);
    }
  }

  lemma {:induction false} EncodeOfNormItems(items: seq<Resp>)
    ensures EncodeItems(NormItems(items)) == EncodeItems(items)
    decreases items, 0
  {
    if items != [] {
      EncodeOfNorm(items[0]);
      EncodeOfNormItems(items[1..]);
      assert NormItems(items)[1..] == NormItems(items[1..]);
    }
  }

  /** Two values look the same on the wire exactly when their normal forms agree. */
  lemma SameEncoding(v: Resp, w: Resp)
    requires Representable(v) && LineSafe(v) && Representable(w) && LineSafe(w)
    ensures Encode(v) == Encode(w) <==> Norm(v) == Norm(w)
  {
    EncodeOfNorm(v);
    EncodeOfNorm(w);
    if Encode(v) == Encode(w) {
      PrefixFree(v, [], w, []);
    }
  }

  // ----- A stream of frames -----

  /** Everything that parses, up to the first failure. */
  function ParseStream(b: Bytes): seq<Resp>
    decreases |b|
  {
    match ParseValue(b)
    case Parsed(v, rest) => [v] + ParseStream(rest)
    case Failed => []
    case Panicked => []
  }

  lemma {:induction false} StreamRoundTrip(items: seq<Resp>)
    requires RepresentableItems(items) && LineSafeItems(items)
    ensures ParseStream(EncodeItems(items)) == NormItems(items)
  {
    if items != [] {
      RoundTrip(items[0], EncodeItems(items[1..]));
      StreamRoundTrip(items[1..]);
    }
  }
}
