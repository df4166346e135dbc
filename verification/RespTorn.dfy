/** What the parser makes of a frame that was cut short. */
module RespTorn {
  import opened Base
  import opened Decimal
  import opened Resp

  /** The frame ends with a header that has no body, so that the end of the input can stand for its newline. */
  predicate EndsInHeader(v: Resp)
    decreases v
  {
    match v
    case SimpleString(_) => false
    case ErrorString(_) => false
    case BulkString(_) => false
    case Array(items) => items == [] || EndsInHeader(items[|items| - 1])
    case _ => true
  }

  lemma {:induction false} NoNewlineSkip(b: Bytes)
    requires LF !in b
    ensures LF !in SkipBlanks(b)
  {
    if b != [] && IsBlank(b[0]) {
      NoNewlineSkip(b[1..]);
    }
  }

  lemma EndWithoutNewline(number: Option<int>, after: Bytes)
    requires LF !in after
    ensures EndHeader(number, after).Scanned? ==> EndHeader(number, after).rest == []
  {
    NoNewlineSkip(after);
  }

  /** Without a newline, a header is accepted only at the very end of the input. */
  lemma ScanWithoutNewline(b: Bytes)
    requires LF !in b
    ensures ScanHeader(b).Scanned? ==> ScanHeader(b).rest == []
  {
    NoNewlineSkip(b);
    var start := SkipBlanks(b);
    var sign := SignLength(start);
    var n := sign + DigitRun(start[sign..]);
    EndWithoutNewline(Atoi(start[..n]), start[n..]);
  }

  /** A header that lost its line end: the end of the input takes its place. */
  lemma ScanCut(token: Bytes)
    requires token != [] && !IsBlank(token[0]) && AllDigits(token[SignLength(token)..])
    ensures ScanHeader(token) == EndHeader(Atoi(token), [])
    ensures ScanHeader(token + [CR]) == EndHeader(Atoi(token), [])
  {
    ScanToken(token, []);
    assert token + [] == token;
    ScanToken(token, [CR]);
    assert SkipBlanks([CR]) == [];
  }

  lemma CutDigits(s: Bytes, j: nat)
    requires AllDigits(s) && 0 < j <= |s| && InInt64(Magnitude(s))
    ensures Atoi(s[..j]) == Some(Magnitude(s[..j])) && Magnitude(s[..j]) <= Magnitude(s)
    ensures s[0] != 48 ==> Magnitude(s[..j]) > 0
  {
    PrefixMagnitude(s, j);
    assert s[..j][0..] == s[..j];
    if s[0] != 48 {
      LeadingDigitPositive(s[..j]);
    }
  }

  /** A cut header still reads as a number: some leading digits of the original. */
  lemma TornHeader(n: nat, j: nat)
    requires InInt64(n) && j < |Itoa(n)| + 2
    ensures var r := ScanHeader((Itoa(n) + CRLF)[..j]);
            if j == 0 then r == ScanFailed
            else r.Scanned? && r.rest == [] && 0 <= r.number <= n && (n > 0 ==> r.number > 0)
  {
    var s := Itoa(n);
    MagnitudeOfDigits(n);
    if j > |s| {
      assert (s + CRLF)[..j] == s + [CR];
      CutDigits(s, |s|);
      assert s[..|s|] == s;
      ScanCut(s);
    } else if j > 0 {
      assert (s + CRLF)[..j] == s[..j];
      CutDigits(s, j);
      ScanCut(s[..j]);
    }
  }

  lemma TornMinusOne(j: nat)
    requires j < 4
    ensures ScanHeader((Itoa(-1) + CRLF)[..j]) == if j < 2 then ScanFailed else Scanned(-1, [])
  {
    var s := Itoa(-1);
    assert s == [MINUS, 49];
    AtoiItoa(-1);
    if j == 1 {
      assert (s + CRLF)[..j] == [MINUS];
      ScanCut([MINUS]);
    } else if j == 2 {
      assert (s + CRLF)[..j] == s;
      ScanCut(s);
    } else if j == 3 {
      assert (s + CRLF)[..j] == s + [CR];
      ScanCut(s);
    }
  }

  // ----- One lemma per shape: a cut frame fails, or is accepted whole with nothing left over -----

  ghost predicate CutOutcome(v: Resp, r: Parse<Resp>) {
    r.Failed? || (r.Parsed? && r.rest == [] && EndsInHeader(v))
  }

  lemma ParseNothing()
    ensures ParseValue([]) == Failed
  {
  }

  /** A non-empty cut of a frame is its type byte followed by a cut of the rest. */
  lemma CutFrame(c: byte, b: Bytes, k: nat)
    requires 0 < k <= |b| + 1
    ensures ([c] + b)[..k] == [c] + b[..k - 1]
  {
  }

  lemma CutLater(a: Bytes, b: Bytes, k: nat)
    requires |a| <= k <= |a| + |b|
    ensures (a + b)[..k] == a + b[..k - |a|]
  {
  }

  lemma CutLine(s: Bytes, j: nat)
    requires LF !in s && j < |s| + 2
    ensures ParseLine((s + CRLF)[..j]) == Failed
  {
    var line := (s + CRLF)[..j];
    assert LF !in line;
    assert LineLength(line) == |line|;
  }

  lemma TornText(s: Bytes, k: nat)
    requires LF !in s && k < |s| + 3
    ensures ParseValue(Encode(SimpleString(s))[..k]) == Failed
    ensures ParseValue(Encode(ErrorString(s))[..k]) == Failed
  {
    hide ParseValue, ParseLine;
    ParseNothing();
    if k > 0 {
      assert Encode(SimpleString(s)) == [PLUS] + (s + CRLF);
      assert Encode(ErrorString(s)) == [MINUS] + (s + CRLF);
      CutFrame(PLUS, s + CRLF, k);
      CutFrame(MINUS, s + CRLF, k);
      ParsePlus((s + CRLF)[..k - 1]);
      ParseMinus((s + CRLF)[..k - 1]);
      CutLine(s, k - 1);
    }
  }

  lemma TornInteger(n: int, k: nat)
    requires InInt64(n) && k < |Encode(Integer(n))|
    ensures CutOutcome(Integer(n), ParseValue(Encode(Integer(n))[..k]))
  {
    hide ParseValue, ScanHeader;
    ParseNothing();
    if k > 0 {
      var b := (Itoa(n) + CRLF)[..k - 1];
      assert Encode(Integer(n)) == [COLON] + (Itoa(n) + CRLF);
      CutFrame(COLON, Itoa(n) + CRLF, k);
      ParseColon(b);
      ItoaToken(n);
      assert LF !in Itoa(n);
      assert LF !in b;
      ScanWithoutNewline(b);
    }
  }

  lemma TornNil(k: nat)
    requires k < |Encode(NilBulk)|
    ensures CutOutcome(NilBulk, ParseValue(Encode(NilBulk)[..k]))
  {
    hide ParseValue, ScanHeader;
    ParseNothing();
    if k > 0 {
      var s := Itoa(-1);
      assert s == [MINUS, 49];
      assert Encode(NilBulk) == [DOLLAR] + (s + CRLF);
      CutFrame(DOLLAR, s + CRLF, k);
      ParseDollar((s + CRLF)[..k - 1]);
      TornMinusOne(k - 1);
    }
  }

  lemma TornBulkHeader(n: nat, j: nat)
    requires n <= MAX_INT64 - 2 && j < |Itoa(n)| + 2
    ensures ParseBulk((Itoa(n) + CRLF)[..j]) == Failed
  {
    hide ScanHeader, Itoa;
    TornHeader(n, j);
  }

  lemma TornBulkBody(s: Bytes, j: nat)
    requires |s| <= MAX_INT64 - 2 && j < |s| + 2
    ensures ParseBulk(Itoa(|s|) + CRLF + (s + CRLF)[..j]) == Failed
  {
    hide ScanHeader, Itoa;
    ScanItoa(|s|, (s + CRLF)[..j]);
  }

  lemma TornBulk(s: Bytes, k: nat)
    requires |s| <= MAX_INT64 - 2 && k < |Encode(BulkString(s))|
    ensures ParseValue(Encode(BulkString(s))[..k]) == Failed
  {
    hide ParseValue, ParseBulk, Itoa;
    ParseNothing();
    var header, body := Itoa(|s|) + CRLF, s + CRLF;
    assert Encode(BulkString(s)) == [DOLLAR] + (header + body);
    if k > 0 {
      CutFrame(DOLLAR, header + body, k);
      ParseDollar((header + body)[..k - 1]);
      if k - 1 < |header| {
        assert (header + body)[..k - 1] == header[..k - 1];
        TornBulkHeader(|s|, k - 1);
      } else {
        CutLater(header, body, k - 1);
        TornBulkBody(s, k - 1 - |header|);
      }
    }
  }

  lemma ItemsOfNothing(n: nat)
    ensures ParseItems(n, []) == if n == 0 then Parsed([], []) else Failed
  {
    if n > 0 {
      assert ParseValue([]) == Failed;
      ParseFirstFails(n - 1, []);
    }
  }

  lemma TornCount(n: nat, j: nat)
    requires InInt64(n) && j < |Itoa(n)| + 2
    ensures var r := ParseArray((Itoa(n) + CRLF)[..j]);
            r == Failed || (n == 0 && r == Parsed(Array([]), []))
  {
    hide ScanHeader, ParseItems, Itoa;
    TornHeader(n, j);
    var r := ScanHeader((Itoa(n) + CRLF)[..j]);
    if r.Scanned? {
      ItemsOfNothing(r.number);
    }
  }

  lemma TornArrayHeader(n: nat, k: nat)
    requires InInt64(n) && k < |Itoa(n)| + 3
    ensures var r := ParseValue(([STAR] + Itoa(n) + CRLF)[..k]);
            r == Failed || (n == 0 && r == Parsed(Array([]), []))
  {
    hide ParseValue, ParseArray, Itoa;
    var header := Itoa(n) + CRLF;
    assert [STAR] + Itoa(n) + CRLF == [STAR] + header;
    if k == 0 {
      ParseNothing();
    } else {
      CutFrame(STAR, header, k);
      ParseStar(header[..k - 1]);
      TornCount(n, k - 1);
    }
  }

  lemma {:induction false} Torn(v: Resp, k: nat)
    requires Representable(v) && LineSafe(v) && k < |Encode(v)|
    ensures CutOutcome(v, ParseValue(Encode(v)[..k]))
    decreases v, 1
  {
    hide ParseValue, Itoa;
    match v
    case SimpleString(s) => TornText(s, k);
    case ErrorString(s) => TornText(s, k);
    case Integer(n) => TornInteger(n, k);
    case BulkString(s) => TornBulk(s, k);
    case NilBulk => TornNil(k);
    case Null => TornNil(k);
    case NilArray => TornArrayHeader(0, k);
    case Array(items) => TornArray(items, k);
  }

  lemma {:induction false} TornArray(items: seq<Resp>, k: nat)
    requires Representable(Array(items)) && LineSafe(Array(items)) && k < |Encode(Array(items))|
    ensures CutOutcome(Array(items), ParseValue(Encode(Array(items))[..k]))
    decreases items, 1
  {
    hide ParseValue, ParseItems, EncodeItems, Itoa;
    var header, body := [STAR] + Itoa(|items|) + CRLF, EncodeItems(items);
    assert Encode(Array(items)) == header + body;
    if k < |header| {
      assert (header + body)[..k] == header[..k];
      TornArrayHeader(|items|, k);
    } else {
      CutLater(header, body, k);
      PrintedArrayHeader(|items|, body[..k - |header|]);
      TornItems(items, k - |header|);
    }
  }

  ghost predicate CutItemsOutcome(items: seq<Resp>, r: Parse<seq<Resp>>) {
    r.Failed? || (r.Parsed? && r.rest == [] && (items == [] || EndsInHeader(items[|items| - 1])))
  }

  lemma {:induction false} TornItems(items: seq<Resp>, k: nat)
    requires RepresentableItems(items) && LineSafeItems(items) && k < |EncodeItems(items)|
    ensures CutItemsOutcome(items, ParseItems(|items|, EncodeItems(items)[..k]))
    decreases items, 0
  {
    hide ParseValue, ParseItems, Encode, Norm;
    if items != [] {
      var n, first, tail := |items| - 1, Encode(items[0]), EncodeItems(items[1..]);
      if k < |first| {
        assert (first + tail)[..k] == first[..k];
        Torn(items[0], k);
        var r := ParseValue(first[..k]);
        if r.Parsed? {
          ParseFirst(n, first[..k], r.value, r.rest);
          ItemsOfNothing(n);
        } else {
          ParseFirstFails(n, first[..k]);
        }
      } else {
        var cut := tail[..k - |first|];
        CutLater(first, tail, k);
        RoundTrip(items[0], cut);
        ParseFirst(n, first + cut, Norm(items[0]), cut);
        TornItems(items[1..], k - |first|);
      }
    }
  }

  // ----- The other direction: dropping only the last newline -----

  lemma DropLast(a: Bytes, b: Bytes)
    requires b != []
    ensures (a + b)[..|a + b| - 1] == a + b[..|b| - 1]
  {
  }

  lemma MissingNewlineInteger(n: int)
    requires InInt64(n)
    ensures var b := Encode(Integer(n)); ParseValue(b[..|b| - 1]) == Parsed(Integer(n), [])
  {
    hide ParseValue, ScanHeader, Itoa;
    assert Encode(Integer(n)) == [COLON] + Itoa(n) + CRLF;
    DropLast([COLON] + Itoa(n), CRLF);
    assert CRLF[..1] == [CR];
    assert [COLON] + Itoa(n) + [CR] == [COLON] + (Itoa(n) + [CR]);
    ParseColon(Itoa(n) + [CR]);
    AtoiItoa(n);
    ItoaToken(n);
    ScanCut(Itoa(n));
  }

  lemma MissingNewlineNil()
    ensures var b := Encode(NilBulk); ParseValue(b[..|b| - 1]) == Parsed(NilBulk, [])
  {
    hide ParseValue, ScanHeader;
    var s := Itoa(-1);
    assert s == [MINUS, 49];
    assert Encode(NilBulk) == [DOLLAR] + (s + CRLF);
    CutFrame(DOLLAR, s + CRLF, 4);
    ParseDollar((s + CRLF)[..3]);
    TornMinusOne(3);
  }

  lemma MissingNewlineEmpty()
    ensures var b := Encode(Array([])); ParseValue(b[..|b| - 1]) == Parsed(Array([]), [])
  {
    hide ParseValue, ScanHeader, ParseItems;
    var s := Itoa(0);
    assert s == [48];
    assert Encode(Array([])) == [STAR] + (s + CRLF);
    CutFrame(STAR, s + CRLF, 3);
    ParseStar((s + CRLF)[..2]);
    TornHeader(0, 2);
    ItemsOfNothing(0);
  }

  lemma MissingNewlineArray(items: seq<Resp>, normal: seq<Resp>)
    requires items != [] && |items| <= MAX_INT64 && EncodeItems(items) != []
    requires var b := EncodeItems(items); ParseItems(|items|, b[..|b| - 1]) == Parsed(normal, [])
    ensures var b := Encode(Array(items)); ParseValue(b[..|b| - 1]) == Parsed(Array(normal), [])
  {
    hide ParseValue, ParseItems, EncodeItems, Itoa;
    var b := EncodeItems(items);
    PrintedArrayHeader(|items|, b[..|b| - 1]);
    DropLast([STAR] + Itoa(|items|) + CRLF, b);
  }

  lemma {:induction false} MissingNewline(v: Resp)
    requires Representable(v) && LineSafe(v) && EndsInHeader(v)
    ensures ParseValue(Encode(v)[..|Encode(v)| - 1]) == Parsed(Norm(v), [])
    decreases v, 1
  {
    hide ParseValue, ParseItems, Itoa;
    match v
    case Integer(n) => MissingNewlineInteger(n);
    case NilBulk => MissingNewlineNil();
    case Null => MissingNewlineNil();
    case NilArray =>
      assert Encode(v) == Encode(Array([]));
      MissingNewlineEmpty();
    case Array(items) =>
      if items == [] {
        MissingNewlineEmpty();
      } else {
        MissingNewlineItems(items);
        MissingNewlineArray(items, NormItems(items));
      }
  }

  lemma {:induction false} MissingNewlineItems(items: seq<Resp>)
    requires RepresentableItems(items) && LineSafeItems(items)
    requires items != [] && EndsInHeader(items[|items| - 1])
    ensures var b := EncodeItems(items);
            b != [] && ParseItems(|items|, b[..|b| - 1]) == Parsed(NormItems(items), [])
    decreases items, 0
  {
    hide ParseValue, Encode, Norm;
    var first, tail := Encode(items[0]), EncodeItems(items[1..]);
    if |items| == 1 {
      var b := first[..|first| - 1];
      assert EncodeItems(items) == first;
      MissingNewline(items[0]);
      ParseFirst(0, b, Norm(items[0]), []);
      assert NormItems(items) == [Norm(items[0])];
    } else {
      MissingNewlineItems(items[1..]);
      var cut := tail[..|tail| - 1];
      DropLast(first, tail);
      RoundTrip(items[0], cut);
      ParseFirst(|items| - 1, first + cut, Norm(items[0]), cut);
    }
  }

  /** A cut frame can be taken for a whole one exactly when it ends in a header without a body. */
  lemma TornExactly(v: Resp)
    requires Representable(v) && LineSafe(v)
    ensures (exists k: nat :: k < |Encode(v)| && ParseValue(Encode(v)[..k]).Parsed?) <==> EndsInHeader(v)
  {
    if EndsInHeader(v) {
      MissingNewline(v);
      var k: nat := |Encode(v)| - 1;
      assert k < |Encode(v)| && ParseValue(Encode(v)[..k]).Parsed?;
    } else {
      forall k: nat | k < |Encode(v)|
        ensures !ParseValue(Encode(v)[..k]).Parsed?
      {
        Torn(v, k);
      }
    }
  }
}
