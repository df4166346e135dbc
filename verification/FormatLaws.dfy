/** The formats spelled out: decimals, command names, log entries, replay arities, the wire. */
module FormatLaws {
  import opened Base
  import opened Decimal
  import opened Fields
  import opened Entries
  import opened Keyspace
  import opened Replay
  import opened Resp
  import opened LogFile

  /** The bytes are those of an ASCII text. */
  predicate Reads(b: Bytes, text: string) {
    |b| == |text| && forall j :: 0 <= j < |b| ==> b[j] as int == text[j] as int
  }

  // ----- Decimals -----

  /** The digits of a number are those of its tens, then that of its ones. */
  lemma DigitByDigit(n: nat, d: nat)
    requires n > 0 && d < 10
    ensures Itoa(10 * n + d) == Itoa(n) + Itoa(d) && Itoa(-(10 * n + d)) == [45] + Itoa(10 * n + d)
  {
    assert (10 * n + d) / 10 == n && (10 * n + d) % 10 == d;
  }

  /** And the ten digits are these. */
  lemma TenDigits(d: nat)
    requires d < 10
    ensures Reads(Itoa(d), ["0", "1", "2", "3", "4", "5", "6", "7", "8", "9"][d])
  {
  }

  /** An integer is read with either sign or none, and with leading zeros. */
  lemma ReadsSigned(n: nat, zeros: nat)
    requires n <= MAX_INT64
    ensures var s := Zeros(zeros) + Itoa(n);
            Atoi(s) == Some(n) && Atoi([43] + s) == Some(n) && Atoi([45] + s) == Some(-(n as int))
  {
    hide Digits, Magnitude;
    var s := Zeros(zeros) + Digits(n);
    MagnitudeOfDigits(n);
    LeadingZeros(Digits(n), zeros);
    assert s[0..] == s && ([PLUS] + s)[1..] == s && ([MINUS] + s)[1..] == s;
    NumeralOf(s);
  }

  function Zeros(k: nat): (s: Bytes)
    ensures |s| == k && AllDigits(s)
  {
    if k == 0 then [] else [48] + Zeros(k - 1)
  }

  lemma NumeralOf(s: Bytes)
    requires s != [] && AllDigits(s)
    ensures Numeral(s) == Some(Magnitude(s)) && Numeral([PLUS] + s) == Some(Magnitude(s)) && Numeral([MINUS] + s) == Some(-(Magnitude(s) as int))
  {
    hide Magnitude;
    assert s[0..] == s && ([PLUS] + s)[1..] == s && ([MINUS] + s)[1..] == s;
  }

  lemma {:induction false} LeadingZero(s: Bytes)
    requires AllDigits(s)
    ensures AllDigits([48] + s) && Magnitude([48] + s) == Magnitude(s)
  {
    var t := [48] + s;
    if s == [] {
      assert t == [48] && t[..0] == [];
    } else {
      LeadingZero(s[..|s| - 1]);
      assert t[..|t| - 1] == [48] + s[..|s| - 1];
    }
  }

  lemma {:induction false} LeadingZeros(s: Bytes, k: nat)
    requires AllDigits(s)
    ensures AllDigits(Zeros(k) + s) && Magnitude(Zeros(k) + s) == Magnitude(s)
  {
    hide Magnitude;
    if k == 0 {
      assert Zeros(k) + s == s;
    } else {
      LeadingZeros(s, k - 1);
      LeadingZero(Zeros(k - 1) + s);
      assert Zeros(k) + s == [48] + (Zeros(k - 1) + s);
    }
  }

  /** Whatever is not an optional sign and at least one digit, or does not fit 64 bits, is no integer. */
  lemma ReadsNothingElse(s: Bytes)
    ensures (s == [] || s == [43] || s == [45]) ==> Atoi(s) == None
    ensures (exists j :: (if s != [] && (s[0] == 43 || s[0] == 45) then 1 else 0) <= j < |s| && !(48 <= s[j] <= 57)) ==> Atoi(s) == None
    ensures Numeral(s).Some? && !(-9_223_372_036_854_775_808 <= Numeral(s).value <= 9_223_372_036_854_775_807) ==> Atoi(s) == None
  {
    hide Magnitude;
    var digits := s[SignLength(s)..];
    if j :| SignLength(s) <= j < |s| && !(48 <= s[j] <= 57) {
      assert digits[j - SignLength(s)] == s[j];
    }
  }

  // ----- Log entries -----

  /** The names in the log. */
  lemma SpelledOut(n: Name)
    ensures Reads(Spelling(n), NameText(n))
  {
  }

  function NameText(n: Name): string {
    match n
    case SET => "SET" case DEL => "DEL" case SETNX => "SETNX" case EXPIRE => "EXPIRE"
    case INCR => "INCR" case DECR => "DECR" case LPUSH => "LPUSH" case RPUSH => "RPUSH"
    case LPOP => "LPOP" case RPOP => "RPOP" case LTRIM => "LTRIM" case RENAME => "RENAME"
    case FLUSHDB => "FLUSHDB" case FLUSHALL => "FLUSHALL" case HSET => "HSET" case HDEL => "HDEL"
  }

  /** An entry is its name, the database in decimal, and the arguments. */
  lemma EntrySpelled(n: Name, i: nat, args: seq<Bytes>)
    ensures Entry(n, i, args) == [Spelling(n), Itoa(i)] + args
  {
  }

  /** A field map is logged field, value, field, value, the fields ascending; read back, a later value for a field wins. */
  lemma FieldsSpelled(m: FieldMap, j: nat)
    requires j < |m|
    ensures |Sorted(m.Keys)| == |m| && |Flatten(m)| == 2 * |m|
    ensures Flatten(m)[2 * j] == Sorted(m.Keys)[j] && Sorted(m.Keys)[j] in m && Flatten(m)[2 * j + 1] == m[Sorted(m.Keys)[j]]
  {
    hide Sorted;
    FlattenShape(m);
    PairsAt(Sorted(m.Keys), m, j);
  }

  lemma {:induction false} PairsAt(keys: seq<Bytes>, m: FieldMap, j: nat)
    requires (forall k :: k in keys ==> k in m) && j < |keys|
    ensures |Pairs(keys, m)| == 2 * |keys| && Pairs(keys, m)[2 * j] == keys[j] && Pairs(keys, m)[2 * j + 1] == m[keys[j]]
  {
    PairsLong(keys, m);
    if j > 0 {
      PairsAt(keys[1..], m, j - 1);
    }
  }

  lemma {:induction false} PairsLong(keys: seq<Bytes>, m: FieldMap)
    requires forall k :: k in keys ==> k in m
    ensures |Pairs(keys, m)| == 2 * |keys|
  {
    if keys != [] {
      PairsLong(keys[1..], m);
    }
  }

  /** The order is that of bytes: at the first difference the smaller byte, or the end, comes first. */
  lemma {:induction false} OrderOfBytes(a: Bytes, b: Bytes, n: nat)
    requires n <= |a| && n <= |b| && a[..n] == b[..n]
    ensures n == |a| ==> LexLe(a, b)
    ensures n == |b| && n < |a| ==> !LexLe(a, b)
    ensures n < |a| && n < |b| && a[n] < b[n] ==> LexLe(a, b)
    ensures n < |a| && n < |b| && a[n] > b[n] ==> !LexLe(a, b)
  {
    if n > 0 {
      assert a[0] == a[..n][0] == b[..n][0] == b[0];
      assert a[1..][..n - 1] == a[..n][1..] && b[1..][..n - 1] == b[..n][1..];
      OrderOfBytes(a[1..], b[1..], n - 1);
    }
  }

  // ----- What a replay ignores -----

  /** A handler acts on entries of its own number of arguments; EXPIRE and the pops also need an integer. */
  lemma Arities(n: Name, args: seq<Bytes>)
    ensures Handle(n, args).Some? <==>
            match n
            case SET => |args| == 2
            case SETNX => |args| == 2
            case DEL => |args| == 1
            case EXPIRE => |args| == 2 && Atoi(args[1]) != None
            case INCR => |args| == 1
            case DECR => |args| == 1
            case LPUSH => |args| >= 2
            case RPUSH => |args| >= 2
            case LPOP => |args| == 2 && Atoi(args[1]) != None
            case RPOP => |args| == 2 && Atoi(args[1]) != None
            case LTRIM => |args| == 3
            case RENAME => |args| == 2
            case FLUSHDB => args == []
            case FLUSHALL => false
            case HSET => |args| >= 3 && |args| % 2 == 1
            case HDEL => |args| >= 2
  {
    hide ReadPairs, Atoi, AtoiUnchecked, Wrap64;
  }

  /** SETNX, which no run logs, is replayed as itself; LTRIM takes what is no integer for 0 and what is too large for the nearest bound. */
  lemma RareEntries(key: Bytes, value: Bytes, start: Bytes, stop: Bytes)
    ensures Handle(SETNX, [key, value]) == Some(SetNX(key, value))
    ensures Handle(LTRIM, [key, start, stop]) == Some(LTrim(key, Bounded(Numeral(start)), Bounded(Numeral(stop))))
  {
    hide Numeral;
  }

  function Bounded(n: Option<int>): int {
    if n.None? then 0
    else if n.value > 9_223_372_036_854_775_807 then 9_223_372_036_854_775_807
    else if n.value < -9_223_372_036_854_775_808 then -9_223_372_036_854_775_808
    else n.value
  }

  /** An unknown name, a missing or malformed database, or an entry its handler does not take changes nothing. */
  lemma Ignored(parts: Command, s: State, now: int)
    requires parts == [] || ParseName(parts[0]) == None ||
             (ParseName(parts[0]) == Some(FLUSHALL) && |parts| > 1) ||
             (ParseName(parts[0]) != Some(FLUSHALL) &&
              (|parts| == 1 || Atoi(parts[1]) == None || Handle(ParseName(parts[0]).value, parts[2..]) == None))
    ensures Dispatch(parts, s, now) == Ran(s, [])
  {
    hide Handle, Atoi, ParseName, Spelling;
  }

  /** A database that does not exist is a panic. */
  lemma NoSuchDatabase(n: Name, i: int, args: seq<Bytes>, s: State, now: int)
    requires n != FLUSHALL && InInt64(i) && Handle(n, args).Some?
    ensures Dispatch([Spelling(n), Itoa(i)] + args, s, now).Panicked? <==> !(0 <= i < 16)
  {
    hide Handle, Atoi, ParseName, Spelling, Itoa, Run;
    var parts := [Spelling(n), Itoa(i)] + args;
    ParseSpelling(n);
    AtoiItoa(i);
    assert parts[2..] == args;
  }

  /** A file that does not begin with a star, as in the old format, is not read. */
  lemma OldFormat(b: Bytes, s: State, now: int)
    requires b == [] || b[0] != 42
    ensures ReplayFile(b, s, now) == Ran(s, [])
  {
  }

  /** Parts may be bulk or simple strings, or nil for the empty string; anything else makes the frame no command. */
  lemma PartOf(v: Resp)
    ensures ToCommand(Array([v])) == (match v
                                      case BulkString(b) => Some([b])
                                      case SimpleString(b) => Some([b])
                                      case NilBulk => Some([[]])
                                      case _ => None)
    ensures ToCommand(NilArray) == Some([])
    ensures !v.Array? && !v.NilArray? ==> ToCommand(v) == None
  {
    assert [v][1..] == [] && Parts([]) == Some([]);
    assert Parts([v][1..]) == Some([]);
    assert forall b: Bytes :: [b] + [] == [b];
  }

  // ----- The wire -----

  /** Every kind of value as it is printed: 43 is plus, 45 minus, 58 the colon, 36 the dollar, 42 the star, 13 and 10 end a line. */
  lemma WireFormat(v: Resp)
    ensures Encode(v) ==
            match v
            case SimpleString(s) => [43] + s + [13, 10]
            case ErrorString(s) => [45] + s + [13, 10]
            case Integer(n) => [58] + Itoa(n) + [13, 10]
            case BulkString(s) => [36] + Itoa(|s|) + [13, 10] + s + [13, 10]
            case NilBulk => [36] + [45, 49] + [13, 10]
            case Null => [36] + [45, 49] + [13, 10]
            case NilArray => [42] + [48] + [13, 10]
            case Array(items) => [42] + Itoa(|items|) + [13, 10] + EncodeItems(items)
  {
    hide Itoa, EncodeItems;
    MinusOne();
  }

  lemma MinusOne()
    ensures Itoa(-1) == [45, 49] && Itoa(0) == [48]
  {
  }

  /** Items follow each other without anything between them. */
  lemma ItemsFollow(v: Resp, rest: seq<Resp>)
    ensures EncodeItems([]) == [] && EncodeItems([v] + rest) == Encode(v) + EncodeItems(rest)
  {
    hide Encode;
    assert ([v] + rest)[1..] == rest;
  }

  function Blanks(k: nat): (b: Bytes)
    ensures |b| == k && forall j :: 0 <= j < k ==> b[j] == 32
  {
    if k == 0 then [] else [32] + Blanks(k - 1)
  }

  lemma {:induction false} BlanksSkipped(k: nat, b: Bytes)
    requires b == [] || !IsBlank(b[0])
    ensures SkipBlanks(Blanks(k) + b) == b
  {
    if k == 0 {
      assert Blanks(k) + b == b;
    } else {
      BlanksSkipped(k - 1, b);
      assert (Blanks(k) + b)[1..] == Blanks(k - 1) + b;
    }
  }

  /** A header may have blanks before its number and before its newline, and needs no carriage return. */
  lemma HeaderWithBlanks(before: nat, n: int, behind: nat, rest: Bytes)
    requires InInt64(n)
    ensures ScanHeader(Blanks(before) + (Itoa(n) + (Blanks(behind) + ([10] + rest)))) == Scanned(n, rest)
  {
    hide Itoa, Atoi, Blanks;
    var after := Blanks(behind) + ([10] + rest);
    ItoaToken(n);
    AtoiItoa(n);
    BlanksSkipped(behind, [10] + rest);
    AfterBlanks(behind, rest);
    ScanToken(Itoa(n), after);
    EndsHere(n, after, rest);
    ScanSkips(before, Itoa(n) + after);
  }

  lemma AfterBlanks(k: nat, rest: Bytes)
    ensures var after := Blanks(k) + ([10] + rest); after != [] && !IsDigit(after[0])
  {
    if k == 0 {
      assert Blanks(0) + ([10] + rest) == [10] + rest;
    }
  }

  lemma EndsHere(n: int, after: Bytes, rest: Bytes)
    requires SkipBlanks(after) == [10] + rest
    ensures EndHeader(Some(n), after) == Scanned(n, rest)
  {
    assert ([10] + rest)[1..] == rest;
  }

  lemma ScanSkips(k: nat, b: Bytes)
    requires b != [] && !IsBlank(b[0])
    ensures ScanHeader(Blanks(k) + b) == ScanHeader(b)
  {
    BlanksSkipped(k, b);
    assert SkipBlanks(b) == b;
  }

  /** A length of -1 is a nil, every other negative length a panic. */
  lemma NegativeLengths(n: int, rest: Bytes)
    requires -9_223_372_036_854_775_808 <= n < 0
    ensures ParseValue([36] + (Itoa(n) + CRLF + rest)) == if n == -1 then Parsed(NilBulk, rest) else Parse<Resp>.Panicked
    ensures ParseValue([42] + (Itoa(n) + CRLF + rest)) == if n == -1 then Parsed(NilArray, rest) else Parse<Resp>.Panicked
  {
    hide Itoa, ScanHeader, ParseValue, ParseItems;
    ScanItoa(n, rest);
    ParseDollar(Itoa(n) + CRLF + rest);
    ParseStar(Itoa(n) + CRLF + rest);
  }

  /** A line without a newline fails, a lone newline panics. */
  lemma Lines(line: Bytes, rest: Bytes)
    requires 10 !in line
    ensures ParseValue([43] + line) == Failed && ParseValue([45] + line) == Failed
    ensures ParseValue([43] + ([10] + rest)) == Parse<Resp>.Panicked && ParseValue([45] + ([10] + rest)) == Parse<Resp>.Panicked
  {
    hide ParseValue, ParseLine;
    OddLines(line, rest);
    ParsePlus(line);
    ParseMinus(line);
    ParsePlus([LF] + rest);
    ParseMinus([LF] + rest);
  }

  /** Nothing at all, and a first byte that is no marker, fail. */
  lemma UnknownByte(c: byte, rest: Bytes)
    ensures c != 36 && c != 42 && c != 43 && c != 45 && c != 58 ==> ParseValue([c] + rest) == Failed
    ensures ParseValue([]) == Failed
  {
  }

  lemma OddLines(line: Bytes, rest: Bytes)
    requires LF !in line
    ensures ParseLine(line) == Failed && ParseLine([LF] + rest) == Parse<Bytes>.Panicked
  {
  }
}
