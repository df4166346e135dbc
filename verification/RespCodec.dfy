/** The RESP2 reader and writer: methods over a byte stream, proved against the printer and parser of Resp. */
module RespCodec {
  import opened Base
  import opened Decimal
  import opened Resp

  /** A buffered writer; out is everything written so far. */
  class Writer {
    var out: Bytes

    constructor ()
      ensures out == []
    {
      out := [];
    }

    method WriteBytes(b: Bytes)
      modifies this
      ensures out == old(out) + b
    {
      out := out + b;
    }

    method Write(v: Resp)
      modifies this
      ensures out == old(out) + Encode(v)
      decreases v, 1
    {
      hide Itoa;
      match v
      case SimpleString(s) => WriteBytes([PLUS] + s + CRLF);
      case ErrorString(s) => WriteBytes([MINUS] + s + CRLF);
      case Integer(n) => WriteBytes([COLON] + Itoa(n) + CRLF);
      case BulkString(s) =>
        WriteBytes([DOLLAR] + Itoa(|s|) + CRLF);
        WriteBytes(s);
        WriteBytes(CRLF);
      case NilBulk => WriteBytes([DOLLAR] + Itoa(-1) + CRLF);
      case Array(items) => WriteArray(items);
      case NilArray => WriteBytes([STAR] + Itoa(0) + CRLF);
      case Null => WriteBytes([DOLLAR] + Itoa(-1) + CRLF);
    }

    method WriteArray(items: seq<Resp>)
      modifies this
      ensures out == old(out) + ([STAR] + Itoa(|items|) + CRLF + EncodeItems(items))
      decreases items, 2
    {
      hide Itoa, Encode;
      WriteBytes([STAR] + Itoa(|items|) + CRLF);
      ghost var start := out;
      for n := 0 to |items|
        invariant out == start + EncodeItems(items[..n])
      {
        EncodeItemsSnoc(items, n);
        Write(items[n]);
      }
      assert items[..|items|] == items;
    }
  }

  lemma {:induction false} EncodeItemsAppend(a: seq<Resp>, b: seq<Resp>)
    ensures EncodeItems(a + b) == EncodeItems(a) + EncodeItems(b)
  {
    hide Encode;
    if a == [] {
      assert a + b == b;
    } else {
      assert (a + b)[1..] == a[1..] + b;
      EncodeItemsAppend(a[1..], b);
    }
  }

  lemma EncodeItemsSnoc(items: seq<Resp>, n: nat)
    requires n < |items|
    ensures EncodeItems(items[..n + 1]) == EncodeItems(items[..n]) + Encode(items[n])
  {
    hide Encode;
    assert items[..n + 1] == items[..n] + [items[n]];
    EncodeItemsAppend(items[..n], [items[n]]);
    assert [items[n]][1..] == [];
  }

  // ----- Reading -----

  datatype Read<+T> = Value(value: T) | Error | Panic

  /** The method's outcome is the parser's, and a success leaves the parser's remainder. */
  ghost predicate Agrees<T>(r: Read<T>, rest: Bytes, p: Parse<T>) {
    match p
    case Parsed(v, after) => r == Value(v) && rest == after
    case Failed => r == Error
    case Panicked => r == Panic
  }

  /** A buffered reader over a fixed input. */
  class Reader {
    const input: Bytes
    var pos: nat

    ghost predicate Valid()
      reads this
    {
      pos <= |input|
    }

    ghost function Rest(): Bytes
      requires Valid()
      reads this
    {
      input[pos..]
    }

    constructor (input: Bytes)
      ensures Valid() && Rest() == input && this.input == input
    {
      this.input, pos := input, 0;
    }

    predicate AtEnd()
      requires Valid()
      reads this
      ensures AtEnd() <==> Rest() == []
    {
      pos == |input|
    }

    function Peek(): (c: byte)
      requires Valid() && !AtEnd()
      reads this
      ensures c == Rest()[0]
    {
      input[pos]
    }

    method Next() returns (c: byte)
      requires Valid() && !AtEnd()
      modifies this
      ensures Valid() && old(Rest()) == [c] + Rest() && pos == old(pos) + 1
    {
      c := input[pos];
      pos := pos + 1;
    }

    method SkipSpace()
      requires Valid()
      modifies this
      ensures Valid() && Rest() == SkipBlanks(old(Rest())) && pos >= old(pos)
    {
      while !AtEnd() && IsBlank(Peek())
        invariant Valid() && SkipBlanks(Rest()) == SkipBlanks(old(Rest())) && pos >= old(pos)
        decreases |input| - pos
      {
        var c := Next();
      }
    }

    method TakeDigits() returns (s: Bytes)
      requires Valid()
      modifies this
      ensures Valid() && pos >= old(pos)
      ensures old(Rest()) == s + Rest() && |s| == DigitRun(old(Rest()))
    {
      s := [];
      while !AtEnd() && IsDigit(Peek())
        invariant Valid() && pos >= old(pos) && AllDigits(s) && old(Rest()) == s + Rest()
        decreases |input| - pos
      {
        var c := Next();
        s := s + [c];
      }
      DigitRunOfDigits(s, Rest());
    }

    /** An optional sign and the digits after it. */
    method TakeNumeral() returns (token: Bytes)
      requires Valid()
      modifies this
      ensures Valid() && pos >= old(pos) && old(Rest()) == token + Rest()
      ensures var sign := SignLength(old(Rest())); |token| == sign + DigitRun(old(Rest())[sign..])
    {
      hide DigitRun, SignLength;
      ghost var start := Rest();
      Sign(start);
      if !AtEnd() && (Peek() == PLUS || Peek() == MINUS) {
        var sign := Next();
        assert start[1..] == Rest();
        var digits := TakeDigits();
        token := [sign] + digits;
        assert start == [sign] + (digits + Rest());
      } else {
        assert start[0..] == start;
        token := TakeDigits();
      }
    }

    /** fmt.Fscanf(reader, "%d\r\n", &n) */
    method ScanNumber() returns (r: Read<int>)
      requires Valid()
      modifies this
      ensures Valid() && pos >= old(pos)
      ensures match ScanHeader(old(Rest()))
              case Scanned(n, rest) => r == Value(n) && Rest() == rest
              case ScanFailed => r == Error
    {
      hide Atoi, SkipBlanks, DigitRun;
      SkipSpace();
      ghost var start := Rest();
      var token := TakeNumeral();
      Halves(token, Rest());
      r := FinishNumber(Atoi(token));
    }

    method FinishNumber(n: Option<int>) returns (r: Read<int>)
      requires Valid()
      modifies this
      ensures Valid() && pos >= old(pos)
      ensures match EndHeader(n, old(Rest()))
              case Scanned(m, rest) => r == Value(m) && Rest() == rest
              case ScanFailed => r == Error
    {
      hide SkipBlanks;
      if n.None? {
        return Error;
      }
      SkipSpace();
      if AtEnd() {
        return Value(n.value);
      }
      var c := Next();
      r := if c == LF then Value(n.value) else Error;
    }

    /** reader.ReadString('\n') without its last two bytes. */
    method ReadLine() returns (r: Read<Bytes>)
      requires Valid()
      modifies this
      ensures Valid() && pos >= old(pos) && Agrees(r, Rest(), ParseLine(old(Rest())))
    {
      hide ParseLine;
      var line: Bytes := [];
      while !AtEnd() && Peek() != LF
        invariant Valid() && pos >= old(pos) && LF !in line && old(Rest()) == line + Rest()
        decreases |input| - pos
      {
        var c := Next();
        line := line + [c];
      }
      if AtEnd() {
        assert line + Rest() == line;
        NoLine(line);
        return Error;
      }
      var c := Next();
      WholeLine(line, Rest());
      assert old(Rest()) == line + [LF] + Rest();
      if |line| == 0 {
        return Panic;
      }
      r := Value(line[..|line| - 1]);
    }

    method ReadBulk() returns (r: Read<Resp>)
      requires Valid()
      modifies this
      ensures Valid() && pos >= old(pos) && Agrees(r, Rest(), ParseBulk(old(Rest())))
    {
      hide ScanHeader;
      var length := ScanNumber();
      if length.Error? {
        return Error;
      }
      var n := length.value;
      if n == -1 {
        return Value(NilBulk);
      }
      if n < 0 || n > MAX_INT64 - 2 {
        return Panic;
      }
      if |input| - pos < n + 2 {
        return Error;
      }
      assert Rest()[..n] == input[pos..pos + n] && Rest()[n + 2..] == input[pos + n + 2..];
      r := Value(BulkString(input[pos..pos + n]));
      pos := pos + n + 2;
    }

    /** Parse: one value, recursing into arrays. */
    method ReadValue() returns (r: Read<Resp>)
      requires Valid()
      modifies this
      ensures Valid() && Agrees(r, Rest(), ParseValue(old(Rest())))
      ensures pos >= old(pos) && (r.Value? ==> pos > old(pos))
      decreases |input| - pos, 0
    {
      hide ParseLine, ParseBulk, ParseArray, ScanHeader;
      if AtEnd() {
        return Error;
      }
      var c := Next();
      assert old(Rest())[1..] == Rest();
      if c == PLUS {
        var line := ReadLine();
        r := if line.Value? then Value(SimpleString(line.value)) else if line.Panic? then Panic else Error;
      } else if c == MINUS {
        var line := ReadLine();
        r := if line.Value? then Value(ErrorString(line.value)) else if line.Panic? then Panic else Error;
      } else if c == COLON {
        var number := ScanNumber();
        r := if number.Value? then Value(Integer(number.value)) else Error;
      } else if c == DOLLAR {
        r := ReadBulk();
      } else if c == STAR {
        r := ReadArray();
      } else {
        r := Error;
      }
    }

    method ReadArray() returns (r: Read<Resp>)
      requires Valid()
      modifies this
      ensures Valid() && pos >= old(pos) && Agrees(r, Rest(), ParseArray(old(Rest())))
      decreases |input| - pos, 1
    {
      hide ParseValue, ParseItems, ScanHeader;
      var count := ScanNumber();
      if count.Error? {
        return Error;
      }
      if count.value == -1 {
        return Value(NilArray);
      }
      if count.value < 0 {
        return Panic;
      }
      var n: nat := count.value;
      ghost var body := Rest();
      var items: seq<Resp> := [];
      PrependNothing(ParseItems(n, body));
      for k := 0 to n
        invariant Valid() && pos >= old(pos)
        invariant ParseItems(n, body) == PrependAll(items, ParseItems(n - k, Rest()))
      {
        ghost var before := Rest();
        var item := ReadValue();
        if !item.Value? {
          ParseFirstFails(n - k - 1, before);
          return if item.Panic? then Panic else Error;
        }
        ParseFirst(n - k - 1, before, item.value, Rest());
        PrependSnoc(items, item.value, ParseItems(n - k - 1, Rest()));
        items := items + [item.value];
      }
      ParseNone(Rest());
      assert items + [] == items;
      r := Value(Array(items));
    }
  }

  lemma Sign(b: Bytes)
    ensures SignLength(b) == if b != [] && (b[0] == PLUS || b[0] == MINUS) then 1 else 0
  {
  }

  lemma Halves(a: Bytes, b: Bytes)
    ensures (a + b)[..|a|] == a && (a + b)[|a|..] == b
  {
  }

  lemma NoLine(line: Bytes)
    requires LF !in line
    ensures ParseLine(line) == Failed
  {
  }

  lemma WholeLine(line: Bytes, rest: Bytes)
    requires LF !in line
    ensures ParseLine(line + [LF] + rest) == if line == [] then Panicked else Parsed(line[..|line| - 1], rest)
  {
    var b := line + [LF] + rest;
    LineLengthOf(line, rest);
    assert b[|line| + 1..] == rest;
    if line != [] {
      assert b[..|line| - 1] == line[..|line| - 1];
    }
  }

  ghost function PrependAll(items: seq<Resp>, r: Parse<seq<Resp>>): Parse<seq<Resp>> {
    match r
    case Parsed(vs, rest) => Parsed(items + vs, rest)
    case Failed => Failed
    case Panicked => Panicked
  }

  lemma PrependNothing(r: Parse<seq<Resp>>)
    ensures PrependAll([], r) == r
  {
    if r.Parsed? {
      assert [] + r.value == r.value;
    }
  }

  lemma PrependSnoc(items: seq<Resp>, v: Resp, r: Parse<seq<Resp>>)
    ensures PrependAll(items, Prepend(v, r)) == PrependAll(items + [v], r)
  {
    if r.Parsed? {
      assert items + ([v] + r.value) == items + [v] + r.value;
    }
  }
}
