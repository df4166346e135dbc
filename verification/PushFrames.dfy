/** The broker's own frame encoder, and what its frames parse back to. */
module PushFrames {
  import opened Base
  import opened Decimal
  import opened Resp
  import opened LogFile

  // ----- itoa -----

  /** The digits of a positive number; none otherwise. */
  function PositiveDigits(n: int): Bytes {
    if n > 0 then Digits(n) else []
  }

  lemma DigitsStep(n: nat)
    requires n > 0
    ensures PositiveDigits(n) == PositiveDigits(n / 10) + [Digit(n % 10)]
  {
  }

  lemma SignedDigits(n: int)
    requires InInt64(n)
    ensures n < 0 ==> Itoa(n) == [MINUS] + Digits(-n)
    ensures n >= 0 ==> Itoa(n) == Digits(n)
    ensures n == 0 ==> Itoa(n) == [Digit(0)]
    ensures Wrap64(-n) == if n == MIN_INT64 then n else -n
  {
  }

  /** The division loop. */
  method PrependDigits(n: int) returns (s: Bytes)
    ensures s == PositiveDigits(n)
  {
    hide PositiveDigits;
    var left := n;
    s := [];
    while left > 0
      invariant left == n || left >= 0
      invariant PositiveDigits(n) == PositiveDigits(left) + s
    {
      ghost var before := s;
      DigitsStep(left);
      s := [Digit(left % 10)] + s;
      left := left / 10;
      assert PositiveDigits(left) + s == (PositiveDigits(left) + [s[0]]) + before;
    }
    NoDigits(left);
  }

  lemma NoDigits(n: int)
    requires n <= 0
    ensures PositiveDigits(n) == []
  {
  }

  /** Correct for every int64 but the least one, whose negation is itself. */
  method FormatInt(n: int) returns (s: Bytes)
    requires InInt64(n)
    ensures s == if n == MIN_INT64 then [MINUS] else Itoa(n)
  {
    hide Digits, AllDigits, Itoa, Wrap64;
    SignedDigits(n);
    if n == 0 {
      return [Digit(0)];
    }
    s := PrependDigits(if n < 0 then Wrap64(-n) else n);
    if n < 0 {
      s := [MINUS] + s;
    }
  }

  // ----- encodeArray -----

  lemma BulkItem(parts: seq<Bytes>)
    requires parts != []
    ensures EncodeItems(Bulks(parts)) == [DOLLAR] + Itoa(|parts[0]|) + CRLF + parts[0] + CRLF + EncodeItems(Bulks(parts[1..]))
  {
    hide Itoa;
    assert Bulks(parts)[1..] == Bulks(parts[1..]);
  }

  lemma ArrayHeader(parts: seq<Bytes>)
    ensures Encode(ToResp(parts)) == [STAR] + Itoa(|parts|) + CRLF + EncodeItems(Bulks(parts))
    ensures EncodeItems(Bulks([])) == []
  {
    hide Itoa;
  }

  method EncodeArray(parts: seq<Bytes>) returns (buf: Bytes)
    requires |parts| <= MAX_INT64 && forall p :: p in parts ==> |p| <= MAX_INT64
    ensures buf == Encode(ToResp(parts))
  {
    hide Itoa, Digits, Encode, EncodeItems, ToResp, Bulks;
    ArrayHeader(parts);
    var count := FormatInt(|parts|);
    buf := [STAR] + count + CRLF;
    assert parts[0..] == parts;
    for i := 0 to |parts|
      invariant buf + EncodeItems(Bulks(parts[i..])) == Encode(ToResp(parts))
    {
      ghost var before, rest := buf, EncodeItems(Bulks(parts[i + 1..]));
      var length := FormatInt(|parts[i]|);
      BulkItem(parts[i..]);
      assert parts[i..][1..] == parts[i + 1..];
      buf := buf + [DOLLAR] + length + CRLF + parts[i] + CRLF;
      assert buf + rest == before + ([DOLLAR] + length + CRLF + parts[i] + CRLF + rest);
    }
    assert parts[|parts|..] == [] && buf + [] == buf;
  }

  // ----- Frames -----

  const MESSAGE: Bytes := [109, 101, 115, 115, 97, 103, 101]
  const PMESSAGE: Bytes := [112, 109, 101, 115, 115, 97, 103, 101]

  /** The frame a subscriber receives: by the channel's own name, or through a pattern. */
  function Frame(via: Option<Bytes>, channel: Bytes, msg: Bytes): Bytes {
    match via
    case None => Encode(ToResp([MESSAGE, channel, msg]))
    case Some(pattern) => Encode(ToResp([PMESSAGE, pattern, channel, msg]))
  }

  method EncodeMessage(channel: Bytes, msg: Bytes) returns (frame: Bytes)
    requires |channel| <= MAX_INT64 && |msg| <= MAX_INT64
    ensures frame == Frame(None, channel, msg)
  {
    frame := EncodeArray([MESSAGE, channel, msg]);
  }

  method EncodePMessage(pattern: Bytes, channel: Bytes, msg: Bytes) returns (frame: Bytes)
    requires |pattern| <= MAX_INT64 && |channel| <= MAX_INT64 && |msg| <= MAX_INT64
    ensures frame == Frame(Some(pattern), channel, msg)
  {
    frame := EncodeArray([PMESSAGE, pattern, channel, msg]);
  }

  /** What a connection is sent reads back as the same parts in the same order, whatever bytes they hold. */
  lemma {:induction false} FramesParse(frames: seq<seq<Bytes>>)
    requires StorableLog(frames)
    ensures ParseStream(EncodeLog(frames)) == seq(|frames|, i requires 0 <= i < |frames| => ToResp(frames[i]))
  {
    hide ParseValue, Encode;
    if frames != [] {
      assert frames[0] in frames;
      EntryRoundTrip(frames[0], EncodeLog(frames[1..]));
      FramesParse(frames[1..]);
    }
  }
}
