/**
 Appending after a cut anywhere. Inside an entry the parser takes what is missing
 from the entries appended next; so the next session survives exactly a cut
 between entries, and a value nobody wrote can come out of any other.
 */
module TornSwallow {
  import opened Base
  import opened Decimal
  import opened Resp
  import opened Entries
  import opened Fields
  import opened Keyspace
  import opened Replay
  import opened Simulation
  import opened LogFile
  import opened PushFrames
  import opened TornAppend

  // ----- One bulk string cut short -----

  function LengthLine(s: Bytes): (b: Bytes)
    ensures |b| == 3 + |Itoa(|s|)|
  {
    [DOLLAR] + Itoa(|s|) + CRLF
  }

  lemma BulkShape(s: Bytes)
    ensures Encode(BulkString(s)) == LengthLine(s) + (s + CRLF)
  {
    hide Itoa;
  }

  /** Cut within its length line: the star that follows makes the scan fail. */
  lemma LengthLineCut(s: Bytes, z: nat, rest: Bytes)
    requires |s| <= MAX_INT64 - 2 && 0 < z < |LengthLine(s)|
    ensures ParseValue(LengthLine(s)[..z] + ([STAR] + rest)) == Failed
  {
    hide Itoa, ParseValue, ScanHeader;
    var t := Itoa(|s|) + [CR];
    HeaderThenStar(|s|, z - 1, rest);
    ParseDollar(t[..z - 1] + ([STAR] + rest));
    assert LengthLine(s)[..z] == [DOLLAR] + t[..z - 1];
    assert LengthLine(s)[..z] + ([STAR] + rest) == [DOLLAR] + (t[..z - 1] + ([STAR] + rest));
  }

  /** The contents of a bulk string that lacks its last m bytes, line end included, and takes them from what follows. */
  function Patched(s: Bytes, m: nat, tail: Bytes): (x: Bytes)
    requires 1 <= m <= |s| + 2 && m <= |tail|
    ensures |x| == |s|
  {
    ((s + CRLF)[..|s| + 2 - m] + tail)[..|s|]
  }

  /** Such contents are the original ones, or hold the first byte of what follows. */
  lemma PatchShows(s: Bytes, m: nat, tail: Bytes)
    requires 1 <= m <= |s| + 2 && m <= |tail|
    ensures Patched(s, m, tail) == s || tail[0] in Patched(s, m, tail)
  {
    var x := Patched(s, m, tail);
    if m > 2 {
      assert x[|s| + 2 - m] == tail[0];
    } else {
      assert x == s;
    }
  }

  /** The parser takes what the length line announces and two bytes more. */
  lemma TakesAnnounced(n: nat, body: Bytes)
    requires n <= MAX_INT64 - 2
    ensures ParseValue([DOLLAR] + Itoa(n) + CRLF + body) ==
            if |body| < n + 2 then Failed else Parsed(BulkString(body[..n]), body[n + 2..])
  {
    hide Itoa, ParseValue, ScanHeader;
    ScanItoa(n, body);
    ParseDollar(Itoa(n) + CRLF + body);
    assert [DOLLAR] + Itoa(n) + CRLF + body == [DOLLAR] + (Itoa(n) + CRLF + body);
  }

  lemma SwallowSlices(s: Bytes, m: nat, tail: Bytes)
    requires 1 <= m <= |s| + 2
    ensures var body := (s + CRLF)[..|s| + 2 - m] + tail;
            && |body| == |s| + 2 - m + |tail|
            && (m <= |tail| ==> body[..|s|] == Patched(s, m, tail) && body[|s| + 2..] == tail[m..])
  {
  }

  lemma BulkSwallows(s: Bytes, m: nat, tail: Bytes)
    requires |s| <= MAX_INT64 - 2 && 1 <= m <= |s| + 2
    ensures ParseValue(LengthLine(s) + ((s + CRLF)[..|s| + 2 - m] + tail)) ==
            if m <= |tail| then Parsed(BulkString(Patched(s, m, tail)), tail[m..]) else Failed
  {
    hide Itoa, ParseValue, Patched;
    TakesAnnounced(|s|, (s + CRLF)[..|s| + 2 - m] + tail);
    SwallowSlices(s, m, tail);
  }

  // ----- The items of an entry cut short -----

  /** How many bytes the payload that was cut lacks; 0 for a cut outside every payload. */
  function Lacking(parts: seq<Bytes>, z: nat): (m: nat) {
    if parts == [] then 0
    else
      var first := |Encode(BulkString(parts[0]))|;
      if z >= first then Lacking(parts[1..], z - first)
      else if z < |LengthLine(parts[0])| then 0
      else first - z
  }

  /** What follows the cut is one frame, or what is left of it after the swallow is none. */
  predicate Follows(tail: Bytes, m: nat) {
    && tail != [] && tail[0] == STAR
    && (m == 0 ==> ParseValue(tail).Parsed? && ParseValue(tail).value.Array? && ParseValue(tail).rest == [])
    && (0 < m <= |tail| ==> ParseValue(tail[m..]) == Failed)
  }

  /** At most the last part differs, and then it holds a star. */
  ghost predicate Altered(parts: seq<Bytes>, e: seq<Bytes>) {
    parts != [] && |e| == |parts| && e[..|e| - 1] == parts[..|e| - 1] && (e[|e| - 1] == parts[|e| - 1] || STAR in e[|e| - 1])
  }

  /** The items do not parse, or nothing parses after them and they are no command or the altered one. */
  ghost predicate CutItems(parts: seq<Bytes>, r: Parse<seq<Resp>>) {
    r.Failed? || (r.Parsed? && ParseValue(r.rest) == Failed && (Parts(r.value).Some? ==> Altered(parts, Parts(r.value).value)))
  }

  lemma NothingParses()
    ensures ParseValue([]) == Failed
  {
  }

  lemma CutItemsPrepend(parts: seq<Bytes>, r: Parse<seq<Resp>>)
    requires |parts| > 1 && CutItems(parts[1..], r)
    ensures CutItems(parts, Prepend(BulkString(parts[0]), r))
  {
    hide ParseValue;
    if r.Parsed? {
      var items := [BulkString(parts[0])] + r.value;
      assert items[1..] == r.value;
      if Parts(r.value).Some? {
        var e := Parts(r.value).value;
        assert Parts(items) == Some([parts[0]] + e);
        assert ([parts[0]] + e)[..|e|] == [parts[0]] + e[..|e| - 1];
        assert parts[..|e|] == [parts[0]] + parts[1..][..|e| - 1];
      }
    }
  }

  /** The cut falls between two items: the next entry becomes an item. */
  lemma CutBetween(parts: seq<Bytes>, tail: Bytes)
    requires parts != [] && Follows(tail, 0)
    ensures CutItems(parts, ParseItems(|parts|, tail))
  {
    hide ParseValue;
    var v := ParseValue(tail).value;
    ParseFirst(|parts| - 1, tail, v, []);
    NothingParses();
    if |parts| == 1 {
      ParseNone([]);
      assert [v] + [] == [v];
    } else {
      ParseFirstFails(|parts| - 2, []);
    }
  }

  /** The cut falls into a payload. */
  lemma CutPayload(parts: seq<Bytes>, m: nat, tail: Bytes)
    requires parts != [] && |parts[0]| <= MAX_INT64 - 2 && 1 <= m <= |parts[0]| + 2 && Follows(tail, m)
    ensures var b := LengthLine(parts[0]) + ((parts[0] + CRLF)[..|parts[0]| + 2 - m] + tail);
            CutItems(parts, ParseItems(|parts|, b))
  {
    hide ParseValue, LengthLine;
    var s := parts[0];
    var b := LengthLine(s) + ((s + CRLF)[..|s| + 2 - m] + tail);
    BulkSwallows(s, m, tail);
    if m > |tail| {
      ParseFirstFails(|parts| - 1, b);
    } else {
      var x := Patched(s, m, tail);
      PatchShows(s, m, tail);
      ParseFirst(|parts| - 1, b, BulkString(x), tail[m..]);
      if |parts| == 1 {
        ParseNone(tail[m..]);
        OnePart(x);
        assert [BulkString(x)] + [] == [BulkString(x)];
        assert [x][..0] == parts[..0] && Altered(parts, [x]);
      } else {
        ParseFirstFails(|parts| - 2, tail[m..]);
      }
    }
  }

  lemma OnePart(x: Bytes)
    ensures Parts([BulkString(x)]) == Some([x])
  {
    assert [BulkString(x)][1..] == [];
    assert Parts([BulkString(x)][1..]) == Some([]) && [x] + [] == [x];
  }

  /** The cut falls into the first item. */
  lemma CutFirst(parts: seq<Bytes>, z: nat, tail: Bytes)
    requires parts != [] && |parts[0]| <= MAX_INT64 - 2 && z < |Encode(BulkString(parts[0]))|
    requires Follows(tail, Lacking(parts, z))
    ensures CutItems(parts, ParseItems(|parts|, Encode(BulkString(parts[0]))[..z] + tail))
  {
    hide ParseValue, ParseItems, Encode, Follows, CutItems, LengthLine;
    var s := parts[0];
    var first, b := Encode(BulkString(s)), Encode(BulkString(s))[..z] + tail;
    BulkShape(s);
    if z == 0 {
      assert b == tail;
      assert |LengthLine(s)| > 0;
      CutBetween(parts, tail);
    } else if z < |LengthLine(s)| {
      StarFirst(tail, 0);
      LengthLineCut(s, z, tail[1..]);
      assert first[..z] == LengthLine(s)[..z] && tail == [STAR] + tail[1..];
      ParseFirstFails(|parts| - 1, b);
      FailedItems(parts);
    } else {
      var m := |first| - z;
      assert first[..z] == LengthLine(s) + (s + CRLF)[..|s| + 2 - m];
      assert b == LengthLine(s) + ((s + CRLF)[..|s| + 2 - m] + tail);
      CutPayload(parts, m, tail);
    }
  }

  lemma PrefixOfFirst(first: Bytes, rest: Bytes, z: nat, tail: Bytes)
    requires z <= |first| + |rest|
    ensures z >= |first| ==> (first + rest)[..z] + tail == first + (rest[..z - |first|] + tail)
    ensures z <= |first| ==> (first + rest)[..z] == first[..z]
  {
  }

  lemma {:induction false} CutWithin(parts: seq<Bytes>, z: nat, tail: Bytes)
    requires (forall p :: p in parts ==> |p| <= MAX_INT64 - 2) && z < |EncodeItems(Bulks(parts))|
    requires Follows(tail, Lacking(parts, z))
    ensures CutItems(parts, ParseItems(|parts|, EncodeItems(Bulks(parts))[..z] + tail))
    decreases |parts|
  {
    hide ParseValue, ParseItems, Encode, EncodeItems, Bulks, Follows, CutItems, LengthLine;
    SomeParts(parts, z);
    var s, rest := parts[0], EncodeItems(Bulks(parts[1..]));
    var first := Encode(BulkString(s));
    ItemsCons(parts);
    PrefixOfFirst(first, rest, z, tail);
    if z >= |first| {
      var b := rest[..z - |first|] + tail;
      SomeParts(parts[1..], z - |first|);
      CutWithin(parts[1..], z - |first|, tail);
      PrintedBulk(s, b);
      ParseFirst(|parts| - 1, first + b, BulkString(s), b);
      CutItemsPrepend(parts, ParseItems(|parts| - 1, b));
    } else {
      CutFirst(parts, z, tail);
    }
  }

  lemma FailedItems(parts: seq<Bytes>)
    ensures CutItems(parts, Failed)
  {
  }

  lemma StarFirst(tail: Bytes, m: nat)
    requires Follows(tail, m)
    ensures tail != [] && tail[0] == STAR
  {
  }

  lemma SomeParts(parts: seq<Bytes>, z: nat)
    requires z < |EncodeItems(Bulks(parts))|
    ensures parts != []
  {
  }

  lemma ItemsCons(parts: seq<Bytes>)
    requires parts != []
    ensures EncodeItems(Bulks(parts)) == Encode(BulkString(parts[0])) + EncodeItems(Bulks(parts[1..]))
  {
    hide Encode;
    assert Bulks(parts)[1..] == Bulks(parts[1..]);
  }

  // ----- A whole entry cut short -----

  /** How many bytes the payload lacks in which an entry was cut, if it was cut in one. */
  function LackingOf(entry: Command, j: nat): nat {
    if j < 3 + |Itoa(|entry|)| then 0 else Lacking(entry, j - 3 - |Itoa(|entry|)|)
  }

  lemma EntryShape(entry: Command)
    ensures Encode(ToResp(entry)) == [STAR] + Itoa(|entry|) + CRLF + EncodeItems(Bulks(entry))
  {
    hide Itoa;
  }

  /** The frame of a cut entry: it does not parse, or nothing parses after it and it is no command or the altered one. */
  ghost predicate CutFrame(entry: Command, r: Parse<Resp>) {
    r.Failed? || (r.Parsed? && ParseValue(r.rest) == Failed && (ToCommand(r.value).Some? ==> Altered(entry, ToCommand(r.value).value)))
  }

  lemma CutFrameOfItems(entry: Command, r: Parse<seq<Resp>>)
    requires CutItems(entry, r)
    ensures CutFrame(entry, ArrayOf(r))
  {
    hide ParseValue, Parts, Altered;
  }

  lemma FailedFrame(entry: Command)
    ensures CutFrame(entry, Failed)
  {
  }

  lemma CutEntry(entry: Command, j: nat, tail: Bytes)
    requires Storable(entry) && 0 < j < |Encode(ToResp(entry))| && Follows(tail, LackingOf(entry, j))
    ensures CutFrame(entry, ParseValue(Encode(ToResp(entry))[..j] + tail))
  {
    hide ParseValue, ParseItems, Encode, EncodeItems, ToResp, Itoa, Follows, CutItems, CutFrame, Lacking;
    var b, items := Encode(ToResp(entry)), EncodeItems(Bulks(entry));
    var head := [STAR] + Itoa(|entry|) + CRLF;
    EntryShape(entry);
    StarFirst(tail, LackingOf(entry, j));
    if j < |head| {
      StumpFails(entry, j, tail[1..]);
      assert tail == [STAR] + tail[1..];
      FailedFrame(entry);
    } else {
      var z := j - |head|;
      assert b[..j] + tail == head + (items[..z] + tail);
      CutWithin(entry, z, tail);
      PrintedArrayHeader(|entry|, items[..z] + tail);
      CutFrameOfItems(entry, ParseItems(|entry|, items[..z] + tail));
    }
  }

  /** What a replay makes of a cut frame: nothing, or the altered command. */
  ghost predicate Swallowed(entry: Command, out: Outcome, s: State, now: int) {
    out == Ran(s, []) || exists e :: Altered(entry, e) && out == Dispatch(e, s, now)
  }

  lemma CutReplay(entry: Command, b: Bytes, s: State, now: int)
    requires CutFrame(entry, ParseValue(b))
    ensures Swallowed(entry, ReplayFrames(b, s, now), s, now)
  {
    hide ParseValue, Dispatch, Altered, ToCommand;
    match ParseValue(b)
    case Failed =>
    case Parsed(v, rest) =>
      FramesEnd(rest);
      var parts := ToCommand(v);
      if parts.Some? && parts.value != [] {
        var out := Dispatch(parts.value, s, now);
        if out.Ran? {
          assert ReplayFrames(rest, out.state, now) == Ran(out.state, []);
          assert out.log + [] == out.log;
        }
        assert ReplayFrames(b, s, now) == out;
      }
  }

  lemma FramesEnd(b: Bytes)
    requires ParseValue(b) == Failed
    ensures forall s, now :: ReplayFrames(b, s, now) == Ran(s, [])
  {
    hide ParseValue;
  }

  // ----- One command logs for one key -----

  lemma KeyOfHandle(n: Name, args: seq<Bytes>)
    requires Handle(n, args).Some?
    ensures var op := Handle(n, args).value;
            && (op.FlushDb? || (args != [] && op.key == args[0]))
            && (op.Set? ==> op.options == NO_OPTIONS)
  {
    hide ReadPairs, Atoi, AtoiUnchecked, Wrap64;
  }

  /** A replayed operation logs at most one entry, and an entry with a key is about the operation's own. */
  lemma KeyOfLog(db: Db, i: DbIndex, op: KeyOp, now: int)
    requires op.Set? ==> op.options == NO_OPTIONS
    ensures var log := Run(db, i, op, now).log;
            |log| <= 1 && (log != [] && |log[0]| >= 3 ==> !op.FlushDb? && log[0][2] == op.key)
  {
    hide Itoa, Spelling, Flatten, Atoi, Window, PopCount, Reversed, Wrap64, WholeSeconds, WithoutFields;
  }

  lemma KeyOfDispatch(parts: Command, s: State, now: int)
    requires Dispatch(parts, s, now).Ran?
    ensures var log := Dispatch(parts, s, now).log;
            |log| <= 1 && (log != [] && |log[0]| >= 3 ==> |parts| >= 3 && log[0][2] == parts[2])
  {
    hide Handle, Run, ParseName, Atoi, Spelling;
    match Decode(parts)
    case Ignore =>
    case Everything =>
    case Perform(i, op) =>
      var n := ParseName(parts[0]).value;
      KeyOfHandle(n, parts[2..]);
      KeyOfLog(s[i], i, op, now);
  }

  // ----- Entries to append, with their line starts at different places -----

  const A: byte := 97
  const ZERO: Bytes := [48]

  /** SET k a in database 0. */
  function Probe(k: byte): Command {
    [Spelling(SET), ZERO, [k], [A]]
  }

  /** RPUSH k a a a a a a a a a in database 0: a two-digit count shifts everything by one. */
  function Shifted(k: byte): Command {
    [Spelling(RPUSH), ZERO, [k], [A], [A], [A], [A], [A], [A], [A], [A], [A]]
  }

  lemma ZeroIndex()
    ensures Itoa(0) == ZERO
  {
  }

  lemma Numerals()
    ensures Itoa(1) == [49] && Itoa(3) == [51] && Itoa(4) == [52] && Itoa(5) == [53] && Itoa(12) == [49, 50]
  {
    assert Digits(1) == [49] && Digits(12) == Digits(1) + [50];
  }

  lemma ItemFront(x: Bytes, rest: seq<Bytes>)
    ensures EncodeItems(Bulks([x] + rest)) == [DOLLAR] + Itoa(|x|) + CRLF + x + CRLF + EncodeItems(Bulks(rest))
  {
    hide Itoa, EncodeItems, Bulks;
    BulkItem([x] + rest);
    assert ([x] + rest)[1..] == rest;
  }

  lemma ProbeBytes(k: byte)
    ensures Encode(ToResp(Probe(k))) ==
            [42, 52, 13, 10] + ([36, 51, 13, 10, 83, 69, 84, 13, 10] + ([36, 49, 13, 10, 48, 13, 10] +
            ([36, 49, 13, 10, k, 13, 10] + [36, 49, 13, 10, 97, 13, 10])))
  {
    hide Itoa, Digits, Encode, EncodeItems, Bulks, ToResp;
    Numerals();
    assert Probe(k) == [Spelling(SET)] + ([ZERO] + ([[k]] + ([[A]] + [])));
    ArrayHeader(Probe(k));
    ItemFront(Spelling(SET), [ZERO] + ([[k]] + ([[A]] + [])));
    ItemFront(ZERO, [[k]] + ([[A]] + []));
    ItemFront([k], [[A]] + []);
    ItemFront([A], []);
  }

  /** Apart from its line starts, nothing in the probe begins a value. */
  lemma ProbeGaps(k: byte, m: nat)
    requires k == 97 || k == 98
    requires 0 < m && m != 4 && m != 13 && m != 20 && m != 27
    ensures var b := Encode(ToResp(Probe(k))); m <= |b| ==> ParseValue(b[m..]) == Failed
  {
    hide Encode, ParseValue;
    ProbeBytes(k);
    var b := Encode(ToResp(Probe(k)));
    if m < |b| {
      assert b[m] in [52, 13, 10, 51, 83, 69, 84, 49, 48, 97, 98];
      NoValue(b[m..]);
    } else if m == |b| {
      assert b[m..] == [];
      NothingParses();
    }
  }

  lemma NoValue(b: Bytes)
    requires b != [] && b[0] in [52, 13, 10, 51, 83, 69, 84, 49, 48, 97, 98, 72]
    ensures ParseValue(b) == Failed
  {
  }

  lemma ShiftedFront(k: byte) returns (items: Bytes)
    ensures Encode(ToResp(Shifted(k))) ==
            [42, 49, 50, 13, 10] + ([36, 53, 13, 10, 82, 80, 85, 83, 72, 13, 10] + ([36, 49, 13, 10, 48, 13, 10] +
            ([36, 49, 13, 10, k, 13, 10] + items)))
  {
    hide Itoa, Digits, Encode, EncodeItems, Bulks, ToResp;
    Numerals();
    assert Shifted(k) == [Spelling(RPUSH)] + ([ZERO] + ([[k]] + Nine()));
    ArrayHeader(Shifted(k));
    ItemFront(Spelling(RPUSH), [ZERO] + ([[k]] + Nine()));
    ItemFront(ZERO, [[k]] + Nine());
    ItemFront([k], Nine());
    items := EncodeItems(Bulks(Nine()));
  }

  lemma ShiftedBytes(k: byte, rest: Bytes)
    ensures var b := Encode(ToResp(Shifted(k))) + rest;
            |b| > 28 && b[0] == STAR && b[4] == 10 && b[13] == 72 && b[20] == 48 && b[27] == k
  {
    hide Encode, ToResp;
    var items := ShiftedFront(k);
  }

  /** Where the probe has a line start the shifted entry has none. */
  lemma ShiftedGaps(k: byte, m: nat, rest: Bytes)
    requires (k == 97 || k == 98) && (m == 4 || m == 13 || m == 20 || m == 27)
    ensures var b := Encode(ToResp(Shifted(k))) + rest; m <= |b| && ParseValue(b[m..]) == Failed && b[0] == STAR
  {
    hide Encode, ParseValue;
    ShiftedBytes(k, rest);
    NoValue((Encode(ToResp(Shifted(k))) + rest)[m..]);
  }

  /** What to append after a cut that lacks m bytes of a payload. */
  function Detector(k: byte, m: nat): seq<Command> {
    if m == 4 || m == 13 || m == 20 || m == 27 then [Shifted(k), Probe(k)] else [Probe(k)]
  }

  lemma DetectorFollows(k: byte, m: nat)
    requires k == 97 || k == 98
    ensures Follows(EncodeLog(Detector(k, m)), m)
  {
    hide ParseValue, Encode, ToResp, Shifted, Probe;
    OneEncoded(Probe(k));
    var tail := EncodeLog(Detector(k, m));
    if m == 4 || m == 13 || m == 20 || m == 27 {
      assert Detector(k, m)[1..] == [Probe(k)];
      assert tail == Encode(ToResp(Shifted(k))) + Encode(ToResp(Probe(k)));
      ShiftedGaps(k, m, Encode(ToResp(Probe(k))));
    } else {
      ProbeStart(k);
      if m == 0 {
        ProbeParses(k);
      } else {
        ProbeGaps(k, m);
      }
    }
  }

  lemma ProbeStart(k: byte)
    ensures var b := Encode(ToResp(Probe(k))); b != [] && b[0] == STAR
  {
    hide Encode;
    ProbeBytes(k);
  }

  lemma ProbeStorable(k: byte)
    ensures Storable(Probe(k)) && Storable(Shifted(k))
  {
  }

  lemma ProbeParses(k: byte)
    ensures var r := ParseValue(Encode(ToResp(Probe(k)))); r.Parsed? && r.value.Array? && r.rest == []
  {
    hide ParseValue, Encode, Probe;
    ProbeStorable(k);
    EntryRoundTrip(Probe(k), []);
    assert Encode(ToResp(Probe(k))) + [] == Encode(ToResp(Probe(k)));
  }

  lemma DetectorStorable(k: byte, m: nat)
    ensures StorableLog(Detector(k, m))
  {
    hide Probe, Shifted;
    ProbeStorable(k);
  }

  /** Replayed on any store, the detector ends by logging a SET of its key. */
  lemma DetectorLogs(k: byte, m: nat, s: State, now: int)
    ensures var out := ReplayAll(Detector(k, m), s, now);
            out.Ran? && out.log != [] && out.log[|out.log| - 1] == Probe(k)
  {
    hide Run, DecodesTo, Spelling, Itoa, RunAll;
    var set_, push := Set([k], [A], NO_OPTIONS), RPush([k], Nine());
    ProbeEntry(k);
    DecodeHandled(SET, 0, [[k], [A]], set_);
    DecodeTail(RPUSH, 0, [k], Nine(), push);
    if m == 4 || m == 13 || m == 20 || m == 27 {
      RunTwo(push, set_, s[0], 0, now);
      ReplayDecoded(Detector(k, m), [push, set_], 0, s, now);
      ProbeLog(Run(s[0], 0, push, now).db, k, now);
    } else {
      RunOne(set_, s[0], 0, now);
      ReplayDecoded(Detector(k, m), [set_], 0, s, now);
      ProbeLog(s[0], k, now);
    }
  }

  function Nine(): seq<Bytes> {
    [[A], [A], [A], [A], [A], [A], [A], [A], [A]]
  }

  lemma ProbeEntry(k: byte)
    ensures Probe(k) == Entry(SET, 0, [[k], [A]])
    ensures Shifted(k) == Entry(RPUSH, 0, [[k]] + Nine())
  {
    hide Itoa, Spelling;
    ZeroIndex();
  }

  lemma ProbeLog(db: Db, k: byte, now: int)
    ensures Run(db, 0, Set([k], [A], NO_OPTIONS), now).log == [Probe(k)]
  {
    hide Itoa, Spelling, Entry;
    ProbeEntry(k);
  }

  // ----- Exactly the cuts between entries -----

  /** A key of one byte that is not the third part of the entry. */
  function FreshKey(entry: Command): (k: byte)
    ensures k == 97 || k == 98
    ensures |entry| >= 3 ==> entry[2] != [k]
  {
    if |entry| >= 3 && entry[2] == [97] then 98 else 97
  }

  /** No altered command logs a SET of the fresh key. */
  lemma AlteredLogs(entry: Command, e: Command, s: State, now: int)
    requires Altered(entry, e) && Dispatch(e, s, now).Ran?
    ensures Dispatch(e, s, now).log != [Probe(FreshKey(entry))] && |Dispatch(e, s, now).log| <= 1
  {
    hide Dispatch;
    var k := FreshKey(entry);
    KeyOfDispatch(e, s, now);
    assert |e| > 3 ==> e[2] == e[..|e| - 1][2] == entry[..|e| - 1][2] == entry[2];
    assert |e| == 3 ==> e[2] == entry[2] || STAR in e[2];
    assert STAR !in [k] && Probe(k)[2] == [k] && |Probe(k)| == 4;
  }

  lemma SwallowedDiffers(entry: Command, out: Outcome, m: nat, s: State, now: int)
    requires Swallowed(entry, out, s, now)
    ensures out != ReplayAll(Detector(FreshKey(entry), m), s, now)
  {
    hide Dispatch, ReplayAll, Altered, Probe;
    var k := FreshKey(entry);
    var right := ReplayAll(Detector(k, m), s, now);
    DetectorLogs(k, m, s, now);
    if out != Ran(s, []) {
      var e :| Altered(entry, e) && out == Dispatch(e, s, now);
      if out.Ran? {
        AlteredLogs(entry, e, s, now);
        assert |out.log| == 1 ==> out.log == [out.log[|out.log| - 1]];
      }
    }
  }

  /** After a cut inside an entry there is something to append that the next start does not read. */
  lemma CutInsideLoses(log: seq<Command>, k: nat, s: State, now: int) returns (more: seq<Command>)
    requires StorableLog(log) && k <= |EncodeLog(log)| && Stump(log, k) != []
    requires ReplayAll(Kept(log, k), s, now).Ran?
    ensures StorableLog(more)
    ensures ReplayFile(EncodeLog(log)[..k] + EncodeLog(more), s, now) != ReplayAll(Kept(log, k) + more, s, now)
  {
    hide ReplayAll, ReplayFrames, EncodeLog, Stump, ParseValue, Encode, ToResp, Detector, Swallowed, LackingOf, Follows;
    var n, stump := Whole(log, k), Stump(log, k);
    CutShape(log, k);
    var entry := log[n];
    assert entry in log;
    var m := LackingOf(entry, |stump|);
    var key := FreshKey(entry);
    more := Detector(key, m);
    DetectorStorable(key, m);
    DetectorFollows(key, m);
    var tail := EncodeLog(more);
    var done := ReplayAll(Kept(log, k), s, now);
    CutEntry(entry, |stump|, tail);
    CutReplay(entry, stump + tail, done.state, now);
    SwallowedDiffers(entry, ReplayFrames(stump + tail, done.state, now), m, done.state, now);
    StorablePart(log, n);
    assert EncodeLog(log)[..k] + tail == EncodeLog(Kept(log, k)) + (stump + tail);
    FramesThen(Kept(log, k), stump + tail, s, now);
    assert |EncodeLog(log)[..k]| == k && |EncodeLog(Kept(log, k)) + stump| > 0;
    FirstIsStar(log, k, more);
    ReplayAppend(Kept(log, k), more, s, now);
    SameAfter(done.log, ReplayFrames(stump + tail, done.state, now), ReplayAll(more, done.state, now));
  }

  /** The same entries in front make no difference disappear. */
  lemma SameAfter(l: seq<Command>, a: Outcome, b: Outcome)
    requires a != b
    ensures a.Ran? && b.Ran? ==> a.state != b.state || l + a.log != l + b.log
  {
    if a.Ran? && b.Ran? && l + a.log == l + b.log {
      assert a.log == (l + a.log)[|l|..] && b.log == (l + b.log)[|l|..];
    }
  }

  /** What the next session appends is read as it was written, whatever it is, exactly when the crash left no part of an entry. */
  lemma AppendExactly(log: seq<Command>, k: nat, s: State, now: int)
    requires StorableLog(log) && k <= |EncodeLog(log)| && ReplayAll(Kept(log, k), s, now).Ran?
    ensures (forall more :: StorableLog(more) ==>
               ReplayFile(EncodeLog(log)[..k] + EncodeLog(more), s, now) == ReplayAll(Kept(log, k) + more, s, now))
            <==> Stump(log, k) == []
  {
    hide ReplayAll, ReplayFile, EncodeLog, Stump, StorableLog;
    if Stump(log, k) == [] {
      forall more | StorableLog(more)
        ensures ReplayFile(EncodeLog(log)[..k] + EncodeLog(more), s, now) == ReplayAll(Kept(log, k) + more, s, now)
      {
        AppendAtBoundary(log, k, more, s, now);
      }
    } else {
      var more := CutInsideLoses(log, k, s, now);
    }
  }

  // ----- A value nobody wrote -----

  lemma CutLater(b: Bytes, first: Bytes, rest: Bytes, m: nat, tail: Bytes)
    requires b == first + rest && m <= |rest|
    ensures m <= |b| && b[..|b| - m] + tail == first + (rest[..|rest| - m] + tail)
  {
    assert b[..|b| - m] == first + rest[..|rest| - m];
  }

  lemma OneItem(b: Bytes, x: Resp, rest: Bytes)
    requires ParseValue(b) == Parsed(x, rest)
    ensures ParseItems(1, b) == Parsed([x], rest)
  {
    hide ParseValue, ParseItems;
    ParseFirst(0, b, x, rest);
    ParseNone(rest);
    assert [x] + [] == [x];
  }

  lemma OnlyPartSwallows(s: Bytes, m: nat, tail: Bytes, file: Bytes)
    requires |s| <= MAX_INT64 - 2 && 1 <= m <= |s| + 2 && m <= |tail|
    requires file == LengthLine(s) + ((s + CRLF)[..|s| + 2 - m] + tail)
    ensures ParseItems(1, file) == Parsed([BulkString(Patched(s, m, tail))], tail[m..])
  {
    hide ParseValue, ParseItems, LengthLine, Patched;
    BulkSwallows(s, m, tail);
    OneItem(file, BulkString(Patched(s, m, tail)), tail[m..]);
  }

  lemma BulkCut(s: Bytes, m: nat, tail: Bytes)
    requires 1 <= m <= |s| + 2
    ensures var b := LengthLine(s) + (s + CRLF);
            m <= |b| && b[..|b| - m] + tail == LengthLine(s) + ((s + CRLF)[..|s| + 2 - m] + tail)
  {
    hide LengthLine;
    var body := s + CRLF;
    assert |body| == |s| + 2;
    CutLater(LengthLine(s) + body, LengthLine(s), body, m, tail);
  }

  lemma LastShift(parts: seq<Bytes>, x: Bytes)
    requires |parts| > 1
    ensures var n := |parts| - 1;
            && parts[n] == parts[1..][n - 1]
            && parts[..n] + [x] == [parts[0]] + (parts[1..][..n - 1] + [x])
  {
  }

  lemma LastAlone(parts: seq<Bytes>, m: nat, tail: Bytes, file: Bytes)
    requires |parts| == 1 && |parts[0]| <= MAX_INT64 - 2 && 1 <= m <= |parts[0]| + 2 && m <= |tail|
    requires m <= |EncodeItems(Bulks(parts))|
    requires var b := EncodeItems(Bulks(parts)); file == b[..|b| - m] + tail
    ensures ParseItems(1, file) == Parsed(Bulks(parts[..0] + [Patched(parts[0], m, tail)]), tail[m..])
  {
    hide ParseItems, Encode, EncodeItems, Bulks, Patched;
    var s, x := parts[0], Patched(parts[0], m, tail);
    ItemsCons(parts);
    NoItems();
    assert parts[1..] == [] && Encode(BulkString(s)) + [] == Encode(BulkString(s));
    BulkShape(s);
    BulkCut(s, m, tail);
    OnlyPartSwallows(s, m, tail, file);
    assert parts[..0] + [x] == [x];
    BulksCons(x, []);
  }

  lemma LongEnough(parts: seq<Bytes>, m: nat)
    requires parts != [] && 1 <= m <= |parts[|parts| - 1]| + 2
    ensures m <= |EncodeItems(Bulks(parts))|
  {
    hide Encode, EncodeItems, Bulks, Itoa;
    ItemsCons(parts);
    BulkShape(parts[0]);
    if |parts| > 1 {
      LongEnough(parts[1..], m);
    }
  }

  /** The last part cut in its payload, with enough appended: the frame ends where the swallow does. */
  lemma {:induction false} LastPartSwallows(parts: seq<Bytes>, m: nat, tail: Bytes, file: Bytes)
    requires parts != [] && forall p :: p in parts ==> |p| <= MAX_INT64 - 2
    requires 1 <= m <= |parts[|parts| - 1]| + 2 && m <= |tail| && m <= |EncodeItems(Bulks(parts))|
    requires var b := EncodeItems(Bulks(parts)); file == b[..|b| - m] + tail
    ensures var n := |parts| - 1; ParseItems(|parts|, file) == Parsed(Bulks(parts[..n] + [Patched(parts[n], m, tail)]), tail[m..])
    decreases |parts|
  {
    hide ParseValue, ParseItems, Encode, EncodeItems, Bulks, Patched;
    var s, n := parts[0], |parts| - 1;
    if n == 0 {
      LastAlone(parts, m, tail, file);
    } else {
      var x, rest, first := Patched(parts[n], m, tail), EncodeItems(Bulks(parts[1..])), Encode(BulkString(s));
      LastShift(parts, x);
      LongEnough(parts[1..], m);
      var later := rest[..|rest| - m] + tail;
      LastPartSwallows(parts[1..], m, tail, later);
      ItemsCons(parts);
      CutLater(EncodeItems(Bulks(parts)), first, rest, m, tail);
      PrintedBulk(s, later);
      ParseFirst(n, file, BulkString(s), later);
      BulksCons(s, parts[1..][..n - 1] + [x]);
    }
  }

  lemma HeadStays(first: Bytes, rest: Bytes)
    requires first != []
    ensures (first + rest)[0] == first[0]
  {
  }

  lemma LastPartFrame(entry: Command, m: nat, tail: Bytes, file: Bytes)
    requires Storable(entry) && 1 <= m <= |entry[|entry| - 1]| + 2 && m <= |tail|
    requires m <= |EncodeItems(Bulks(entry))|
    requires var items := EncodeItems(Bulks(entry)); file == [STAR] + Itoa(|entry|) + CRLF + (items[..|items| - m] + tail)
    ensures var n := |entry| - 1; ParseValue(file) == Parsed(ToResp(entry[..n] + [Patched(entry[n], m, tail)]), tail[m..])
  {
    hide EncodeItems, Bulks, Itoa, ParseValue, ParseItems, Patched;
    var items := EncodeItems(Bulks(entry));
    LastPartSwallows(entry, m, tail, items[..|items| - m] + tail);
    PrintedArrayHeader(|entry|, items[..|items| - m] + tail);
  }

  lemma FrameCut(entry: Command, m: nat, tail: Bytes)
    requires entry != [] && 1 <= m <= |EncodeItems(Bulks(entry))|
    ensures var b, items := Encode(ToResp(entry)), EncodeItems(Bulks(entry));
            && m <= |b| && b[..|b| - m] + tail == [STAR] + Itoa(|entry|) + CRLF + (items[..|items| - m] + tail)
            && (b[..|b| - m] + tail)[0] == STAR
  {
    hide Encode, EncodeItems, Bulks, ToResp, Itoa;
    var items, head := EncodeItems(Bulks(entry)), [STAR] + Itoa(|entry|) + CRLF;
    EntryShape(entry);
    CutLater(Encode(ToResp(entry)), head, items, m, tail);
    StarHead(|entry|);
    HeadStays(head, items[..|items| - m] + tail);
  }

  lemma StarHead(n: nat)
    ensures ([STAR] + Itoa(n) + CRLF)[0] == STAR
  {
    hide Itoa;
  }

  lemma NoItems()
    ensures EncodeItems(Bulks([])) == [] && Bulks([]) == []
  {
  }

  lemma BulksCons(x: Bytes, rest: seq<Bytes>)
    ensures Bulks([x] + rest) == [BulkString(x)] + Bulks(rest)
    ensures rest == [] ==> Bulks([x]) == [BulkString(x)]
  {
    assert ([x] + rest)[1..] == rest;
    assert [x] + [] == [x];
  }

  /** Three bytes short, a value ends in the star of the next entry. */
  lemma ThreeShort(value: Bytes, tail: Bytes)
    requires value != [] && |tail| >= 3 && tail[0] == STAR
    ensures Patched(value, 3, tail) == value[..|value| - 1] + [STAR]
  {
    assert (value + CRLF)[..|value| - 1] == value[..|value| - 1];
    assert (value[..|value| - 1] + tail)[..|value|] == value[..|value| - 1] + tail[..1];
  }

  /** The fourth byte of an entry of fewer than ten parts ends its first line. */
  lemma FourthByte(entry: Command, rest: Bytes)
    requires 0 < |entry| < 10
    ensures var b := Encode(ToResp(entry)) + rest; |b| > 3 && b[0] == STAR && b[3] == LF
  {
    hide Itoa;
    EntryShape(entry);
    OneDigit(|entry|);
  }

  lemma OneDigit(n: nat)
    requires n < 10
    ensures |Itoa(n)| == 1
  {
  }

  lemma LineFeedIsNoValue(b: Bytes)
    requires b != [] && b[0] == LF
    ensures ParseValue(b) == Failed
  {
  }

  /** A frame of a command, then nothing that parses. */
  lemma OneFrame(b: Bytes, entry: Command, rest: Bytes, s: State, now: int)
    requires Storable(entry) && ParseValue(b) == Parsed(ToResp(entry), rest) && ParseValue(rest) == Failed
    ensures ReplayFrames(b, s, now) == Dispatch(entry, s, now)
  {
    hide ParseValue, Dispatch, ToCommand, ToResp;
    EntryRoundTrip(entry, []);
    FramesEnd(rest);
    var out := Dispatch(entry, s, now);
    if out.Ran? {
      assert ReplayFrames(rest, out.state, now) == Ran(out.state, []) && out.log + [] == out.log;
    }
  }

  /** The frame of a SET that lacks its last three bytes. */
  lemma CorruptFrame(i: DbIndex, key: Bytes, value: Bytes, tail: Bytes)
    requires value != [] && |key| <= MAX_INT64 - 2 && |value| <= MAX_INT64 - 2
    requires |tail| >= 3 && tail[0] == STAR
    ensures |Encode(ToResp(Entry(SET, i, [key, value])))| >= 3
    ensures var b := Encode(ToResp(Entry(SET, i, [key, value])));
            && (b[..|b| - 3] + tail)[0] == STAR
            && ParseValue(b[..|b| - 3] + tail) == Parsed(ToResp(Entry(SET, i, [key, value[..|value| - 1] + [STAR]])), tail[3..])
  {
    hide Encode, EncodeItems, Bulks, ToResp, Itoa, Spelling, ParseValue, Patched, Entry;
    var entry := Entry(SET, i, [key, value]);
    var b := Encode(ToResp(entry));
    SetStorable(i, key, value);
    assert entry in [entry];
    EntryParts(i, key, value);
    EntryParts(i, key, value[..|value| - 1] + [STAR]);
    LongEnough(entry, 3);
    FrameCut(entry, 3, tail);
    LastPartFrame(entry, 3, tail, b[..|b| - 3] + tail);
    ThreeShort(value, tail);
    assert entry[..3] + [value[..|value| - 1] + [STAR]] == Entry(SET, i, [key, value[..|value| - 1] + [STAR]]);
  }

  /**
   A crash three bytes before the end of a SET, then a next session: the key is
   set to the value with a star for its last byte, which nobody wrote, and the
   next session's entries are lost.
   */
  lemma CorruptValue(i: DbIndex, key: Bytes, value: Bytes, more: seq<Command>, s: State, now: int)
    requires value != [] && |key| <= MAX_INT64 - 2 && |value| <= MAX_INT64 - 2
    requires more != [] && 0 < |more[0]| < 10
    ensures |Encode(ToResp(Entry(SET, i, [key, value])))| >= 3
    ensures var b, wrong := Encode(ToResp(Entry(SET, i, [key, value]))), value[..|value| - 1] + [STAR];
            ReplayFile(b[..|b| - 3] + EncodeLog(more), s, now) ==
            Ran(s[i := s[i][key := Val(Str(wrong), None)]], [Entry(SET, i, [key, wrong])])
  {
    hide Encode, ToResp, Itoa, Spelling, ParseValue, Dispatch, ReplayFrames, Entry;
    var wrong, tail := value[..|value| - 1] + [STAR], EncodeLog(more);
    FourthByte(more[0], EncodeLog(more[1..]));
    CorruptFrame(i, key, value, tail);
    SetStorable(i, key, wrong);
    assert Entry(SET, i, [key, wrong]) in [Entry(SET, i, [key, wrong])];
    LineFeedIsNoValue(tail[3..]);
    var b := Encode(ToResp(Entry(SET, i, [key, value])));
    OneFrame(b[..|b| - 3] + tail, Entry(SET, i, [key, wrong]), tail[3..], s, now);
    SetDispatch(i, key, wrong, s, now);
  }

  lemma EntryParts(i: DbIndex, key: Bytes, value: Bytes)
    ensures Entry(SET, i, [key, value]) == [Spelling(SET), Itoa(i), key, value]
  {
  }
}
