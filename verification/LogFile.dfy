/** The log file: entries as RESP arrays of bulk strings, and the state a file is read back into. */
module LogFile {
  import opened Base
  import opened Resp
  import opened RespTorn
  import opened Entries
  import opened Keyspace
  import opened Replay
  import opened Recovery

  // ----- Entries as RESP values -----

  function Bulks(parts: seq<Bytes>): (items: seq<Resp>)
    ensures |items| == |parts|
  {
    if parts == [] then [] else [BulkString(parts[0])] + Bulks(parts[1..])
  }

  /** Each part is a bulk string, in its place. */
  lemma {:induction false} BulkAt(parts: seq<Bytes>, j: nat)
    requires j < |parts|
    ensures Bulks(parts)[j] == BulkString(parts[j])
  {
    if j > 0 {
      BulkAt(parts[1..], j - 1);
    }
  }

  function ToResp(entry: Command): Resp {
    Array(Bulks(entry))
  }

  /** Bulk and simple strings are command parts; a nil bulk string reads as the empty string. */
  function Parts(items: seq<Resp>): (r: Option<seq<Bytes>>)
    ensures r.Some? ==> |r.value| == |items|
  {
    if items == [] then Some([])
    else
      var head :=
        match items[0]
        case BulkString(b) => Some(b)
        case SimpleString(b) => Some(b)
        case NilBulk => Some([])
        case _ => None;
      if head.None? then None
      else
        match Parts(items[1..])
        case Some(tail) => Some([head.value] + tail)
        case None => None
  }

  function ToCommand(v: Resp): Option<Command> {
    match v
    case Array(items) => Parts(items)
    case NilArray => Some([])
    case _ => None
  }

  /** What a file written from a log holds. */
  function EncodeLog(log: seq<Command>): Bytes {
    if log == [] then [] else Encode(ToResp(log[0])) + EncodeLog(log[1..])
  }

  // ----- Reading a file -----

  function ReplayFrames(b: Bytes, s: State, now: int): Outcome
    decreases |b|
  {
    match ParseValue(b)
    case Failed => Ran(s, [])
    case Panicked => Outcome.Panicked
    case Parsed(v, rest) =>
      var parts := ToCommand(v);
      if parts.None? || parts.value == [] then ReplayFrames(rest, s, now)
      else
        match Dispatch(parts.value, s, now)
        case Panicked => Outcome.Panicked
        case Ran(s', l) =>
          match ReplayFrames(rest, s', now)
          case Panicked => Outcome.Panicked
          case Ran(s'', l') => Ran(s'', l + l')
  }

  /** An empty file and a file in the old line format leave the store as it is. */
  function ReplayFile(b: Bytes, s: State, now: int): Outcome {
    if b == [] || b[0] != STAR then Ran(s, []) else ReplayFrames(b, s, now)
  }

  // ----- Round trip of one entry -----

  /** Lengths that Go's int can hold. */
  predicate Storable(entry: Command) {
    0 < |entry| <= MAX_INT64 && forall p :: p in entry ==> |p| <= MAX_INT64 - 2
  }

  predicate StorableLog(log: seq<Command>) {
    forall e :: e in log ==> Storable(e)
  }

  lemma StorablePart(log: seq<Command>, m: nat)
    requires StorableLog(log) && m <= |log|
    ensures StorableLog(log[..m])
  {
  }

  lemma {:induction false} BulksPlain(parts: seq<Bytes>)
    requires forall p :: p in parts ==> |p| <= MAX_INT64 - 2
    ensures var items := Bulks(parts);
            && RepresentableItems(items) && LineSafeItems(items)
            && NormItems(items) == items && Parts(items) == Some(parts)
            && forall i :: 0 <= i < |items| ==> items[i].BulkString?
  {
    hide Encode;
    if parts != [] {
      BulksPlain(parts[1..]);
      assert parts == [parts[0]] + parts[1..];
    }
  }

  /** A stored entry reads back as itself; cut short anywhere, it does not read at all. */
  lemma EntryRoundTrip(entry: Command, rest: Bytes)
    requires Storable(entry)
    ensures ParseValue(Encode(ToResp(entry)) + rest) == Parsed(ToResp(entry), rest)
    ensures ToCommand(ToResp(entry)) == Some(entry)
  {
    hide ParseValue, Encode, Bulks, Parts;
    BulksPlain(entry);
    var v := ToResp(entry);
    assert v.Array? && v.items == Bulks(entry);
    assert Representable(v) && LineSafe(v) && Norm(v) == v;
    RoundTrip(v, rest);
  }

  lemma EntryTorn(entry: Command, k: nat)
    requires Storable(entry) && k < |Encode(ToResp(entry))|
    ensures ParseValue(Encode(ToResp(entry))[..k]) == Failed
  {
    hide ParseValue, Encode, Bulks;
    BulksPlain(entry);
    var v := ToResp(entry);
    assert v.Array? && v.items == Bulks(entry) && v.items != [];
    assert Representable(v) && LineSafe(v) && !EndsInHeader(v);
    Torn(v, k);
  }

  // ----- A file cut anywhere -----

  /** How many entries lie wholly within the first k bytes. */
  function Whole(log: seq<Command>, k: int): (n: nat)
    ensures n <= |log|
  {
    if log == [] || |Encode(ToResp(log[0]))| > k then 0
    else 1 + Whole(log[1..], k - |Encode(ToResp(log[0]))|)
  }

  lemma {:induction false} ReplayTornFrames(log: seq<Command>, k: nat, s: State, now: int)
    requires StorableLog(log) && k <= |EncodeLog(log)|
    ensures ReplayFrames(EncodeLog(log)[..k], s, now) == ReplayAll(log[..Whole(log, k)], s, now)
    decreases log
  {
    hide ParseValue, Encode, Dispatch;
    var b := EncodeLog(log)[..k];
    if log == [] || k < |Encode(ToResp(log[0]))| {
      if log == [] {
        ParseNothing();
      } else {
        assert b == Encode(ToResp(log[0]))[..k];
        EntryTorn(log[0], k);
      }
    } else {
      var j := k - |Encode(ToResp(log[0]))|;
      var rest := EncodeLog(log[1..])[..j];
      assert b == Encode(ToResp(log[0])) + rest;
      EntryRoundTrip(log[0], rest);
      var n := Whole(log[1..], j);
      assert log[..Whole(log, k)][0] == log[0] && log[..Whole(log, k)][1..] == log[1..][..n];
      match Dispatch(log[0], s, now)
      case Panicked =>
      case Ran(s', l) => ReplayTornFrames(log[1..], j, s', now);
    }
  }

  lemma StartsWithStar(log: seq<Command>)
    requires log != []
    ensures EncodeLog(log) != [] && EncodeLog(log)[0] == STAR
  {
  }

  /** Reading any byte prefix of a log file applies exactly the entries that lie wholly within it. */
  lemma TornFile(log: seq<Command>, k: nat, s: State, now: int)
    requires StorableLog(log) && k <= |EncodeLog(log)|
    ensures ReplayFile(EncodeLog(log)[..k], s, now) == ReplayAll(log[..Whole(log, k)], s, now)
  {
    hide ReplayFrames, Dispatch, Encode;
    if k == 0 {
      assert Whole(log, k) == 0 && log[..0] == [];
    } else {
      assert log != [];
      StartsWithStar(log);
      ReplayTornFrames(log, k, s, now);
    }
  }

  lemma {:induction false} WholeOfAll(log: seq<Command>)
    ensures Whole(log, |EncodeLog(log)|) == |log|
  {
    if log != [] {
      WholeOfAll(log[1..]);
    }
  }

  /** From operations to bytes and back: the file of a good run restores its data. */
  lemma FileRestoresData(run: seq<Timed>, at: int)
    requires GoodRun(run) && StorableLog(Logged(run))
    ensures var out := ReplayFile(EncodeLog(Logged(run)), EMPTY, at);
            out.Ran? && SimilarAll(Final(run), out.state)
  {
    var log := Logged(run);
    LogRestoresData(run, at);
    WholeOfAll(log);
    TornFile(log, |EncodeLog(log)|, EMPTY, at);
    assert EncodeLog(log)[..|EncodeLog(log)|] == EncodeLog(log) && log[..|log|] == log;
  }

  lemma {:induction false} EncodeLogAppend(a: seq<Command>, b: seq<Command>)
    ensures EncodeLog(a + b) == EncodeLog(a) + EncodeLog(b)
  {
    if a == [] {
      assert a + b == b;
    } else {
      assert (a + b)[1..] == a[1..] + b;
      EncodeLogAppend(a[1..], b);
    }
  }
}
