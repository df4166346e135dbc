/**
 Appending after a crash. The writer opens the file for appending, so the next
 session's entries follow whatever bytes a crash left at its end.
 */
module TornAppend {
  import opened Base
  import opened Decimal
  import opened Resp
  import opened Entries
  import opened Keyspace
  import opened Replay
  import opened Simulation
  import opened LogFile

  /** The entries a cut at byte k leaves whole. */
  function Kept(log: seq<Command>, k: nat): seq<Command> {
    log[..Whole(log, k)]
  }

  /** The bytes after them: the beginning of the entry that was cut. */
  function Stump(log: seq<Command>, k: nat): Bytes
    requires k <= |EncodeLog(log)|
  {
    if |EncodeLog(Kept(log, k))| <= k then EncodeLog(log)[|EncodeLog(Kept(log, k))|..k] else []
  }

  lemma SliceShift(first: Bytes, rest: Bytes, a: nat, j: nat)
    requires a <= j <= |rest|
    ensures (first + rest)[|first| + a..|first| + j] == rest[a..j]
    ensures (first + rest)[..|first| + j] == first + rest[..j]
  {
  }

  lemma {:induction false} CutShape(log: seq<Command>, k: nat)
    requires k <= |EncodeLog(log)|
    ensures |EncodeLog(Kept(log, k))| <= k
    ensures EncodeLog(log)[..k] == EncodeLog(Kept(log, k)) + Stump(log, k)
    ensures var n := Whole(log, k);
            if n == |log| then Stump(log, k) == []
            else |Stump(log, k)| < |Encode(ToResp(log[n]))| && Stump(log, k) == Encode(ToResp(log[n]))[..|Stump(log, k)|]
  {
    hide Encode, ToResp;
    if log != [] {
      var first, rest := Encode(ToResp(log[0])), EncodeLog(log[1..]);
      assert EncodeLog(log) == first + rest;
      if |first| > k {
        assert Kept(log, k) == [];
        assert (first + rest)[..k] == first[..k];
      } else {
        var j := k - |first|;
        CutShape(log[1..], j);
        var kept := Kept(log[1..], j);
        KeptFirst(log, k);
        SliceShift(first, rest, |EncodeLog(kept)|, j);
        assert Stump(log, k) == Stump(log[1..], j);
        assert first + (EncodeLog(kept) + Stump(log, k)) == (first + EncodeLog(kept)) + Stump(log, k);
      }
    }
  }

  lemma KeptFirst(log: seq<Command>, k: nat)
    requires log != [] && |Encode(ToResp(log[0]))| <= k
    ensures var kept := Kept(log[1..], k - |Encode(ToResp(log[0]))|);
            Kept(log, k) == [log[0]] + kept && EncodeLog(Kept(log, k)) == Encode(ToResp(log[0])) + EncodeLog(kept)
  {
    hide Encode, ToResp;
    var kept := Kept(log[1..], k - |Encode(ToResp(log[0]))|);
    assert ([log[0]] + kept)[1..] == kept;
  }

  /** What a replay with these entries behind it comes to. */
  function Continue(done: Outcome, tail: Bytes, now: int): Outcome {
    match done
    case Panicked => Outcome.Panicked
    case Ran(s, l) =>
      match ReplayFrames(tail, s, now)
      case Panicked => Outcome.Panicked
      case Ran(s', l') => Ran(s', l + l')
  }

  lemma {:induction false} FramesThen(log: seq<Command>, tail: Bytes, s: State, now: int)
    requires StorableLog(log)
    ensures ReplayFrames(EncodeLog(log) + tail, s, now) == Continue(ReplayAll(log, s, now), tail, now)
  {
    hide ParseValue, Encode, Dispatch;
    if log == [] {
      assert EncodeLog(log) + tail == tail;
    } else {
      var rest := EncodeLog(log[1..]) + tail;
      assert EncodeLog(log) + tail == Encode(ToResp(log[0])) + rest;
      EntryRoundTrip(log[0], rest);
      match Dispatch(log[0], s, now)
      case Panicked =>
      case Ran(s', l) =>
        FramesThen(log[1..], tail, s', now);
        AddFront(l, ReplayAll(log[1..], s', now), tail, now);
    }
  }

  lemma AddFront(l: seq<Command>, rest: Outcome, tail: Bytes, now: int)
    ensures rest.Ran? && ReplayFrames(tail, rest.state, now).Ran? ==>
              l + (rest.log + ReplayFrames(tail, rest.state, now).log) == (l + rest.log) + ReplayFrames(tail, rest.state, now).log
  {
  }

  /** A cut between entries: the next session's entries are read after those that were kept. */
  lemma AppendAtBoundary(log: seq<Command>, k: nat, more: seq<Command>, s: State, now: int)
    requires StorableLog(log) && StorableLog(more) && k <= |EncodeLog(log)|
    requires Stump(log, k) == []
    ensures ReplayFile(EncodeLog(log)[..k] + EncodeLog(more), s, now) == ReplayAll(Kept(log, k) + more, s, now)
  {
    hide ReplayFile, ReplayAll, EncodeLog, Stump;
    var all := Kept(log, k) + more;
    CutShape(log, k);
    StorablePart(log, Whole(log, k));
    EncodeLogAppend(Kept(log, k), more);
    assert EncodeLog(Kept(log, k)) + [] == EncodeLog(Kept(log, k));
    assert EncodeLog(log)[..k] + EncodeLog(more) == EncodeLog(all);
    WholeOfAll(all);
    TornFile(all, |EncodeLog(all)|, s, now);
    assert EncodeLog(all)[..|EncodeLog(all)|] == EncodeLog(all) && all[..|all|] == all;
  }

  // ----- A cut within an entry's first line -----

  /** A count that lost its line end, followed by the next entry's star, is not a header. */
  lemma HeaderThenStar(n: nat, j: nat, rest: Bytes)
    requires InInt64(n) && j <= |Itoa(n)| + 1
    ensures ScanHeader((Itoa(n) + [CR])[..j] + ([STAR] + rest)) == ScanFailed
  {
    hide Itoa, Atoi;
    var t, after := Itoa(n), [STAR] + rest;
    ItoaToken(n);
    if j == 0 {
      NoCount(rest);
      assert (t + [CR])[..0] + after == after;
    } else if j <= |t| {
      CountPrefix(n, j);
      assert (t + [CR])[..j] == t[..j];
      ScanToken(t[..j], after);
      StarEnds(Atoi(t[..j]), rest);
    } else {
      assert (t + [CR])[..j] + after == t + ([CR] + after);
      ScanToken(t, [CR] + after);
      StarEnds(Atoi(t), rest);
    }
  }

  lemma CountPrefix(n: nat, j: nat)
    requires 0 < j <= |Itoa(n)|
    ensures var s := Itoa(n)[..j]; s != [] && !IsBlank(s[0]) && AllDigits(s[SignLength(s)..])
  {
    assert Itoa(n) == Digits(n);
  }

  lemma StarEnds(number: Option<int>, rest: Bytes)
    ensures EndHeader(number, [STAR] + rest) == ScanFailed
    ensures EndHeader(number, [CR] + ([STAR] + rest)) == ScanFailed
  {
    assert ([CR] + ([STAR] + rest))[1..] == [STAR] + rest;
  }

  lemma NoCount(rest: Bytes)
    ensures ScanHeader([STAR] + rest) == ScanFailed
  {
    var b := [STAR] + rest;
    assert SkipBlanks(b) == b && SignLength(b) == 0 && b[0..] == b && DigitRun(b) == 0;
    assert b[..0] == [];
  }

  lemma EntryHead(entry: Command)
    ensures var b := Encode(ToResp(entry)); |b| >= 3 + |Itoa(|entry|)| && b[..2 + |Itoa(|entry|)|] == [STAR] + (Itoa(|entry|) + [CR])
  {
    hide Itoa;
    var head := [STAR] + Itoa(|entry|) + CRLF;
    assert Encode(ToResp(entry))[..|head|] == head;
    assert head[..|head| - 1] == [STAR] + (Itoa(|entry|) + [CR]);
  }

  /** The cut entry's first line has begun but not ended. */
  predicate CutInHeader(log: seq<Command>, k: nat)
    requires k <= |EncodeLog(log)|
  {
    var n := Whole(log, k);
    n < |log| && 0 < |Stump(log, k)| <= 2 + |Itoa(|log[n]|)|
  }

  lemma StumpFails(entry: Command, j: nat, rest: Bytes)
    requires Storable(entry) && 0 < j <= 2 + |Itoa(|entry|)| && j <= |Encode(ToResp(entry))|
    ensures ParseValue(Encode(ToResp(entry))[..j] + ([STAR] + rest)) == Failed
  {
    hide Encode, Itoa, ParseValue, ScanHeader;
    EntryHead(entry);
    var b := Encode(ToResp(entry));
    var t := Itoa(|entry|) + [CR];
    assert b[..j] == b[..2 + |Itoa(|entry|)|][..j] == ([STAR] + t)[..j] == [STAR] + t[..j - 1];
    HeaderThenStar(|entry|, j - 1, rest);
    ParseStar(t[..j - 1] + ([STAR] + rest));
    assert b[..j] + ([STAR] + rest) == [STAR] + (t[..j - 1] + ([STAR] + rest));
  }

  /** A cut within an entry's first line: everything the next session appends is lost. */
  lemma AppendInHeader(log: seq<Command>, k: nat, more: seq<Command>, s: State, now: int)
    requires StorableLog(log) && StorableLog(more) && k <= |EncodeLog(log)| && CutInHeader(log, k)
    ensures ReplayFile(EncodeLog(log)[..k] + EncodeLog(more), s, now) == ReplayAll(Kept(log, k), s, now)
  {
    hide ReplayAll, ReplayFrames, EncodeLog, Stump, ParseValue, Encode, ToResp;
    var n, stump := Whole(log, k), Stump(log, k);
    CutShape(log, k);
    StorablePart(log, n);
    if more == [] {
      assert EncodeLog(more) == [] by { EncodeNothing(); }
      assert EncodeLog(log)[..k] + [] == EncodeLog(log)[..k];
      TornFile(log, k, s, now);
    } else {
      StartsWithStar(more);
      var tail := EncodeLog(more)[1..];
      assert EncodeLog(more) == [STAR] + tail;
      StumpFails(log[n], |stump|, tail);
      var file := EncodeLog(log)[..k] + EncodeLog(more);
      assert file == EncodeLog(Kept(log, k)) + (stump + ([STAR] + tail));
      FramesThen(Kept(log, k), stump + ([STAR] + tail), s, now);
      FramesStop(stump + ([STAR] + tail), ReplayAll(Kept(log, k), s, now), now);
      assert log[n] in log;
      EntryHead(log[n]);
      FirstIsStar(log, k, more);
    }
  }

  lemma EncodeNothing()
    ensures EncodeLog([]) == []
  {
  }

  lemma FramesStop(tail: Bytes, done: Outcome, now: int)
    requires ParseValue(tail) == Failed
    ensures Continue(done, tail, now) == done
  {
    hide ParseValue;
    if done.Ran? {
      assert done.log + [] == done.log;
    }
  }

  lemma FirstIsStar(log: seq<Command>, k: nat, more: seq<Command>)
    requires log != [] && 0 < k <= |EncodeLog(log)|
    ensures (EncodeLog(log)[..k] + EncodeLog(more))[0] == STAR
  {
    StartsWithStar(log);
  }

  /** One byte of any entry left by a crash, then a SET: the SET is in the file and not in the store rebuilt from it. */
  lemma AppendedSetIsLost(entry: Command, i: DbIndex, key: Bytes, value: Bytes, now: int)
    requires Storable(entry) && |key| <= MAX_INT64 - 2 && |value| <= MAX_INT64 - 2
    ensures |EncodeLog([entry])| >= 1
    ensures var more := [Entry(SET, i, [key, value])];
            && ReplayFile(EncodeLog([entry])[..1] + EncodeLog(more), EMPTY, now) == Ran(EMPTY, [])
            && ReplayAll(Kept([entry], 1) + more, EMPTY, now).Ran?
            && key in ReplayAll(Kept([entry], 1) + more, EMPTY, now).state[i]
  {
    hide ReplayFile, Encode, ToResp, Itoa, Spelling, DecodesTo;
    var more := [Entry(SET, i, [key, value])];
    EntryHead(entry);
    OneEncoded(entry);
    assert Whole([entry], 1) == 0 && Kept([entry], 1) == [];
    assert StorableLog([entry]);
    SetStorable(i, key, value);
    AppendInHeader([entry], 1, more, EMPTY, now);
    assert [] + more == more;
    SetReplays(i, key, value, now);
  }

  lemma OneEncoded(entry: Command)
    ensures EncodeLog([entry]) == Encode(ToResp(entry))
    ensures |EncodeLog([])| == 0
  {
    hide Encode, ToResp;
    assert [entry][1..] == [];
  }

  lemma ShortIndex(i: DbIndex)
    ensures |Itoa(i)| <= 2
  {
    if i >= 10 {
      assert Digits(i / 10) == [Digit(i / 10)];
    }
  }

  lemma SetStorable(i: DbIndex, key: Bytes, value: Bytes)
    requires |key| <= MAX_INT64 - 2 && |value| <= MAX_INT64 - 2
    ensures StorableLog([Entry(SET, i, [key, value])])
  {
    var e := Entry(SET, i, [key, value]);
    ShortIndex(i);
    assert e == [Spelling(SET), Itoa(i), key, value];
  }

  lemma SetReplays(i: DbIndex, key: Bytes, value: Bytes, now: int)
    ensures var out := ReplayAll([Entry(SET, i, [key, value])], EMPTY, now);
            out.Ran? && key in out.state[i]
  {
    hide ReplayAll, RunAll, Itoa, Spelling, Entry;
    var op := Set(key, value, NO_OPTIONS);
    DecodeHandled(SET, i, [key, value], op);
    ReplayDecoded([Entry(SET, i, [key, value])], [op], i, EMPTY, now);
    RunOne(op, EMPTY[i], i, now);
  }
}
