/**
 The path of a log entry: an operation sends its entries one by one, under the
 store's lock, into a bounded channel; a writer goroutine takes one out, which
 frees its slot, and then appends its encoding to the file. A crash keeps some
 byte prefix of the file.
 */
module Durability {
  import opened Base
  import opened Decimal
  import opened Fields
  import opened Resp
  import opened Entries
  import opened Keyspace
  import opened Replay
  import opened Simulation
  import opened Recovery
  import opened LogFile

  /** The capacity of the channel between the store and the writer. */
  const SLOTS: nat := 100

  /**
   run is the history of operations in lock order; pending holds the entries the
   operation that owns the lock has yet to send, hand the entry that the writer
   has received and not yet flushed.
   */
  datatype Sys = Sys(
    run: seq<Timed>,
    pending: seq<Command>,
    channel: seq<Command>,
    hand: Option<Command>,
    written: seq<Command>,
    file: Bytes)

  const BOOT: Sys := Sys([], [], [], None, [], [])

  datatype Event = Begin(t: Timed) | Send | Take | Flush

  function InHand(s: Sys): seq<Command> {
    if s.hand.Some? then [s.hand.value] else []
  }

  function Step(s: Sys, e: Event): Option<Sys> {
    match e
    case Begin(t) =>
      // The lock is free once every entry of the previous operation has been sent.
      if s.pending == [] then Some(s.(run := s.run + [t], pending := LogOf(Final(s.run), t.op, t.now))) else None
    case Send =>
      if s.pending != [] && |s.channel| < SLOTS
      then Some(s.(pending := s.pending[1..], channel := s.channel + [s.pending[0]])) else None
    case Take =>
      if s.hand.None? && s.channel != []
      then Some(s.(channel := s.channel[1..], hand := Some(s.channel[0]))) else None
    case Flush =>
      if s.hand.Some?
      then Some(s.(hand := None, written := s.written + [s.hand.value], file := s.file + Encode(ToResp(s.hand.value))))
      else None
  }

  function Exec(events: seq<Event>): Option<Sys> {
    if events == [] then Some(BOOT)
    else
      match Exec(events[..|events| - 1])
      case None => None
      case Some(s) => Step(s, events[|events| - 1])
  }

  /** File, the writer's hand, channel and sender together hold the log, in lock order. */
  ghost predicate InOrder(s: Sys) {
    && s.written + InHand(s) + s.channel + s.pending == Logged(s.run)
    && s.file == EncodeLog(s.written)
    && |s.channel| <= SLOTS
  }

  lemma LoggedSnoc(run: seq<Timed>, t: Timed)
    ensures Logged(run + [t]) == Logged(run) + LogOf(Final(run), t.op, t.now)
    ensures Final(run + [t]) == After(Final(run), t.op, t.now)
  {
    hide After, LogOf;
    assert (run + [t])[..|run|] == run;
  }

  /** Moving the first element of a sequence to the end of the one before it. */
  lemma MoveOne(a: seq<Command>, b: seq<Command>)
    requires b != []
    ensures (a + [b[0]]) + b[1..] == a + b
  {
  }

  lemma FlushKeepsOrder(s: Sys)
    requires InOrder(s) && Step(s, Flush).Some?
    ensures InOrder(Step(s, Flush).value)
  {
    hide Logged, Encode, ToResp;
    var e := s.hand.value;
    EncodeLogAppend(s.written, [e]);
    assert [e][1..] == [];
    assert EncodeLog([e]) == Encode(ToResp(e));
    assert s.written + [e] + [] == s.written + [e];
  }

  lemma StepKeepsOrder(s: Sys, e: Event)
    requires InOrder(s) && Step(s, e).Some?
    ensures InOrder(Step(s, e).value)
  {
    hide LogOf, Final, Logged, EncodeLog;
    var sent := s.written + InHand(s);
    match e
    case Begin(t) =>
      LoggedSnoc(s.run, t);
      assert sent + s.channel + [] == sent + s.channel;
    case Send =>
      MoveOne(sent + s.channel, s.pending);
      assert sent + s.channel + [s.pending[0]] == sent + (s.channel + [s.pending[0]]);
    case Take =>
      assert s.written + [] == s.written;
      MoveOne(s.written, s.channel);
    case Flush => FlushKeepsOrder(s);
  }

  /** In every reachable state the file, then the writer's hand, then the channel, then the sender hold the log in order. */
  lemma {:induction false} AlwaysInOrder(events: seq<Event>)
    requires Exec(events).Some?
    ensures InOrder(Exec(events).value)
  {
    hide Step, EncodeLog;
    if events == [] {
      EmptyLog();
    } else {
      AlwaysInOrder(events[..|events| - 1]);
      StepKeepsOrder(Exec(events[..|events| - 1]).value, events[|events| - 1]);
    }
  }

  lemma EmptyLog()
    ensures EncodeLog([]) == [] && Logged([]) == []
  {
  }

  // ----- Where a prefix of the log leaves the data -----

  /** The same SET without its time to live. */
  function Plain(t: Timed): Timed {
    if t.op.On? && t.op.op.Set? then
      t.(op := On(t.op.db, t.op.op.(options := t.op.op.options.(ex := 0, px := 0))))
    else t
  }

  /** The first n operations, and, when half is set, the next SET before its EXPIRE. */
  function Survivors(run: seq<Timed>, n: nat, half: bool): seq<Timed>
    requires n <= |run| && (half ==> n < |run|)
  {
    if half then run[..n] + [Plain(run[n])] else run[..n]
  }

  lemma {:induction false} PrefixIsGood(run: seq<Timed>, n: nat)
    requires GoodRun(run) && n <= |run|
    ensures GoodRun(run[..n])
  {
    hide Final, Permitted, ListsFit;
    if n == |run| {
      assert run[..n] == run;
    } else {
      PrefixIsGood(run[..|run| - 1], n);
      assert run[..|run| - 1][..n] == run[..n];
    }
  }

  /** An operation logs at most two entries; when it logs two, the first is its SET without the time to live. */
  lemma LogShape(s: State, t: Timed)
    ensures |LogOf(s, t.op, t.now)| <= 2
    ensures |LogOf(s, t.op, t.now)| == 2 ==>
              && t.op.On? && t.op.op.Set?
              && LogOf(s, Plain(t).op, t.now) == [LogOf(s, t.op, t.now)[0]]
  {
    hide Run, Entry;
    if t.op.On? {
      if t.op.op.Set? {
        SetShape(s[t.op.db], t.op.db, t.op.op.key, t.op.op.value, t.op.op.options, t.now);
      } else {
        OneEntry(s[t.op.db], t.op.db, t.op.op, t.now);
      }
    }
  }

  lemma SetShape(db: Db, i: DbIndex, key: Bytes, value: Bytes, o: SetOptions, now: int)
    ensures var log := Run(db, i, Set(key, value, o), now).log;
            |log| <= 2 && (|log| == 2 ==> Run(db, i, Set(key, value, o.(ex := 0, px := 0)), now).log == [log[0]])
  {
    hide Entry, Itoa, Wrap64;
  }

  lemma OneEntry(db: Db, i: DbIndex, op: KeyOp, now: int)
    requires !op.Set?
    ensures |Run(db, i, op, now).log| <= 1
  {
    hide Entry, Itoa, Flatten, Atoi, Window, PopCount, Reversed, Wrap64, WholeSeconds, WithoutFields;
  }

  /** Every prefix of a log belongs to whole operations, or ends between a SET and its EXPIRE. */
  lemma {:induction false} CutLog(run: seq<Timed>, m: nat) returns (n: nat, half: bool)
    requires m <= |Logged(run)|
    ensures n <= |run| && (half ==> n < |run| && |LogOf(Final(run[..n]), run[n].op, run[n].now)| == 2)
    ensures Logged(run)[..m] == Logged(Survivors(run, n, half))
  {
    hide LogOf, Final, Plain;
    if run == [] {
      n, half := 0, false;
      assert run[..0] == run && Logged(run)[..m] == Logged(run);
    } else {
      var prefix, t := run[..|run| - 1], run[|run| - 1];
      var s := Final(prefix);
      var log := LogOf(s, t.op, t.now);
      if m <= |Logged(prefix)| {
        n, half := CutLog(prefix, m);
        assert Logged(run)[..m] == Logged(prefix)[..m];
        assert prefix[..n] == run[..n] && (half ==> prefix[n] == run[n]);
      } else {
        LogShape(s, t);
        if m == |Logged(run)| {
          n, half := |run|, false;
          assert run[..n] == run && Logged(run)[..m] == Logged(run);
        } else {
          n, half := |run| - 1, true;
          LoggedSnoc(prefix, Plain(t));
          PlainClock(t);
          assert Logged(run)[..m] == Logged(prefix) + [log[0]];
        }
      }
    }
  }

  lemma PlainClock(t: Timed)
    ensures Plain(t).now == t.now
  {
  }

  /** A good run stays good when its last operation, a SET, loses its time to live. */
  lemma HalfIsGood(run: seq<Timed>, n: nat)
    requires GoodRun(run) && n < |run|
    requires |LogOf(Final(run[..n]), run[n].op, run[n].now)| == 2
    ensures GoodRun(run[..n] + [Plain(run[n])])
  {
    hide Permitted, After, LogOf, ListsFit;
    var t := run[n];
    PrefixIsGood(run, n);
    PrefixIsGood(run, n + 1);
    assert run[..n + 1][..n] == run[..n];
    LogShape(Final(run[..n]), t);
    PlainPermitted(Final(run[..n]), t);
    PlainListsFit(run[..n], t);
    AppendGood(run[..n], Plain(t));
  }

  /** Without a time to live a SET is outside both blind spots. */
  lemma PlainPermitted(s: State, t: Timed)
    requires t.op.On? && t.op.op.Set? && Permitted(s, t)
    ensures Permitted(s, Plain(t)) && Plain(t).now == t.now
  {
    hide MeetsExpired, SetRefused;
    SetMeetsNothing(s[t.op.db], Plain(t).op.op, t.now);
  }

  lemma SetMeetsNothing(db: Db, op: KeyOp, now: int)
    requires op.Set?
    ensures !MeetsExpired(db, op, now)
  {
  }

  lemma {:induction false} GoodRunFits(run: seq<Timed>)
    requires GoodRun(run)
    ensures forall i: DbIndex :: ListsFit(Final(run)[i])
  {
    hide Permitted, After;
    if run == [] {
      forall i: DbIndex { EmptyAt(i); }
    }
  }

  lemma PlainListsFit(run: seq<Timed>, t: Timed)
    requires GoodRun(run) && t.op.On? && t.op.op.Set?
    ensures forall i: DbIndex :: ListsFit(After(Final(run), Plain(t).op, t.now)[i])
  {
    GoodRunFits(run);
    SetListsFit(Final(run), t.op.db, Plain(t).op.op, t.now);
  }

  lemma SetListsFit(s: State, i: DbIndex, op: KeyOp, now: int)
    requires op.Set? && forall j: DbIndex :: ListsFit(s[j])
    ensures forall j: DbIndex :: ListsFit(After(s, On(i, op), now)[j])
  {
    hide Itoa, Spelling, Wrap64;
    var db := RunSet(s[i], i, op.key, op.value, op.options, now).db;
    assert ListsFit(db);
  }

  lemma AppendGood(run: seq<Timed>, t: Timed)
    requires GoodRun(run) && Permitted(Final(run), t) && (run != [] ==> run[|run| - 1].now <= t.now)
    requires forall i: DbIndex :: ListsFit(After(Final(run), t.op, t.now)[i])
    ensures GoodRun(run + [t])
  {
    Extend(run, t, After(Final(run), t.op, t.now));
  }

  // ----- Crash consistency -----

  /**
   Whatever events happened, and wherever a crash cuts the file, what is read
   back is the data of the first n operations, or of those and the next SET
   without its deadline. A crash during a flush is a cut after it.
   */
  lemma CrashConsistency(events: seq<Event>, k: nat, at: int) returns (n: nat, half: bool)
    requires Exec(events).Some?
    requires var s := Exec(events).value;
             GoodRun(s.run) && StorableLog(Logged(s.run)) && k <= |s.file|
    ensures var s := Exec(events).value;
            var out := ReplayFile(s.file[..k], EMPTY, at);
            && n <= |s.run| && (half ==> n < |s.run|)
            && out.Ran?
            && SimilarAll(Final(Survivors(s.run, n, half)), out.state)
  {
    hide ReplayFile, ReplayAll, EncodeLog, SimilarAll, GoodRun, Final, Logged, StorableLog, Step, LogOf;
    var s := Exec(events).value;
    AlwaysInOrder(events);
    var log := Logged(s.run);
    var m := Whole(s.written, k);
    assert s.written == log[..|s.written|];
    StorablePart(log, |s.written|);
    TornFile(s.written, k, EMPTY, at);
    assert s.written[..m] == log[..m];
    n, half := CutLog(s.run, m);
    if half {
      HalfIsGood(s.run, n);
    } else {
      PrefixIsGood(s.run, n);
    }
    LogRestoresData(Survivors(s.run, n, half), at);
  }

  /**
   What a crash can lose once the file is intact: the channel's entries, the one
   in the writer's hand and those of the operation in progress.
   */
  lemma BoundedLoss(events: seq<Event>, s: Sys, at: int)
    requires Exec(events) == Some(s) && StorableLog(Logged(s.run))
    ensures |s.written| <= |Logged(s.run)| <= |s.written| + 103
    ensures ReplayFile(s.file, EMPTY, at) == ReplayAll(Logged(s.run)[..|s.written|], EMPTY, at)
  {
    hide ReplayFile, ReplayAll, EncodeLog, Final, Logged, Step, StorableLog;
    AlwaysInOrder(events);
    PendingIsShort(events);
    StorablePart(Logged(s.run), |s.written|);
    assert Logged(s.run)[..|s.written|] == s.written;
    WholeOfAll(s.written);
    TornFile(s.written, |s.file|, EMPTY, at);
    assert s.file[..|s.file|] == s.file && s.written[..|s.written|] == s.written;
  }

  lemma {:induction false} PendingIsShort(events: seq<Event>)
    requires Exec(events).Some?
    ensures |Exec(events).value.pending| <= 2
  {
    hide LogOf, Final, Encode;
    if events != [] {
      PendingIsShort(events[..|events| - 1]);
      var s, e := Exec(events[..|events| - 1]).value, events[|events| - 1];
      if e.Begin? {
        LogShape(Final(s.run), e.t);
      }
    }
  }

  // ----- The bound is reached -----

  function SetAt(i: DbIndex, key: Bytes, value: Bytes, seconds: nat, now: int): Timed {
    Timed(On(i, Set(key, value, SetOptions(false, false, seconds, 0))), now)
  }

  lemma SetLog(s: State, i: DbIndex, key: Bytes, value: Bytes, seconds: nat, now: int)
    ensures var log := LogOf(s, SetAt(i, key, value, seconds, now).op, now);
            |log| == (if seconds == 0 then 1 else 2) && log[0] == Entry(SET, i, [key, value])
  {
    hide Itoa, Spelling, Wrap64;
  }

  lemma ExecSnoc(events: seq<Event>, e: Event)
    requires Exec(events).Some?
    ensures Exec(events + [e]) == Step(Exec(events).value, e)
  {
    hide Step;
    assert (events + [e])[..|events|] == events;
  }

  /** One operation sends its only entry into a channel that has room. */
  lemma SendOne(events: seq<Event>, i: DbIndex, key: Bytes, value: Bytes, now: int)
    requires Exec(events).Some? && Exec(events).value.pending == [] && |Exec(events).value.channel| < SLOTS
    ensures var s, t := Exec(events).value, SetAt(i, key, value, 0, now);
            Exec(events + [Begin(t)] + [Send]) ==
            Some(s.(run := s.run + [t], channel := s.channel + [Entry(SET, i, [key, value])]))
  {
    hide Exec, LogOf, Final, SetAt, Entry;
    var s, t := Exec(events).value, SetAt(i, key, value, 0, now);
    TimeOf(i, key, value, 0, now);
    SetLog(Final(s.run), i, key, value, 0, now);
    ExecSnoc(events, Begin(t));
    ExecSnoc(events + [Begin(t)], Send);
    var log := LogOf(Final(s.run), t.op, t.now);
    assert log == [log[0]] && log[1..] == [];
  }

  lemma TimeOf(i: DbIndex, key: Bytes, value: Bytes, seconds: nat, now: int)
    ensures SetAt(i, key, value, seconds, now).now == now
  {
  }

  /** A writer that has taken the first of many SETs and is slow to flush it. */
  lemma {:induction false} Backlog(i: DbIndex, key: Bytes, value: Bytes, now: int, n: nat) returns (events: seq<Event>)
    requires n <= SLOTS
    ensures Exec(events).Some?
    ensures var s := Exec(events).value;
            s.pending == [] && |s.channel| == n && s.hand.Some? && s.written == [] && s.file == []
  {
    hide Exec, Entry;
    var t := SetAt(i, key, value, 0, now);
    if n == 0 {
      Booted();
      SendOne([], i, key, value, now);
      events := [] + [Begin(t)] + [Send];
      ExecSnoc(events, Take);
      events := events + [Take];
    } else {
      events := Backlog(i, key, value, now, n - 1);
      SendOne(events, i, key, value, now);
      events := events + [Begin(t)] + [Send];
    }
  }

  lemma Booted()
    ensures Exec([]) == Some(BOOT)
  {
  }

  /** With one entry in the writer's hand, a full channel and a SET with a time to live under way, 103 entries are missing from the file. */
  lemma LossReached(i: DbIndex, key: Bytes, value: Bytes, now: int) returns (events: seq<Event>)
    ensures Exec(events).Some?
    ensures var s := Exec(events).value; s.written == [] && s.file == [] && |Logged(s.run)| == 103
  {
    hide Exec, LogOf, Final, Logged, Entry;
    events := Backlog(i, key, value, now, SLOTS);
    var s, t := Exec(events).value, SetAt(i, key, value, 1, now);
    SetLog(Final(s.run), i, key, value, 1, now);
    TimeOf(i, key, value, 1, now);
    ExecSnoc(events, Begin(t));
    events := events + [Begin(t)];
    AlwaysInOrder(events);
  }
}
