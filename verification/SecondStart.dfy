/**
 Starting a second time, from the file that a first start has doubled. The data
 comes out right for overwriting logs, provided the log channel has room for
 what the doubled log sends into it.
 */
module SecondStart {
  import opened Base
  import opened Decimal
  import opened Entries
  import opened Keyspace
  import opened Replay
  import opened Simulation
  import opened Recovery
  import opened Idempotence
  import opened Restart

  // ----- The file after a first start -----

  lemma ExpireNotOverwriting(i: DbIndex, args: seq<Bytes>)
    ensures !Overwrites(Entry(EXPIRE, i, args))
  {
    ParseSpelling(EXPIRE);
  }

  lemma OverwritingStep(s: State, t: Timed)
    requires OverwriteLog(LogOf(s, t.op, t.now))
    ensures ExactStep(s, t)
  {
    hide Overwrites, Entry, Itoa, Wrap64;
    if t.op.On? && t.op.op.Set? && !SetRefused(s[t.op.db], t.op.op.key, t.op.op.options, t.now) && TtlOf(t.op.op.options).Ttl? {
      var last := Entry(EXPIRE, t.op.db, [t.op.op.key, Itoa(TtlOf(t.op.op.options).seconds)]);
      assert LogOf(s, t.op, t.now)[1] == last && last in LogOf(s, t.op, t.now);
      ExpireNotOverwriting(t.op.db, [t.op.op.key, Itoa(TtlOf(t.op.op.options).seconds)]);
    }
  }

  /** A log without EXPIRE entries has only exact times to live, so replay sends it again unchanged. */
  lemma {:induction false} OverwritingIsExact(run: seq<Timed>)
    requires OverwriteLog(Logged(run))
    ensures ExactTtls(run)
  {
    hide LogOf, Overwrites, ExactStep, Final;
    if run != [] {
      var prefix, t := run[..|run| - 1], run[|run| - 1];
      var log := LogOf(Final(prefix), t.op, t.now);
      assert Logged(run) == Logged(prefix) + log;
      assert forall e :: e in log ==> e in Logged(run);
      assert forall e :: e in Logged(prefix) ==> e in Logged(run);
      OverwritingIsExact(prefix);
      OverwritingStep(Final(prefix), t);
    }
  }

  /**
   A start from the log, then a start from the file the first one leaves: the
   second completes exactly when what the doubled log sends fits the channel, and
   when it completes the data is that of the run.
   */
  lemma SecondRestart(run: seq<Timed>, at: int, later: int)
    requires GoodRun(run) && OverwriteLog(Logged(run)) && |Logged(run)| <= 100
    ensures var first := BootFrom(Logged(run), EMPTY, at, []);
            && first.Started? && first.channel == Logged(run)
            && var out, second := ReplayAll(Logged(run) + first.channel, EMPTY, later), BootFrom(Logged(run) + first.channel, EMPTY, later, []);
            && out.Ran?
            && (second.Started? <==> |out.log| <= 100)
            && (second.Started? ==> SimilarAll(Final(run), second.state))
  {
    hide ReplayAll, BootFrom, GoodRun, Final, Logged, OverwriteLog, SimilarAll;
    OverwritingIsExact(run);
    ReplayRepeatsLog(run, at);
    BootWithRoom(Logged(run), EMPTY, at, []);
    assert [] + Logged(run) == Logged(run);
    DoubledLogRestores(run, later);
    BootWithRoom(Logged(run) + Logged(run), EMPTY, later, []);
  }

  // ----- How much a doubled log sends -----

  lemma EntrySendsAtMostOne(entry: Command, s: State, now: int)
    requires Overwrites(entry) && Dispatch(entry, s, now).Ran?
    ensures |Dispatch(entry, s, now).log| <= 1
  {
    hide Decode, Overwrites, Entry, Itoa, Spelling;
    OverwritesDecode(entry);
  }

  lemma {:induction false} SendsAtMostOneEach(log: seq<Command>, s: State, now: int)
    requires OverwriteLog(log) && ReplayAll(log, s, now).Ran?
    ensures |ReplayAll(log, s, now).log| <= |log|
  {
    hide Dispatch, Overwrites;
    if log != [] {
      EntrySendsAtMostOne(log[0], s, now);
      SendsAtMostOneEach(log[1..], Dispatch(log[0], s, now).state, now);
    }
  }

  /** SET or HSET but not both, beside DEL and the flushes. */
  predicate Steady(entry: Command, strings: bool) {
    entry != [] ==> ParseName(entry[0]) in {None, Some(if strings then SET else HSET), Some(DEL), Some(FLUSHDB), Some(FLUSHALL)}
  }

  predicate SteadyLog(log: seq<Command>, strings: bool) {
    forall e :: e in log ==> Steady(e, strings)
  }

  /** Every key holds the one type such a log writes. */
  ghost predicate OneType(s: State, strings: bool) {
    forall i: DbIndex, k :: k in s[i] ==> if strings then s[i][k].data.Str? else s[i][k].data.Hash?
  }

  predicate SteadyOp(op: KeyOp, strings: bool) {
    OverwriteOp(op) && !op.HDel? && (if strings then !op.HSet? else !op.Set?)
  }

  lemma SteadyDecodes(entry: Command, strings: bool)
    requires Steady(entry, strings)
    ensures Overwrites(entry)
    ensures Decode(entry).Perform? ==> SteadyOp(Decode(entry).op, strings)
  {
    hide Spelling, Atoi;
    OverwritesDecode(entry);
  }

  lemma SteadyRun(db: Db, i: DbIndex, op: KeyOp, strings: bool, now: int)
    requires PlainDb(db) && SteadyOp(op, strings)
    requires forall k :: k in db ==> if strings then db[k].data.Str? else db[k].data.Hash?
    ensures var e := Run(db, i, op, now);
            && |e.log| == 1
            && forall k :: k in e.db ==> if strings then e.db[k].data.Str? else e.db[k].data.Hash?
  {
    hide Entry, Itoa, Spelling, NoEmptyHash;
    if op.HSet? {
      PlainHSet(db, i, op.key, op.fields, now);
    }
  }

  /** How many entries the replay takes for commands. */
  function Effective(log: seq<Command>): nat {
    if log == [] then 0 else (if Decode(log[0]).Ignore? then 0 else 1) + Effective(log[1..])
  }

  lemma SteadyStep(entry: Command, strings: bool, s: State, now: int)
    requires Steady(entry, strings) && PlainState(s) && OneType(s, strings) && Dispatch(entry, s, now).Ran?
    ensures var out := Dispatch(entry, s, now);
            && |out.log| == (if Decode(entry).Ignore? then 0 else 1)
            && PlainState(out.state) && OneType(out.state, strings)
  {
    hide Decode, Run, Steady, SteadyOp, OverwriteOp, PlainDb;
    SteadyDecodes(entry, strings);
    match Decode(entry)
    case Ignore =>
    case Everything =>
      EmptyIsPlain();
      forall i: DbIndex { EmptyAt(i); }
    case Perform(j, op) =>
      SteadyRun(s[j], j, op, strings, now);
      assert OverwriteOp(op) by { SteadyOverwrites(op, strings); }
      OpStaysPlain(s[j], j, op, now);
  }

  lemma SteadyOverwrites(op: KeyOp, strings: bool)
    requires SteadyOp(op, strings)
    ensures OverwriteOp(op)
  {
  }

  lemma {:induction false} SteadyCount(log: seq<Command>, strings: bool, s: State, now: int)
    requires SteadyLog(log, strings) && PlainState(s) && OneType(s, strings) && ReplayAll(log, s, now).Ran?
    ensures var out := ReplayAll(log, s, now);
            |out.log| == Effective(log) && PlainState(out.state) && OneType(out.state, strings)
  {
    hide Dispatch, Steady, Decode, PlainState, OneType;
    if log != [] {
      SteadyStep(log[0], strings, s, now);
      SteadyCount(log[1..], strings, Dispatch(log[0], s, now).state, now);
    }
  }

  lemma SteadyOverwriteLog(log: seq<Command>, strings: bool)
    requires SteadyLog(log, strings)
    ensures OverwriteLog(log)
  {
    forall e | e in log
      ensures Overwrites(e)
    {
      SteadyDecodes(e, strings);
    }
  }

  lemma EmptyOneType(strings: bool)
    ensures OneType(EMPTY, strings)
  {
    forall i: DbIndex { EmptyAt(i); }
  }

  lemma DoubledSends(run: seq<Timed>, strings: bool, at: int)
    requires GoodRun(run) && SteadyLog(Logged(run), strings)
    ensures var out := ReplayAll(Logged(run) + Logged(run), EMPTY, at); out.Ran? && |out.log| == 2 * |Logged(run)|
  {
    hide ReplayAll, GoodRun, Logged, SteadyLog, PlainState, OneType, Effective;
    var log := Logged(run);
    SteadyOverwriteLog(log, strings);
    EmptyIsPlain();
    EmptyOneType(strings);
    ReplayRepeatsLog(run, at);
    SteadyCount(log, strings, EMPTY, at);
    TwiceIsOnce(log, EMPTY, at);
    ReplayAppend(log, log, EMPTY, at);
    SteadyCount(log, strings, ReplayAll(log, EMPTY, at).state, at);
  }

  /**
   What a caller can check: a second start completes if the log is at most half
   the channel; for a log of SET or of HSET commands, beside DEL and the
   flushes, exactly then.
   */
  lemma SecondStartRoom(run: seq<Timed>, at: int)
    requires GoodRun(run) && OverwriteLog(Logged(run))
    ensures var second := BootFrom(Logged(run) + Logged(run), EMPTY, at, []);
            && (|Logged(run)| <= 50 ==> second.Started?)
            && (forall strings :: SteadyLog(Logged(run), strings) ==> (second.Started? <==> |Logged(run)| <= 50))
  {
    hide ReplayAll, BootFrom, GoodRun, Logged, OverwriteLog, SteadyLog, Final, SimilarAll;
    var log := Logged(run);
    DoubledLogRestores(run, at);
    BootWithRoom(log + log, EMPTY, at, []);
    DoubledOverwrites(log);
    SendsAtMostOneEach(log + log, EMPTY, at);
    assert [] + ReplayAll(log + log, EMPTY, at).log == ReplayAll(log + log, EMPTY, at).log;
    forall strings | SteadyLog(log, strings)
      ensures |ReplayAll(log + log, EMPTY, at).log| == 2 * |log|
    {
      DoubledSends(run, strings, at);
    }
  }

  lemma DoubledOverwrites(log: seq<Command>)
    requires OverwriteLog(log)
    ensures OverwriteLog(log + log)
  {
  }

  // ----- Too many SETs -----

  function Sets(i: DbIndex, key: Bytes, value: Bytes, now: int, n: nat): (run: seq<Timed>)
    ensures |run| == n && forall j :: 0 <= j < n ==> run[j] == Timed(On(i, Set(key, value, NO_OPTIONS)), now)
  {
    if n == 0 then [] else Sets(i, key, value, now, n - 1) + [Timed(On(i, Set(key, value, NO_OPTIONS)), now)]
  }

  lemma OneSet(s: State, i: DbIndex, key: Bytes, value: Bytes, now: int)
    requires forall j: DbIndex :: ListsFit(s[j])
    ensures Permitted(s, Timed(On(i, Set(key, value, NO_OPTIONS)), now))
    ensures LogOf(s, On(i, Set(key, value, NO_OPTIONS)), now) == [Entry(SET, i, [key, value])]
    ensures forall j: DbIndex :: ListsFit(After(s, On(i, Set(key, value, NO_OPTIONS)), now)[j])
  {
    hide Itoa, Spelling, Wrap64;
    var db := RunSet(s[i], i, key, value, NO_OPTIONS, now).db;
    assert ListsFit(db);
  }

  lemma SetEntrySteady(i: DbIndex, key: Bytes, value: Bytes)
    ensures Steady(Entry(SET, i, [key, value]), true)
  {
    ParseSpelling(SET);
  }

  lemma {:induction false} SetsAreGood(i: DbIndex, key: Bytes, value: Bytes, now: int, n: nat)
    ensures var run := Sets(i, key, value, now, n);
            && GoodRun(run) && |Logged(run)| == n && SteadyLog(Logged(run), true)
            && forall j: DbIndex :: ListsFit(Final(run)[j])
  {
    hide Permitted, After, LogOf, ListsFit, Entry, Steady;
    var run := Sets(i, key, value, now, n);
    if n == 0 {
      forall j: DbIndex
        ensures ListsFit(EMPTY[j])
      {
        EmptyAt(j);
        NothingFits();
      }
    } else {
      SetsAreGood(i, key, value, now, n - 1);
      var prefix := Sets(i, key, value, now, n - 1);
      assert run[..n - 1] == prefix;
      OneSet(Final(prefix), i, key, value, now);
      SetEntrySteady(i, key, value);
    }
  }

  lemma NothingFits()
    ensures ListsFit(map[])
  {
  }

  /** From 51 to 100 SETs the first start completes and the second blocks. */
  lemma SecondStartBlocks(i: DbIndex, key: Bytes, value: Bytes, now: int, n: nat, at: int, later: int)
    requires 51 <= n <= 100
    ensures var run := Sets(i, key, value, now, n);
            var first := BootFrom(Logged(run), EMPTY, at, []);
            && GoodRun(run) && first.Started? && first.channel == Logged(run)
            && BootFrom(Logged(run) + first.channel, EMPTY, later, []) == Stuck
  {
    hide BootFrom, GoodRun, Logged, SteadyLog, Final, OverwriteLog, SimilarAll, ReplayAll;
    var run := Sets(i, key, value, now, n);
    SetsAreGood(i, key, value, now, n);
    SteadyOverwriteLog(Logged(run), true);
    SecondRestart(run, at, later);
    DoubledSends(run, true, later);
    BootWithRoom(Logged(run) + Logged(run), EMPTY, later, []);
  }
}
