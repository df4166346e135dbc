/** Recovery over whole runs: replaying the log on an empty store rebuilds the data. */
module Recovery {
  import opened Base
  import opened Decimal
  import opened Fields
  import opened Entries
  import opened Keyspace
  import opened Replay
  import opened Simulation

  // ----- Runs -----

  /** Argument validation, and neither of the log's two blind spots: a hash command on an expired value, a backdated SET. */
  predicate Permitted(s: State, t: Timed) {
    t.op.On? ==>
      && ValidOp(t.op.op)
      && !MeetsExpired(s[t.op.db], t.op.op, t.now)
      && !SetsBackdated(s[t.op.db], t.op.op, t.now)
  }

  /** A run of permitted operations under a clock that never goes back, with lists of representable length. */
  ghost predicate GoodRun(run: seq<Timed>) {
    run != [] ==>
      var prefix, t := run[..|run| - 1], run[|run| - 1];
      && GoodRun(prefix)
      && Permitted(Final(prefix), t)
      && (prefix != [] ==> prefix[|prefix| - 1].now <= t.now)
      && forall i: DbIndex :: ListsFit(Final(run)[i])
  }

  predicate ExactStep(s: State, t: Timed) {
    t.op.On? ==> ExactTtl(s[t.op.db], t.op.op, t.now)
  }

  /** Every time to live that a SET of the run took is read back as it was written. */
  predicate ExactTtls(run: seq<Timed>) {
    run != [] ==>
      var prefix := run[..|run| - 1];
      ExactTtls(prefix) && ExactStep(Final(prefix), run[|run| - 1])
  }

  // ----- Replica and live store -----

  ghost predicate SimilarAll(a: State, b: State) {
    forall i: DbIndex :: Similar(a[i], b[i])
  }

  ghost predicate TracksAll(s: State, now: int, r: State, at: int) {
    forall i: DbIndex :: Tracks(s[i], now, r[i], at)
  }

  lemma {:induction false} HashesStayNonEmpty(run: seq<Timed>)
    requires GoodRun(run)
    ensures forall i: DbIndex :: NoEmptyHash(Final(run)[i])
  {
    hide Run;
    if run != [] {
      var prefix, t := run[..|run| - 1], run[|run| - 1];
      HashesStayNonEmpty(prefix);
      if t.op.On? {
        RunKeepsHashes(Final(prefix)[t.op.db], t.op.db, t.op.op, t.now);
      }
    }
  }

  lemma HSetKeepsHashes(db: Db, i: DbIndex, key: Bytes, fields: FieldMap, now: int)
    requires NoEmptyHash(db) && fields != map[]
    ensures NoEmptyHash(RunHSet(db, i, key, fields, now).db)
  {
    hide Itoa, Spelling, Flatten;
    var prior := if Live(db, key, now) then db[key] else Val(Hash(map[]), None);
    if prior.data.Hash? {
      var f :| f in fields;
      assert f in prior.data.fields + fields;
    }
  }

  lemma HDelKeepsHashes(db: Db, i: DbIndex, key: Bytes, names: seq<Bytes>, now: int)
    requires NoEmptyHash(db)
    ensures NoEmptyHash(RunHDel(db, i, key, names, now).db)
  {
    hide Itoa, Spelling, WithoutFields;
  }

  lemma ListsKeepHashes(db: Db, i: DbIndex, op: KeyOp, now: int)
    requires op.LPush? || op.RPush? || op.LPop? || op.RPop? || op.LTrim?
    requires NoEmptyHash(db)
    ensures NoEmptyHash(Run(db, i, op, now).db)
  {
    hide Itoa, Spelling, Window, PopCount, Reversed;
  }

  lemma RunKeepsHashes(db: Db, i: DbIndex, op: KeyOp, now: int)
    requires NoEmptyHash(db) && ValidOp(op)
    ensures NoEmptyHash(Run(db, i, op, now).db)
  {
    hide Itoa, Spelling, Atoi, RunHSet, RunHDel, RunPush, RunPop, RunTrim, Wrap64, WholeSeconds;
    match op
    case HSet(key, fields) => HSetKeepsHashes(db, i, key, fields, now);
    case HDel(key, names) => HDelKeepsHashes(db, i, key, names, now);
    case _ =>
      if op.LPush? || op.RPush? || op.LPop? || op.RPop? || op.LTrim? {
        ListsKeepHashes(db, i, op, now);
      }
  }

  lemma ReplayFlushAll(s: State, now: int, r: State, at: int)
    ensures ReplayAll(LogOf(s, FlushAll, now), r, at) == Ran(EMPTY, LogOf(s, FlushAll, now))
  {
    hide Decode;
    DecodeFlushAll();
    var log := LogOf(s, FlushAll, now);
    assert log[1..] == [] && log + [] == log;
  }

  /** Replaying the entries of one more operation. */
  lemma ReplayStep(s: State, t: Timed, r: State, at: int)
    requires TracksAll(s, t.now, r, at) && Permitted(s, t) && forall i: DbIndex :: WellFormed(s[i])
    ensures var out := ReplayAll(LogOf(s, t.op, t.now), r, at);
            && out.Ran?
            && TracksAll(After(s, t.op, t.now), t.now, out.state, at)
            && |out.log| == |LogOf(s, t.op, t.now)|
            && (out.log == LogOf(s, t.op, t.now) <==> ExactStep(s, t))
  {
    hide Run, Echo, ReplayAll, RunAll, ExactTtl;
    match t.op
    case On(i, op) =>
      LogDecodes(s[i], i, op, t.now);
      SimulateStep(s[i], i, op, t.now, r[i], at);
      ReplayDecoded(LogOf(s, t.op, t.now), Echo(s[i], op, t.now), i, r, at);
    case FlushAll =>
      ReplayFlushAll(s, t.now, r, at);
  }

  lemma SameParts(a: seq<Command>, b: seq<Command>, c: seq<Command>, d: seq<Command>)
    requires |a| == |c|
    ensures a + b == c + d <==> a == c && b == d
  {
    if a + b == c + d {
      assert a == (a + b)[..|a|] && b == (a + b)[|a|..];
      assert c == (c + d)[..|c|] && d == (c + d)[|c|..];
    }
  }

  lemma {:induction false} Rebuild(run: seq<Timed>, now: int, at: int)
    requires GoodRun(run) && (run != [] ==> run[|run| - 1].now <= now)
    ensures var out := ReplayAll(Logged(run), EMPTY, at);
            && out.Ran?
            && TracksAll(Final(run), now, out.state, at)
            && |out.log| == |Logged(run)|
            && (out.log == Logged(run) <==> ExactTtls(run))
  {
    hide After, LogOf, Dispatch, ExactStep;
    if run != [] {
      var prefix, t := run[..|run| - 1], run[|run| - 1];
      var s := Final(prefix);
      Rebuild(prefix, t.now, at);
      HashesStayNonEmpty(prefix);
      if prefix == [] {
        assert forall i: DbIndex :: EMPTY[i] == map[];
      }
      var out := ReplayAll(Logged(prefix), EMPTY, at);
      var log := LogOf(s, t.op, t.now);
      ReplayStep(s, t, out.state, at);
      ReplayAppend(Logged(prefix), log, EMPTY, at);
      SameParts(out.log, ReplayAll(log, out.state, at).log, Logged(prefix), log);
    }
  }

  /** Replaying the log of a good run at any fixed clock restores every key, its type, its data, and which keys expire. */
  lemma LogRestoresData(run: seq<Timed>, at: int)
    requires GoodRun(run)
    ensures var out := ReplayAll(Logged(run), EMPTY, at);
            out.Ran? && SimilarAll(Final(run), out.state)
  {
    Rebuild(run, if run == [] then 0 else run[|run| - 1].now, at);
  }

  /** The same key by key: what a key holds after recovery, and whether it has a deadline, is what it held and whether it had one. */
  lemma RestoredKeyByKey(run: seq<Timed>, at: int, i: DbIndex, key: Bytes)
    requires GoodRun(run)
    ensures var out := ReplayAll(Logged(run), EMPTY, at);
            out.Ran?
            && (key in out.state[i] <==> key in Final(run)[i])
            && (key in Final(run)[i] ==>
                  && out.state[i][key].data == Final(run)[i][key].data
                  && (out.state[i][key].deadline == None <==> Final(run)[i][key].deadline == None))
  {
    hide ReplayAll, Logged, Final, GoodRun;
    LogRestoresData(run, at);
    assert Similar(Final(run)[i], ReplayAll(Logged(run), EMPTY, at).state[i]);
  }

  /** Replaying a log writes that log again, entry for entry, exactly when every time to live it holds fits a duration. */
  lemma ReplayRepeatsLog(run: seq<Timed>, at: int)
    requires GoodRun(run)
    ensures var out := ReplayAll(Logged(run), EMPTY, at);
            out.Ran? && |out.log| == |Logged(run)| && (out.log == Logged(run) <==> ExactTtls(run))
  {
    Rebuild(run, if run == [] then 0 else run[|run| - 1].now, at);
  }

  // ----- Exactly when the next operation keeps the log faithful -----

  /** No key of the replica counts as expired. */
  ghost predicate Fresh(db: Db, at: int) {
    forall k :: k in db ==> !Expired(db[k], at)
  }

  /** The time to live an operation gives is not negative. */
  predicate NotPast(op: KeyOp) {
    match op
    case Set(_, _, o) => TtlOf(o).Ttl? ==> TtlOf(o).nanos >= 0
    case Expire(_, ttl) => ttl >= 0
    case _ => true
  }

  /** The time to live its log entry gives is not negative; nor is that of an EXPIRE of less than a second in the past. */
  predicate ForwardTtl(op: KeyOp) {
    match op
    case Set(_, _, o) => TtlOf(o).Ttl? ==> Wrap64(TtlOf(o).seconds * SECOND) >= 0
    case Expire(_, ttl) => InInt64(ttl) && ttl > -SECOND
    case _ => true
  }

  lemma FreshPop(db: Db, i: DbIndex, key: Bytes, count: Option<int>, left: bool, at: int)
    requires Fresh(db, at)
    ensures Fresh(RunPop(db, i, key, count, left, at).db, at)
  {
    hide Itoa, Spelling;
  }

  lemma FreshTrim(db: Db, i: DbIndex, key: Bytes, start: int, stop: int, at: int)
    requires Fresh(db, at)
    ensures Fresh(RunTrim(db, i, key, start, stop, at).db, at)
  {
    hide Itoa, Spelling, Window;
  }

  lemma FreshHash(db: Db, i: DbIndex, key: Bytes, fields: FieldMap, names: seq<Bytes>, at: int)
    requires Fresh(db, at)
    ensures Fresh(RunHSet(db, i, key, fields, at).db, at)
    ensures Fresh(RunHDel(db, i, key, names, at).db, at)
  {
    hide Itoa, Spelling, Flatten, WithoutFields;
  }

  lemma FreshPush(db: Db, i: DbIndex, key: Bytes, values: seq<Bytes>, left: bool, at: int)
    requires Fresh(db, at)
    ensures Fresh(RunPush(db, i, key, values, left).db, at)
  {
    hide Itoa, Spelling, Reversed;
  }

  lemma FreshRun(db: Db, i: DbIndex, op: KeyOp, at: int)
    requires Fresh(db, at) && NotPast(op)
    ensures Fresh(Run(db, i, op, at).db, at)
  {
    hide Itoa, Spelling, Atoi, RunPop, RunTrim, RunHSet, RunHDel, RunPush;
    match op
    case LPush(key, values) => FreshPush(db, i, key, values, true, at);
    case RPush(key, values) => FreshPush(db, i, key, values, false, at);
    case LPop(key, count) => FreshPop(db, i, key, count, true, at);
    case RPop(key, count) => FreshPop(db, i, key, count, false, at);
    case LTrim(key, start, stop) => FreshTrim(db, i, key, start, stop, at);
    case HSet(key, fields) => FreshHash(db, i, key, fields, [], at);
    case HDel(key, names) => FreshHash(db, i, key, map[], names, at);
    case _ =>
  }

  lemma {:induction false} FreshRunAll(ops: seq<KeyOp>, db: Db, i: DbIndex, at: int)
    requires Fresh(db, at) && forall op :: op in ops ==> NotPast(op)
    ensures Fresh(RunAll(ops, db, i, at).0, at)
  {
    hide Run;
    if ops != [] {
      FreshRun(db, i, ops[0], at);
      FreshRunAll(ops[1..], Run(db, i, ops[0], at).db, i, at);
    }
  }

  lemma EchoForward(db: Db, op: KeyOp, now: int)
    requires ForwardTtl(op)
    ensures forall e :: e in Echo(db, op, now) ==> NotPast(e)
  {
  }

  predicate ForwardTtls(run: seq<Timed>) {
    forall t :: t in run && t.op.On? ==> ForwardTtl(t.op.op)
  }

  lemma FreshStep(s: State, t: Timed, r: State, at: int)
    requires (t.op.On? ==> ValidOp(t.op.op)) && (forall i: DbIndex :: WellFormed(s[i])) && ForwardTtls([t])
    requires forall i: DbIndex :: Fresh(r[i], at)
    ensures var out := ReplayAll(LogOf(s, t.op, t.now), r, at);
            out.Ran? ==> forall i: DbIndex :: Fresh(out.state[i], at)
  {
    hide Run, Echo, RunAll;
    match t.op
    case On(i, op) =>
      LogDecodes(s[i], i, op, t.now);
      ReplayDecoded(LogOf(s, t.op, t.now), Echo(s[i], op, t.now), i, r, at);
      assert t in [t];
      EchoForward(s[i], op, t.now);
      FreshRunAll(Echo(s[i], op, t.now), r[i], i, at);
    case FlushAll =>
      ReplayFlushAll(s, t.now, r, at);
      assert forall i: DbIndex :: EMPTY[i] == map[];
  }

  lemma {:induction false} FreshRebuild(run: seq<Timed>, at: int)
    requires GoodRun(run) && ForwardTtls(run)
    ensures var out := ReplayAll(Logged(run), EMPTY, at);
            out.Ran? ==> forall i: DbIndex :: Fresh(out.state[i], at)
  {
    hide After, LogOf, Dispatch;
    if run == [] {
      assert forall i: DbIndex :: EMPTY[i] == map[];
    } else {
      var prefix, t := run[..|run| - 1], run[|run| - 1];
      FreshRebuild(prefix, at);
      HashesStayNonEmpty(prefix);
      Rebuild(prefix, t.now, at);
      if prefix == [] {
        assert forall i: DbIndex :: EMPTY[i] == map[];
      }
      FreshStep(Final(prefix), t, ReplayAll(Logged(prefix), EMPTY, at).state, at);
      ReplayAppend(Logged(prefix), LogOf(Final(prefix), t.op, t.now), EMPTY, at);
    }
  }

  lemma StateExactly(s: State, t: Timed, r: State, at: int)
    requires TracksAll(s, t.now, r, at) && forall i: DbIndex :: WellFormed(s[i])
    requires t.op.On? && ValidOp(t.op.op)
    ensures var out := ReplayAll(LogOf(s, t.op, t.now), r, at);
            && out.Ran?
            && (SimilarAll(After(s, t.op, t.now), out.state) <==> !MissedBy(s[t.op.db], t.op.op, t.now, r[t.op.db], at))
  {
    hide Run, Echo, ReplayAll, RunAll, MissedBy;
    var i, op := t.op.db, t.op.op;
    LogDecodes(s[i], i, op, t.now);
    ReplayDecoded(LogOf(s, t.op, t.now), Echo(s[i], op, t.now), i, r, at);
    StepExactly(s[i], i, op, t.now, r[i], at);
    OtherDatabases(s, r, i, Run(s[i], i, op, t.now).db, RunAll(Echo(s[i], op, t.now), r[i], i, at).0);
  }

  lemma OtherDatabases(s: State, r: State, i: DbIndex, a: Db, b: Db)
    requires SimilarAll(s, r)
    ensures SimilarAll(s[i := a], r[i := b]) <==> Similar(a, b)
  {
    if Similar(a, b) {
      var s', r' := s[i := a], r[i := b];
      assert forall j: DbIndex :: Similar(s'[j], r'[j]);
    } else {
      assert s[i := a][i] == a && r[i := b][i] == b;
    }
  }

  /**
   The log of a good run extended by one more valid operation restores the data
   exactly when the store rebuilt so far does not miss that a hash command found
   an expired value.
   */
  lemma RecoveryExactly(run: seq<Timed>, t: Timed, at: int)
    requires GoodRun(run) && (run != [] ==> run[|run| - 1].now <= t.now)
    requires t.op.On? && ValidOp(t.op.op)
    ensures var r, out := ReplayAll(Logged(run), EMPTY, at), ReplayAll(Logged(run + [t]), EMPTY, at);
            && r.Ran? && out.Ran?
            && (SimilarAll(Final(run + [t]), out.state) <==>
                !MissedBy(Final(run)[t.op.db], t.op.op, t.now, r.state[t.op.db], at))
  {
    hide After, LogOf, MissedBy, ReplayAll;
    var s := Final(run);
    assert (run + [t])[..|run|] == run;
    Rebuild(run, t.now, at);
    HashesStayNonEmpty(run);
    if run == [] {
      assert forall j: DbIndex :: EMPTY[j] == map[];
    }
    StateExactly(s, t, ReplayAll(Logged(run), EMPTY, at).state, at);
    ReplayAppend(Logged(run), LogOf(s, t.op, t.now), EMPTY, at);
  }

  /** When no time to live in the log is negative: exactly when the operation is not a hash command on an expired value. */
  lemma RecoveryForward(run: seq<Timed>, t: Timed, at: int)
    requires GoodRun(run) && ForwardTtls(run) && (run != [] ==> run[|run| - 1].now <= t.now)
    requires t.op.On? && ValidOp(t.op.op)
    ensures var out := ReplayAll(Logged(run + [t]), EMPTY, at);
            && out.Ran?
            && (SimilarAll(Final(run + [t]), out.state) <==> !MeetsExpired(Final(run)[t.op.db], t.op.op, t.now))
  {
    hide Final, Logged, ReplayAll, GoodRun;
    RecoveryExactly(run, t, at);
    FreshRebuild(run, at);
    LogRestoresData(run, at);
    FreshMisses(Final(run)[t.op.db], t.op.op, t.now, ReplayAll(Logged(run), EMPTY, at).state[t.op.db], at);
  }

  lemma FreshMisses(live: Db, op: KeyOp, now: int, replica: Db, at: int)
    requires Similar(live, replica) && Fresh(replica, at)
    ensures MissedBy(live, op, now, replica, at) <==> MeetsExpired(live, op, now)
  {
  }

  // ----- The second blind spot -----

  /** A key that is live here and expired on the replica: a RENAME of it is logged and then ignored. */
  lemma RenameParts(live: Db, i: DbIndex, key: Bytes, newKey: Bytes, now: int, replica: Db, at: int)
    requires Live(live, key, now) && key in replica && Expired(replica[key], at)
    ensures !Similar(Run(live, i, Rename(key, newKey), now).db, RunAll(Echo(live, Rename(key, newKey), now), replica, i, at).0)
  {
    hide Itoa, Spelling;
    RunOne(Rename(key, newKey), replica, i, at);
    assert key !in Run(live, i, Rename(key, newKey), now).db;
  }

  lemma BackdatedStep(s: State, i: DbIndex, key: Bytes, value: Bytes, o: SetOptions, now: int, r: State, at: int)
    requires TracksAll(s, now, r, at) && forall j: DbIndex :: WellFormed(s[j])
    requires InInt64(o.ex) && InInt64(o.px) && Backdates(o) && !SetRefused(s[i], key, o, now)
    ensures var op := On(i, Set(key, value, o));
            var out := ReplayAll(LogOf(s, op, now), r, at);
            && out.Ran? && SimilarAll(After(s, op, now), out.state)
            && Live(After(s, op, now)[i], key, now + TtlOf(o).nanos)
            && key in out.state[i] && Expired(out.state[i][key], at)
            && After(s, op, now)[i][key].deadline == Some(now + TtlOf(o).nanos)
  {
    hide Itoa, Spelling, Wrap64, ReplayAll, RunAll, Echo, WellFormed, Entry, WholeSeconds;
    var op := Set(key, value, o);
    StateExactly(s, Timed(On(i, op), now), r, at);
    LogDecodes(s[i], i, op, now);
    ReplayDecoded(LogOf(s, On(i, op), now), Echo(s[i], op, now), i, r, at);
    EchoTtl(s[i], i, key, value, o, now, r[i], at);
  }

  lemma RenameStep(s: State, i: DbIndex, key: Bytes, newKey: Bytes, now: int, r: State, at: int)
    requires (forall j: DbIndex :: ListsFit(s[j]) && NoEmptyHash(s[j]))
    requires Live(s[i], key, now) && key in r[i] && Expired(r[i][key], at)
    ensures var out := ReplayAll(LogOf(s, On(i, Rename(key, newKey)), now), r, at);
            out.Ran? && !SimilarAll(After(s, On(i, Rename(key, newKey)), now), out.state)
  {
    hide Run, Echo, ReplayAll, RunAll, Similar;
    var op := Rename(key, newKey);
    LogDecodes(s[i], i, op, now);
    ReplayDecoded(LogOf(s, On(i, op), now), Echo(s[i], op, now), i, r, at);
    RenameParts(s[i], i, key, newKey, now, r[i], at);
  }

  /**
   After any backdated SET the data is still the same, but a RENAME of the key
   before its live deadline makes the live store and the rebuilt one differ.
   */
  lemma BackdatedDiverges(run: seq<Timed>, i: DbIndex, key: Bytes, value: Bytes, o: SetOptions, now: int, newKey: Bytes, later: int, at: int)
    requires GoodRun(run) && (run != [] ==> run[|run| - 1].now <= now)
    requires InInt64(o.ex) && InInt64(o.px) && Backdates(o) && !SetRefused(Final(run)[i], key, o, now)
    requires now <= later <= now + TtlOf(o).nanos
    ensures var write := run + [Timed(On(i, Set(key, value, o)), now)];
            var once := ReplayAll(Logged(write), EMPTY, at);
            once.Ran? && SimilarAll(Final(write), once.state)
    ensures var both := run + [Timed(On(i, Set(key, value, o)), now)] + [Timed(On(i, Rename(key, newKey)), later)];
            var out := ReplayAll(Logged(both), EMPTY, at);
            out.Ran? && !SimilarAll(Final(both), out.state)
  {
    hide After, LogOf, ReplayAll, Similar, Backdates, TtlOf;
    var s, op, op' := Final(run), On(i, Set(key, value, o)), On(i, Rename(key, newKey));
    var write := run + [Timed(op, now)];
    assert write[..|run|] == run && (write + [Timed(op', later)])[..|run| + 1] == write;
    Rebuild(run, now, at);
    HashesStayNonEmpty(run);
    if run == [] {
      assert forall j: DbIndex :: EMPTY[j] == map[];
    }
    var r := ReplayAll(Logged(run), EMPTY, at).state;
    BackdatedStep(s, i, key, value, o, now, r, at);
    ReplayAppend(Logged(run), LogOf(s, op, now), EMPTY, at);
    var r' := ReplayAll(Logged(write), EMPTY, at).state;
    SetKeepsShape(s, i, op.op, now);
    RenameStep(Final(write), i, key, newKey, later, r', at);
    ReplayAppend(Logged(write), LogOf(Final(write), op', later), EMPTY, at);
  }

  lemma SetKeepsShape(s: State, i: DbIndex, op: KeyOp, now: int)
    requires op.Set? && forall j: DbIndex :: ListsFit(s[j]) && NoEmptyHash(s[j])
    ensures forall j: DbIndex :: ListsFit(After(s, On(i, op), now)[j]) && NoEmptyHash(After(s, On(i, op), now)[j])
  {
    hide Itoa, Spelling, Wrap64;
    var db := RunSet(s[i], i, op.key, op.value, op.options, now).db;
    assert ListsFit(db) && NoEmptyHash(db);
  }

  /** SET with a PX of 18446744073710 and a RENAME at the same instant: what is live and what is rebuilt part ways. */
  lemma HugePxDiverges(i: DbIndex, key: Bytes, value: Bytes, newKey: Bytes, now: int, at: int)
    ensures var px := SetOptions(false, false, 0, 18_446_744_073_710);
            var run := [] + [Timed(On(i, Set(key, value, px)), now)] + [Timed(On(i, Rename(key, newKey)), now)];
            var out := ReplayAll(Logged(run), EMPTY, at);
            ValidOp(Set(key, value, px)) && out.Ran? && !SimilarAll(Final(run), out.state)
  {
    var px := SetOptions(false, false, 0, 18_446_744_073_710);
    assert TtlOf(px) == Ttl(448_384, 18_446_744_073);
    hide After, LogOf, ReplayAll, Similar;
    BackdatedDiverges([], i, key, value, px, now, newKey, now, at);
  }

  // ----- The blind spot, concretely -----

  lemma Extend(run: seq<Timed>, t: Timed, s: State)
    requires GoodRun(run) && Permitted(Final(run), t) && (run != [] ==> run[|run| - 1].now <= t.now)
    requires s == After(Final(run), t.op, t.now) && forall i: DbIndex :: ListsFit(s[i])
    ensures GoodRun(run + [t]) && Final(run + [t]) == s
  {
    hide After;
    assert (run + [t])[..|run|] == run;
  }

  lemma EmptyAt(i: DbIndex)
    ensures EMPTY[i] == map[]
  {
  }

  ghost predicate Only(s: State, i: DbIndex, db: Db) {
    s[i] == db && forall j: DbIndex :: j != i ==> s[j] == map[]
  }

  lemma WriteOnEmpty(db: Db, i: DbIndex, key: Bytes, fields: FieldMap, now: int)
    requires db == map[]
    ensures RunHSet(db, i, key, fields, now).db == db[key := Val(Hash(fields), None)]
  {
    hide Itoa, Spelling, Flatten;
    var none: FieldMap := map[];
    assert none + fields == fields;
  }

  lemma AfterWrite(s: State, i: DbIndex, key: Bytes, fields: FieldMap, now: int)
    requires s[i] == map[]
    ensures After(s, On(i, HSet(key, fields)), now) == s[i := map[key := Val(Hash(fields), None)]]
  {
    WriteOnEmpty(s[i], i, key, fields, now);
  }

  lemma FirstWrite(i: DbIndex, key: Bytes, fields: FieldMap, now: int)
    requires fields != map[]
    ensures var run := [] + [Timed(On(i, HSet(key, fields)), now)];
            GoodRun(run) && Only(Final(run), i, map[key := Val(Hash(fields), None)])
  {
    hide After;
    forall j: DbIndex { EmptyAt(j); }
    AfterWrite(EMPTY, i, key, fields, now);
    Extend([], Timed(On(i, HSet(key, fields)), now), EMPTY[i := map[key := Val(Hash(fields), None)]]);
  }

  lemma AfterLimit(s: State, i: DbIndex, key: Bytes, fields: FieldMap, now: int)
    requires s[i] == map[key := Val(Hash(fields), None)]
    ensures After(s, On(i, Expire(key, SECOND)), now) == s[i := map[key := Val(Hash(fields), Some(now + SECOND))]]
  {
    assert RunExpire(s[i], i, key, SECOND, now).db == map[key := Val(Hash(fields), Some(now + SECOND))];
  }

  lemma ThenLimit(run: seq<Timed>, i: DbIndex, key: Bytes, fields: FieldMap, now: int)
    requires GoodRun(run) && run != [] && run[|run| - 1].now <= now
    requires Only(Final(run), i, map[key := Val(Hash(fields), None)])
    ensures var run' := run + [Timed(On(i, Expire(key, SECOND)), now)];
            GoodRun(run') && Only(Final(run'), i, map[key := Val(Hash(fields), Some(now + SECOND))])
  {
    hide After;
    AfterLimit(Final(run), i, key, fields, now);
    Extend(run, Timed(On(i, Expire(key, SECOND)), now),
           Final(run)[i := map[key := Val(Hash(fields), Some(now + SECOND))]]);
  }

  lemma LimitForward(i: DbIndex, key: Bytes, fields: FieldMap, now: int)
    ensures ForwardTtls([] + [Timed(On(i, HSet(key, fields)), now)] + [Timed(On(i, Expire(key, SECOND)), now)])
  {
  }

  /** HSET, EXPIRE in one second, two seconds later HDEL: what is live and what is rebuilt part ways. */
  lemma ExpiredHashReturns(i: DbIndex, key: Bytes, fields: FieldMap, names: seq<Bytes>, now: int, at: int)
    requires fields != map[]
    ensures var run := [] + [Timed(On(i, HSet(key, fields)), now)] + [Timed(On(i, Expire(key, SECOND)), now)];
            var drop := Timed(On(i, HDel(key, names)), now + 2 * SECOND);
            var out := ReplayAll(Logged(run + [drop]), EMPTY, at);
            GoodRun(run) && out.Ran? && !SimilarAll(Final(run + [drop]), out.state)
  {
    var write, limit := Timed(On(i, HSet(key, fields)), now), Timed(On(i, Expire(key, SECOND)), now);
    FirstWrite(i, key, fields, now);
    ThenLimit([] + [write], i, key, fields, now);
    LimitForward(i, key, fields, now);
    RecoveryForward([] + [write] + [limit], Timed(On(i, HDel(key, names)), now + 2 * SECOND), at);
  }
}
