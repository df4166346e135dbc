/**
 Replay under a clock that moves, each entry at an instant of its own. Between
 two operations it may advance as much as the live clock did between them, or
 less; then a deadline is never reached on the replica before it was reached live.
 */
module MovingClock {
  import opened Base
  import opened Decimal
  import opened Fields
  import opened Entries
  import opened Keyspace
  import opened Replay
  import opened Simulation
  import opened Recovery
  import opened Durability

  /** Where both sides have a deadline, the replica's is at least as far away. */
  ghost predicate Outlasts(live: Db, now: int, replica: Db, at: int) {
    forall k :: k in live && k in replica && live[k].deadline.Some? && replica[k].deadline.Some? ==>
      live[k].deadline.value - now <= replica[k].deadline.value - at
  }

  lemma OutlastsTracks(live: Db, now: int, replica: Db, at: int)
    requires Similar(live, replica) && Outlasts(live, now, replica, at)
    ensures Tracks(live, now, replica, at)
  {
  }

  /** Time passes on both sides, on the replica no faster. */
  lemma OutlastsLater(live: Db, now: int, now': int, replica: Db, at: int, at': int)
    requires Outlasts(live, now, replica, at) && at' - at <= now' - now
    ensures Outlasts(live, now', replica, at')
  {
  }

  /** The log does not shorten the time to live the operation gives. */
  predicate NotShortened(op: KeyOp) {
    match op
    case Set(_, _, o) => TtlOf(o).Ttl? ==> Wrap64(TtlOf(o).seconds * SECOND) >= TtlOf(o).nanos
    case Expire(_, ttl) => Wrap64(WholeSeconds(ttl) * SECOND) >= ttl
    case _ => true
  }

  /** EX in any amount, and PX and EXPIRE in whole seconds of up to 292 years, are not shortened. */
  lemma WholeSecondsKept(key: Bytes, value: Bytes, o: SetOptions, seconds: int)
    requires o.ex > 0 || (o.px % 1000 == 0 && o.px <= MAX_SECONDS * 1000)
    requires -MAX_SECONDS <= seconds <= MAX_SECONDS
    ensures NotShortened(Set(key, value, o)) && NotShortened(Expire(key, seconds * SECOND))
  {
    assert WholeSeconds(seconds * SECOND) == seconds;
    if o.ex <= 0 && o.px > 0 {
      assert o.px / 1000 * SECOND == o.px * MILLISECOND;
      assert InInt64(o.px * MILLISECOND);
    }
  }

  // ----- One operation -----

  /** Every deadline there is was there before, under the same key. */
  ghost predicate NoNewDeadline(before: Db, after: Db) {
    forall k :: k in after && after[k].deadline.Some? ==> k in before && before[k].deadline == after[k].deadline
  }

  lemma OutlastsKept(live: Db, live': Db, now: int, replica: Db, replica': Db, at: int)
    requires Outlasts(live, now, replica, at) && NoNewDeadline(live, live') && NoNewDeadline(replica, replica')
    ensures Outlasts(live', now, replica', at)
  {
  }

  predicate GivesDeadline(op: KeyOp) {
    (op.Set? && TtlOf(op.options).Ttl?) || op.Expire? || op.Rename?
  }

  lemma ListsGiveNone(db: Db, i: DbIndex, op: KeyOp, now: int)
    requires op.LPush? || op.RPush? || op.LPop? || op.RPop? || op.LTrim?
    ensures NoNewDeadline(db, Run(db, i, op, now).db)
  {
    hide Entry, Itoa, Window, PopCount, Reversed;
  }

  lemma HSetGivesNone(db: Db, i: DbIndex, key: Bytes, fields: FieldMap, now: int)
    ensures NoNewDeadline(db, RunHSet(db, i, key, fields, now).db)
  {
    hide Entry, Flatten;
  }

  lemma HDelGivesNone(db: Db, i: DbIndex, key: Bytes, names: seq<Bytes>, now: int)
    ensures NoNewDeadline(db, RunHDel(db, i, key, names, now).db)
  {
    hide Entry, WithoutFields;
  }

  lemma GivesNone(db: Db, i: DbIndex, op: KeyOp, now: int)
    requires !GivesDeadline(op)
    ensures NoNewDeadline(db, Run(db, i, op, now).db)
  {
    hide Entry, Itoa, Atoi, Wrap64, RunPush, RunPop, RunTrim, RunHSet, RunHDel;
    if op.LPush? || op.RPush? || op.LPop? || op.RPop? || op.LTrim? {
      ListsGiveNone(db, i, op, now);
    } else if op.HSet? {
      HSetGivesNone(db, i, op.key, op.fields, now);
    } else if op.HDel? {
      HDelGivesNone(db, i, op.key, op.names, now);
    } else if op.SetNX? {
      NoTtlInNX();
    }
  }

  lemma NoTtlInNX()
    ensures TtlOf(NO_OPTIONS) == NoTtl
  {
  }

  /** The echo of such an operation is at most one operation, and gives no deadline either. */
  lemma EchoGivesNone(db: Db, op: KeyOp, now: int)
    requires !GivesDeadline(op)
    ensures var e := Echo(db, op, now); |e| <= 1 && (e != [] ==> !GivesDeadline(e[0]))
  {
    hide RunCount, Window, PopCount, WithoutFields;
    NoTtlInNX();
  }

  lemma EchoKeepsDeadlines(live: Db, i: DbIndex, op: KeyOp, now: int, replica: Db, at: int)
    requires !GivesDeadline(op)
    ensures NoNewDeadline(replica, RunAll(Echo(live, op, now), replica, i, at).0)
  {
    hide Run, Echo, GivesDeadline;
    EchoGivesNone(live, op, now);
    var e := Echo(live, op, now);
    if e != [] {
      assert e == [e[0]];
      GivesNone(replica, i, e[0], at);
      RunOne(e[0], replica, i, at);
    }
  }

  lemma OutlastsSet(live: Db, i: DbIndex, key: Bytes, value: Bytes, o: SetOptions, now: int, replica: Db, at: int)
    requires Outlasts(live, now, replica, at) && TtlOf(o).Ttl? && NotShortened(Set(key, value, o))
    ensures Outlasts(Run(live, i, Set(key, value, o), now).db, now, RunAll(Echo(live, Set(key, value, o), now), replica, i, at).0, at)
  {
    hide Entry, Itoa, RunAll, TtlOf, Wrap64;
    if !SetRefused(live, key, o, now) {
      EchoTtl(live, i, key, value, o, now, replica, at);
    } else {
      assert Echo(live, Set(key, value, o), now) == [];
      RunNothing(replica, i, at);
    }
  }

  lemma OutlastsExpire(live: Db, i: DbIndex, key: Bytes, ttl: int, now: int, replica: Db, at: int)
    requires Similar(live, replica) && Outlasts(live, now, replica, at) && NotShortened(Expire(key, ttl))
    ensures Outlasts(Run(live, i, Expire(key, ttl), now).db, now, RunAll(Echo(live, Expire(key, ttl), now), replica, i, at).0, at)
  {
    hide Entry, Itoa, RunAll, Wrap64, WholeSeconds;
    if key in live {
      RunOne(Expire(key, Wrap64(WholeSeconds(ttl) * SECOND)), replica, i, at);
    } else {
      RunNothing(replica, i, at);
    }
  }

  lemma OutlastsRename(live: Db, i: DbIndex, key: Bytes, newKey: Bytes, now: int, replica: Db, at: int)
    requires Similar(live, replica) && Outlasts(live, now, replica, at)
    ensures Outlasts(Run(live, i, Rename(key, newKey), now).db, now, RunAll(Echo(live, Rename(key, newKey), now), replica, i, at).0, at)
  {
    hide Entry, Itoa, RunAll;
    if Live(live, key, now) {
      OutlastsTracks(live, now, replica, at);
      RunOne(Rename(key, newKey), replica, i, at);
    } else {
      RunNothing(replica, i, at);
    }
  }

  lemma OutlastsStep(live: Db, i: DbIndex, op: KeyOp, now: int, replica: Db, at: int)
    requires Similar(live, replica) && Outlasts(live, now, replica, at) && NotShortened(op)
    ensures Outlasts(Run(live, i, op, now).db, now, RunAll(Echo(live, op, now), replica, i, at).0, at)
  {
    hide Run, RunAll, Echo, NotShortened, Outlasts, Similar, TtlOf;
    if !GivesDeadline(op) {
      GivesNone(live, i, op, now);
      EchoKeepsDeadlines(live, i, op, now, replica, at);
      OutlastsKept(live, Run(live, i, op, now).db, now, replica, RunAll(Echo(live, op, now), replica, i, at).0, at);
    } else if op.Set? {
      OutlastsSet(live, i, op.key, op.value, op.options, now, replica, at);
    } else if op.Expire? {
      OutlastsExpire(live, i, op.key, op.ttl, now, replica, at);
    } else {
      OutlastsRename(live, i, op.key, op.newKey, now, replica, at);
    }
  }

  // ----- Replaying each entry at an instant of its own -----

  function ReplayEach(log: seq<Command>, s: State, clock: seq<int>): Outcome
    requires |clock| == |log|
  {
    if log == [] then Ran(s, [])
    else
      match Dispatch(log[0], s, clock[0])
      case Panicked => Panicked
      case Ran(s', l) =>
        match ReplayEach(log[1..], s', clock[1..])
        case Panicked => Panicked
        case Ran(s'', l') => Ran(s'', l + l')
  }

  /** With one instant for all entries it is the replay at that instant. */
  lemma {:induction false} ReplayEachAtOnce(log: seq<Command>, s: State, clock: seq<int>, at: int)
    requires |clock| == |log| && forall j :: 0 <= j < |clock| ==> clock[j] == at
    ensures ReplayEach(log, s, clock) == ReplayAll(log, s, at)
  {
    hide Dispatch;
    if log != [] && Dispatch(log[0], s, at).Ran? {
      ReplayEachAtOnce(log[1..], Dispatch(log[0], s, at).state, clock[1..], at);
    }
  }

  lemma {:induction false} ReplayEachAppend(a: seq<Command>, b: seq<Command>, s: State, x: seq<int>, y: seq<int>)
    requires |x| == |a| && |y| == |b|
    ensures ReplayEach(a + b, s, x + y) ==
            match ReplayEach(a, s, x)
            case Panicked => Panicked
            case Ran(s', l) =>
              match ReplayEach(b, s', y)
              case Panicked => Panicked
              case Ran(s'', l') => Ran(s'', l + l')
  {
    hide Dispatch;
    if a == [] {
      assert a + b == b && x + y == y;
    } else {
      assert (a + b)[1..] == a[1..] + b && (x + y)[1..] == x[1..] + y;
      if Dispatch(a[0], s, x[0]).Ran? {
        ReplayEachAppend(a[1..], b, Dispatch(a[0], s, x[0]).state, x[1..], y);
      }
    }
  }

  // ----- The entries of one operation -----

  ghost predicate InStep(s: State, now: int, r: State, at: int) {
    forall i: DbIndex :: Similar(s[i], r[i]) && Outlasts(s[i], now, r[i], at)
  }

  /** One database changed on both sides. */
  lemma InStepUpdate(s: State, now: int, r: State, at: int, i: DbIndex, a: Db, b: Db)
    requires InStep(s, now, r, at) && Similar(a, b) && Outlasts(a, now, b, at)
    ensures InStep(s[i := a], now, r[i := b], at)
  {
    hide Similar, Outlasts;
  }

  lemma InStepTracks(s: State, now: int, r: State, at: int)
    requires InStep(s, now, r, at)
    ensures TracksAll(s, now, r, at)
  {
    hide Similar, Outlasts, Tracks;
    forall i: DbIndex
      ensures Tracks(s[i], now, r[i], at)
    {
      OutlastsTracks(s[i], now, r[i], at);
    }
  }

  /** All entries of an operation at one instant. */
  lemma InStepOnce(s: State, t: Timed, r: State, at: int)
    requires InStep(s, t.now, r, at) && Permitted(s, t) && (t.op.On? ==> NotShortened(t.op.op)) && forall i: DbIndex :: WellFormed(s[i])
    ensures var out := ReplayAll(LogOf(s, t.op, t.now), r, at); out.Ran? && InStep(After(s, t.op, t.now), t.now, out.state, at)
  {
    hide Run, Echo, ReplayAll, RunAll, Similar, Outlasts, Permitted, NotShortened;
    InStepTracks(s, t.now, r, at);
    ReplayStep(s, t, r, at);
    match t.op
    case On(i, op) =>
      assert ValidOp(op) by { ValidOf(s, t); }
      LogDecodes(s[i], i, op, t.now);
      ReplayDecoded(LogOf(s, t.op, t.now), Echo(s[i], op, t.now), i, r, at);
      OutlastsStep(s[i], i, op, t.now, r[i], at);
    case FlushAll =>
      ReplayFlushAll(s, t.now, r, at);
      StartInStep(t.now, at);
  }

  lemma ValidOf(s: State, t: Timed)
    requires Permitted(s, t) && t.op.On?
    ensures ValidOp(t.op.op)
  {
  }

  lemma EmptyOutlasts(now: int, at: int)
    ensures Similar(map[], map[]) && Outlasts(map[], now, map[], at)
  {
  }

  lemma StartInStep(now: int, at: int)
    ensures InStep(EMPTY, now, EMPTY, at) && forall i: DbIndex :: ListsFit(EMPTY[i])
  {
    forall i: DbIndex
      ensures EMPTY[i] == map[] && Similar(EMPTY[i], EMPTY[i]) && Outlasts(EMPTY[i], now, EMPTY[i], at)
    {
      EmptyAt(i);
      EmptyOutlasts(now, at);
    }
  }

  lemma LaterInStep(s: State, now: int, now': int, r: State, at: int, at': int)
    requires InStep(s, now, r, at) && at' - at <= now' - now
    ensures InStep(s, now', r, at')
  {
    hide Outlasts, Similar;
    forall i: DbIndex
      ensures Similar(s[i], r[i]) && Outlasts(s[i], now', r[i], at')
    {
      OutlastsLater(s[i], now, now', r[i], at, at');
    }
  }

  /** The two entries of a SET with a time to live, replayed one after the other at two instants. */
  lemma ReplayPair(r: State, i: DbIndex, key: Bytes, value: Bytes, seconds: int, c1: int, c2: int)
    requires InInt64(seconds)
    ensures var out := ReplayEach([Entry(SET, i, [key, value]), Entry(EXPIRE, i, [key, Itoa(seconds)])], r, [c1, c2]);
            out.Ran? && out.state == r[i := r[i][key := Val(Str(value), Some(c2 + Wrap64(seconds * SECOND)))]]
  {
    hide Entry, Itoa, Wrap64, Dispatch;
    var first, second := Entry(SET, i, [key, value]), Entry(EXPIRE, i, [key, Itoa(seconds)]);
    var d := Wrap64(seconds * SECOND);
    var r1 := r[i := r[i][key := Val(Str(value), None)]];
    SetDispatch(i, key, value, r, c1);
    ExpireDispatch(i, key, seconds, r1, c2);
    TwoEntries(first, second, r, c1, c2);
    var db := r[i][key := Val(Str(value), Some(c2 + d))];
    assert r1[i][key := r1[i][key].(deadline := Some(c2 + d))] == db;
    assert r1[i := db] == r[i := db];
  }

  lemma TwoEntries(a: Command, b: Command, s: State, x: int, y: int)
    requires Dispatch(a, s, x).Ran? && Dispatch(b, Dispatch(a, s, x).state, y).Ran?
    ensures var out := ReplayEach([a, b], s, [x, y]); out.Ran? && out.state == Dispatch(b, Dispatch(a, s, x).state, y).state
  {
    hide Dispatch;
    assert [a, b][1..] == [b] && [x, y][1..] == [y] && [b][1..] == [] && [y][1..] == [];
    assert ReplayEach([b], Dispatch(a, s, x).state, [y]).Ran?;
  }

  /** A later EXPIRE only moves the deadline further away. */
  lemma InStepPair(s: State, i: DbIndex, key: Bytes, value: Bytes, o: SetOptions, now: int, r: State, c1: int, c2: int)
    requires InStep(s, now, r, c1) && c1 <= c2 && InInt64(o.ex) && InInt64(o.px)
    requires !SetRefused(s[i], key, o, now) && TtlOf(o).Ttl? && NotShortened(Set(key, value, o))
    ensures var op := On(i, Set(key, value, o));
            |LogOf(s, op, now)| == 2
            && var out := ReplayEach(LogOf(s, op, now), r, [c1, c2]); out.Ran? && InStep(After(s, op, now), now, out.state, c1)
  {
    hide Entry, Itoa, Wrap64, RunAll, Echo, ReplayEach, SetRefused;
    var Ttl(nanos, seconds) := TtlOf(o);
    var d := Wrap64(seconds * SECOND);
    EchoTtl(s[i], i, key, value, o, now, r[i], c1);
    ReplayPair(r, i, key, value, seconds, c1, c2);
    var a, b := s[i][key := Val(Str(value), Some(now + nanos))], r[i][key := Val(Str(value), Some(c2 + d))];
    assert Similar(a, b) && Outlasts(a, now, b, c1);
    InStepUpdate(s, now, r, c1, i, a, b);
  }

  /** The entries of an operation, the first at at and the second, if there is one, not before. */
  lemma InStepEach(s: State, t: Timed, r: State, clock: seq<int>)
    requires |clock| == |LogOf(s, t.op, t.now)| && clock != [] && (|clock| == 2 ==> clock[0] <= clock[1])
    requires InStep(s, t.now, r, clock[0]) && Permitted(s, t) && (t.op.On? ==> NotShortened(t.op.op)) && forall i: DbIndex :: WellFormed(s[i])
    ensures var out := ReplayEach(LogOf(s, t.op, t.now), r, clock);
            out.Ran? && InStep(After(s, t.op, t.now), t.now, out.state, clock[0])
  {
    hide InStep, ReplayEach, ReplayAll, NotShortened, After, WellFormed;
    LogShape(s, t);
    if |clock| == 1 {
      InStepOnce(s, t, r, clock[0]);
      ReplayEachAtOnce(LogOf(s, t.op, t.now), r, clock, clock[0]);
    } else {
      var op := t.op.op;
      ValidOf(s, t);
      SetWithTtl(s[t.op.db], t.op.db, op, t.now);
      assert clock == [clock[0], clock[1]];
      InStepPair(s, t.op.db, op.key, op.value, op.options, t.now, r, clock[0], clock[1]);
    }
  }

  lemma SetWithTtl(db: Db, i: DbIndex, op: KeyOp, now: int)
    requires op.Set? && |Run(db, i, op, now).log| == 2
    ensures !SetRefused(db, op.key, op.options, now) && TtlOf(op.options).Ttl?
  {
    hide Entry, Itoa, Wrap64;
  }

  /** An operation that logs nothing gives no deadline. */
  lemma SilentGivesNone(db: Db, i: DbIndex, op: KeyOp, now: int)
    requires Run(db, i, op, now).log == []
    ensures NoNewDeadline(db, Run(db, i, op, now).db)
  {
    hide Entry, Itoa, RunHSet, RunHDel, RunPush, RunPop, RunTrim, RunCount;
    if !GivesDeadline(op) {
      GivesNone(db, i, op, now);
    }
  }

  /** Such an operation leaves the replica in step as of the instants before. */
  lemma InStepSilent(s: State, t: Timed, r: State, now: int, at: int)
    requires LogOf(s, t.op, t.now) == [] && InStep(s, now, r, at) && now <= t.now
    requires Permitted(s, t) && forall i: DbIndex :: WellFormed(s[i])
    ensures InStep(After(s, t.op, t.now), now, r, at)
  {
    hide Run, Similar, Outlasts, Permitted, WellFormed, NoNewDeadline;
    LaterInStep(s, now, t.now, r, at, at);
    InStepTracks(s, t.now, r, at);
    ReplayStep(s, t, r, at);
    if t.op.On? {
      var i := t.op.db;
      SilentGivesNone(s[i], i, t.op.op, t.now);
      NoNews(r[i]);
      OutlastsKept(s[i], Run(s[i], i, t.op.op, t.now).db, now, r[i], r[i], at);
      SimilarNow(After(s, t.op, t.now), t.now, r, at);
    }
  }

  lemma NoNews(db: Db)
    ensures NoNewDeadline(db, db)
  {
  }

  lemma SimilarNow(s: State, now: int, r: State, at: int)
    requires TracksAll(s, now, r, at)
    ensures forall i: DbIndex :: Similar(s[i], r[i])
  {
  }

  // ----- Runs -----

  /** An instant for every entry of the run, operation by operation. */
  ghost predicate Clocks(run: seq<Timed>, clock: seq<seq<int>>) {
    |clock| == |run| && forall j :: 0 <= j < |run| ==> |clock[j]| == |LogOf(Final(run[..j]), run[j].op, run[j].now)|
  }

  function Instants(clock: seq<seq<int>>): seq<int> {
    if clock == [] then [] else Instants(clock[..|clock| - 1]) + clock[|clock| - 1]
  }

  /** The last operation that logged anything; -1 if none did. */
  function LastLogged(clock: seq<seq<int>>): (m: int)
    ensures -1 <= m < |clock| && (m >= 0 ==> clock[m] != [])
  {
    if clock == [] then -1
    else if clock[|clock| - 1] != [] then |clock| - 1
    else LastLogged(clock[..|clock| - 1])
  }

  /**
   From the first entry of an operation to that of the next that logs, the
   replay's clock advances no more than the live clock did; and within an
   operation it does not go back.
   */
  ghost predicate NoFaster(run: seq<Timed>, clock: seq<seq<int>>)
    requires |clock| == |run|
  {
    && (forall j :: 0 <= j < |run| && |clock[j]| == 2 ==> clock[j][0] <= clock[j][1])
    && (forall j :: 0 <= j < |run| && clock[j] != [] ==>
          var m := LastLogged(clock[..j]);
          m >= 0 ==> clock[j][0] - clock[m][0] <= run[j].now - run[m].now)
  }

  predicate NoneShortened(run: seq<Timed>) {
    forall j :: 0 <= j < |run| && run[j].op.On? ==> NotShortened(run[j].op.op)
  }

  /** In step as of the last operation that logged; as of any instants if none did. */
  ghost predicate InStepSince(run: seq<Timed>, clock: seq<seq<int>>, s: State, r: State)
    requires |clock| == |run|
  {
    var m := LastLogged(clock);
    if m >= 0 then InStep(s, run[m].now, r, clock[m][0]) else forall now, at :: InStep(s, now, r, at)
  }

  lemma {:induction false} ClockOrder(run: seq<Timed>, m: nat)
    requires GoodRun(run) && m < |run|
    ensures run[m].now <= run[|run| - 1].now
  {
    hide Permitted, Final, ListsFit;
    if m < |run| - 1 {
      ClockOrder(run[..|run| - 1], m);
    }
  }

  lemma {:induction false} PrefixClocks(run: seq<Timed>, clock: seq<seq<int>>)
    requires Clocks(run, clock) && run != [] && NoFaster(run, clock)
    ensures var n := |run| - 1; Clocks(run[..n], clock[..n]) && NoFaster(run[..n], clock[..n])
  {
    hide LogOf, Final, LastLogged;
    var n := |run| - 1;
    forall j | 0 <= j < n
      ensures run[..n][..j] == run[..j] && clock[..n][..j] == clock[..j]
    {
    }
  }

  lemma OneStepSince(run: seq<Timed>, clock: seq<seq<int>>, r: State)
    requires run != [] && Clocks(run, clock) && NoFaster(run, clock) && GoodRun(run) && NoneShortened(run)
    requires var n := |run| - 1; InStepSince(run[..n], clock[..n], Final(run[..n]), r)
    ensures var n := |run| - 1;
            var out := ReplayEach(LogOf(Final(run[..n]), run[n].op, run[n].now), r, clock[n]);
            out.Ran? && InStepSince(run, clock, Final(run), out.state)
  {
    hide LogOf, After, InStep, Permitted, ListsFit, NotShortened;
    var n := |run| - 1;
    var prefix, s, t := run[..n], Final(run[..n]), run[n];
    var m := LastLogged(clock[..n]);
    assert Permitted(s, t);
    HashesStayNonEmpty(prefix);
    FitsSoFar(prefix);
    if clock[n] == [] {
      assert LastLogged(clock) == m;
      if m >= 0 {
        ClockOrder(run, m);
        InStepSilent(s, t, r, run[m].now, clock[m][0]);
      } else {
        forall now, at
          ensures InStep(After(s, t.op, t.now), now, r, at)
        {
          SilentFromNothing(s, t, r, now, at);
        }
      }
    } else {
      if m >= 0 {
        LaterInStep(s, run[m].now, t.now, r, clock[m][0], clock[n][0]);
      }
      assert |LogOf(s, t.op, t.now)| == |clock[n]|;
      InStepEach(s, t, r, clock[n]);
    }
  }

  lemma FitsSoFar(run: seq<Timed>)
    requires GoodRun(run)
    ensures forall i: DbIndex :: ListsFit(Final(run)[i])
  {
    hide Permitted, After;
    GoodRunFits(run);
  }

  lemma SilentFromNothing(s: State, t: Timed, r: State, now: int, at: int)
    requires LogOf(s, t.op, t.now) == [] && Permitted(s, t) && (forall i: DbIndex :: WellFormed(s[i]))
    requires forall x, y :: InStep(s, x, r, y)
    ensures InStep(After(s, t.op, t.now), now, r, at)
  {
    hide LogOf, After, InStep, Permitted, WellFormed;
    var early := if now <= t.now then now else t.now;
    assert InStep(s, early, r, at - (now - early));
    InStepSilent(s, t, r, early, at - (now - early));
    LaterInStep(After(s, t.op, t.now), early, now, r, at - (now - early), at);
  }

  /** Recovery under a moving clock: the data of every good run whose times to live the log does not shorten. */
  lemma {:induction false} MovingClockRestores(run: seq<Timed>, clock: seq<seq<int>>)
    requires GoodRun(run) && NoneShortened(run) && Clocks(run, clock) && NoFaster(run, clock)
    ensures |Instants(clock)| == |Logged(run)|
    ensures var out := ReplayEach(Logged(run), EMPTY, Instants(clock));
            out.Ran? && SimilarAll(Final(run), out.state) && InStepSince(run, clock, Final(run), out.state)
  {
    hide After, LogOf, Similar, Outlasts, Permitted, NotShortened, ListsFit, NoFaster, Clocks, Dispatch;
    if run == [] {
      assert clock == [] by { ClocksMatch(run, clock); }
      forall now, at
        ensures InStep(EMPTY, now, EMPTY, at)
      {
        StartInStep(now, at);
      }
    } else {
      var n := |run| - 1;
      ClocksMatch(run, clock);
      var prefix, past := run[..n], clock[..n];
      PrefixClocks(run, clock);
      NoneShortenedPrefix(run);
      MovingClockRestores(prefix, past);
      var out := ReplayEach(Logged(prefix), EMPTY, Instants(past));
      var log := LogOf(Final(prefix), run[n].op, run[n].now);
      OneStepSince(run, clock, out.state);
      ReplayEachAppend(Logged(prefix), log, EMPTY, Instants(past), clock[n]);
    }
    SinceSimilar(run, clock, Final(run), ReplayEach(Logged(run), EMPTY, Instants(clock)).state);
  }

  lemma ClocksMatch(run: seq<Timed>, clock: seq<seq<int>>)
    requires Clocks(run, clock)
    ensures |clock| == |run|
    ensures run != [] ==> var n := |run| - 1; |clock[n]| == |LogOf(Final(run[..n]), run[n].op, run[n].now)|
  {
    hide LogOf, Final;
  }

  lemma NoneShortenedPrefix(run: seq<Timed>)
    requires run != [] && NoneShortened(run)
    ensures NoneShortened(run[..|run| - 1])
  {
    hide NotShortened;
  }

  lemma SinceSimilar(run: seq<Timed>, clock: seq<seq<int>>, s: State, r: State)
    requires |clock| == |run| && InStepSince(run, clock, s, r)
    ensures SimilarAll(s, r)
  {
    hide Similar, Outlasts;
    var m := LastLogged(clock);
    if m < 0 {
      assert InStep(s, 0, r, 0);
    }
  }
}
