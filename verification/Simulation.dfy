/**
 One step of recovery: what an operation logged, decoded and run again on a
 replica, keeps the replica in step with the live database. The live operation
 sees a moving clock, conditions, negative indices and optional counts; the
 replay sees only the normalised entries.
 */
module Simulation {
  import opened Base
  import opened Decimal
  import opened Fields
  import opened Entries
  import opened Keyspace
  import opened Replay

  // ----- What a run may contain -----

  /** What argument parsing and validation guarantee. */
  predicate ValidOp(op: KeyOp) {
    match op
    case Set(_, _, o) => InInt64(o.ex) && InInt64(o.px)
    case Expire(_, ttl) => InInt64(ttl)
    case LPush(_, values) => values != []
    case RPush(_, values) => values != []
    case LPop(_, count) => count.Some? ==> InInt64(count.value)
    case RPop(_, count) => count.Some? ==> InInt64(count.value)
    case LTrim(_, start, stop) => InInt64(start) && InInt64(stop)
    case HSet(_, fields) => fields != map[]
    case _ => true
  }

  /** The log's first blind spot: a hash write or field deletion that finds an expired value. */
  predicate MeetsExpired(db: Db, op: KeyOp, now: int) {
    (op.HSet? || op.HDel?) && op.key in db && Expired(db[op.key], now)
  }

  /** The time to live, replayed from the seconds in the log, lies in the past although the live one does not. */
  predicate Backdates(o: SetOptions) {
    TtlOf(o).Ttl? && Wrap64(TtlOf(o).seconds * SECOND) < 0 <= TtlOf(o).nanos
  }

  /** The log's second blind spot: a SET that succeeds with such a time to live. */
  predicate SetsBackdated(db: Db, op: KeyOp, now: int) {
    op.Set? && !SetRefused(db, op.key, op.options, now) && Backdates(op.options)
  }

  ghost predicate ListsFit(db: Db) {
    forall k :: k in db && db[k].data.List? ==> |db[k].data.items| <= MAX_INT64
  }

  ghost predicate NoEmptyHash(db: Db) {
    forall k :: k in db && db[k].data.Hash? ==> db[k].data.fields != map[]
  }

  ghost predicate WellFormed(db: Db) {
    ListsFit(db) && NoEmptyHash(db)
  }

  // ----- How a replica relates to the live database -----

  /** Same keys, same data, the same keys carry a deadline. */
  ghost predicate Similar(a: Db, b: Db) {
    && a.Keys == b.Keys
    && forall k :: k in a ==> a[k].data == b[k].data && (a[k].deadline.Some? <==> b[k].deadline.Some?)
  }

  /** What the replica takes for expired, the live database takes for expired. */
  ghost predicate NoEarlyExpiry(live: Db, now: int, replica: Db, at: int) {
    forall k :: k in replica && Expired(replica[k], at) ==> k in live && Expired(live[k], now)
  }

  ghost predicate Tracks(live: Db, now: int, replica: Db, at: int) {
    Similar(live, replica) && NoEarlyExpiry(live, now, replica, at)
  }

  /** The replica misses that a hash command found an expired value: HDEL logs nothing, and HSET finds the value alive there. */
  predicate MissedBy(live: Db, op: KeyOp, now: int, replica: Db, at: int) {
    MeetsExpired(live, op, now) && (op.HDel? || Live(replica, op.key, at))
  }

  // ----- The operations a replay performs -----

  predicate Poppable(db: Db, key: Bytes, count: Option<int>, now: int) {
    Live(db, key, now) && db[key].data.List? && db[key].data.items != [] && (count.Some? ==> count.value >= 0)
  }

  /** The operations that the log entries of op are decoded into. */
  function Echo(db: Db, op: KeyOp, now: int): seq<KeyOp> {
    match op
    case Set(key, value, o) =>
      if SetRefused(db, key, o, now) then [] else EchoSet(key, value, TtlOf(o))
    case SetNX(key, value) => if Live(db, key, now) then [] else EchoSet(key, value, NoTtl)
    case Del(_) => [op]
    case Expire(key, ttl) => if key in db then [Expire(key, Wrap64(WholeSeconds(ttl) * SECOND))] else []
    case Incr(key) => if RunCount(db, 0, key, INCR, 1).reply.Failure? then [] else [op]
    case Decr(key) => if RunCount(db, 0, key, DECR, -1).reply.Failure? then [] else [op]
    case LPush(key, _) => if key in db && !db[key].data.List? then [] else [op]
    case RPush(key, _) => if key in db && !db[key].data.List? then [] else [op]
    case LPop(key, count) =>
      if Poppable(db, key, count, now) then [LPop(key, Some(PopCount(count, |db[key].data.items|)))] else []
    case RPop(key, count) =>
      if Poppable(db, key, count, now) then [RPop(key, Some(PopCount(count, |db[key].data.items|)))] else []
    case LTrim(key, start, stop) =>
      if !Live(db, key, now) || !db[key].data.List? then [] else
      var n := |db[key].data.items|;
      var w := Window(n, start, stop);
      if w.0 > w.1 || w.0 >= n then [Del(key)] else [LTrim(key, w.0, w.1)]
    case Rename(key, _) => if Live(db, key, now) then [op] else []
    case HSet(key, _) => if Live(db, key, now) && !db[key].data.Hash? then [] else [op]
    case HDel(key, names) =>
      if Live(db, key, now) && db[key].data.Hash? && WithoutFields(db[key].data.fields, names) != db[key].data.fields
      then [op] else []
    case FlushDb => [op]
  }

  function EchoSet(key: Bytes, value: Bytes, ttl: Ttl): seq<KeyOp> {
    match ttl
    case NoTtl => [Set(key, value, NO_OPTIONS)]
    case Ttl(_, seconds) => [Set(key, value, NO_OPTIONS), Expire(key, Wrap64(seconds * SECOND))]
  }

  ghost predicate DecodesTo(entry: Command, i: DbIndex, op: KeyOp) {
    Decode(entry) == Perform(i, op)
  }

  lemma DecodeHandled(n: Name, i: DbIndex, args: seq<Bytes>, op: KeyOp)
    requires n != FLUSHALL && Handle(n, args) == Some(op)
    ensures DecodesTo(Entry(n, i, args), i, op)
  {
    hide Spelling, ParseName, Itoa, Atoi, Handle;
    DecodeEntry(n, i, args);
  }

  lemma HandlePairs(key: Bytes, parts: seq<Bytes>, fields: FieldMap)
    requires |parts| >= 2 && |parts| % 2 == 0 && ReadPairs(parts) == fields
    ensures Handle(HSET, [key] + parts) == Some(HSet(key, fields))
  {
    var args := [key] + parts;
    assert |args| % 2 == 1 && args[0] == key && args[1..] == parts;
  }

  lemma DecodeHSet(i: DbIndex, key: Bytes, fields: FieldMap)
    requires fields != map[]
    ensures DecodesTo(Entry(HSET, i, [key] + Flatten(fields)), i, HSet(key, fields))
  {
    var parts := Flatten(fields);
    ReadFlatten(fields);
    FlattenShape(fields);
    HandlePairs(key, parts, fields);
    DecodeHandled(HSET, i, [key] + parts, HSet(key, fields));
  }

  lemma DecodeExpire(i: DbIndex, key: Bytes, seconds: int)
    requires InInt64(seconds)
    ensures DecodesTo(Entry(EXPIRE, i, [key, Itoa(seconds)]), i, Expire(key, Wrap64(seconds * SECOND)))
  {
    hide DecodesTo, Itoa, Atoi, Spelling;
    AtoiItoa(seconds);
    DecodeHandled(EXPIRE, i, [key, Itoa(seconds)], Expire(key, Wrap64(seconds * SECOND)));
  }

  lemma DecodePop(i: DbIndex, key: Bytes, c: int)
    requires InInt64(c)
    ensures DecodesTo(Entry(LPOP, i, [key, Itoa(c)]), i, LPop(key, Some(c)))
    ensures DecodesTo(Entry(RPOP, i, [key, Itoa(c)]), i, RPop(key, Some(c)))
  {
    hide DecodesTo, Itoa, Atoi, Spelling;
    AtoiItoa(c);
    DecodeHandled(LPOP, i, [key, Itoa(c)], LPop(key, Some(c)));
    DecodeHandled(RPOP, i, [key, Itoa(c)], RPop(key, Some(c)));
  }

  lemma DecodeTrim(i: DbIndex, key: Bytes, start: int, stop: int)
    requires InInt64(start) && InInt64(stop)
    ensures DecodesTo(Entry(LTRIM, i, [key, Itoa(start), Itoa(stop)]), i, LTrim(key, start, stop))
  {
    hide DecodesTo, Itoa, Atoi, Spelling;
    AtoiItoa(start);
    AtoiItoa(stop);
    DecodeHandled(LTRIM, i, [key, Itoa(start), Itoa(stop)], LTrim(key, start, stop));
  }

  lemma DecodeTail(n: Name, i: DbIndex, key: Bytes, rest: seq<Bytes>, op: KeyOp)
    requires n != FLUSHALL && rest != []
    requires (n == LPUSH && op == LPush(key, rest)) || (n == RPUSH && op == RPush(key, rest)) || (n == HDEL && op == HDel(key, rest))
    ensures DecodesTo(Entry(n, i, [key] + rest), i, op)
  {
    assert ([key] + rest)[1..] == rest;
    DecodeHandled(n, i, [key] + rest, op);
  }

  ghost predicate AllDecode(log: seq<Command>, i: DbIndex, ops: seq<KeyOp>) {
    |log| == |ops| && forall j :: 0 <= j < |log| ==> DecodesTo(log[j], i, ops[j])
  }

  lemma DecodeSet(db: Db, i: DbIndex, key: Bytes, value: Bytes, o: SetOptions, now: int)
    requires ValidOp(Set(key, value, o))
    ensures AllDecode(RunSet(db, i, key, value, o, now).log, i, Echo(db, Set(key, value, o), now))
  {
    hide DecodesTo, Itoa, Spelling, Flatten;
    DecodeHandled(SET, i, [key, value], Set(key, value, NO_OPTIONS));
    if TtlOf(o).Ttl? {
      DecodeExpire(i, key, TtlOf(o).seconds);
    }
  }

  lemma LogOfPop(db: Db, i: DbIndex, key: Bytes, count: Option<int>, left: bool, now: int)
    ensures RunPop(db, i, key, count, left, now).log ==
            if Poppable(db, key, count, now)
            then [Entry(if left then LPOP else RPOP, i, [key, Itoa(PopCount(count, |db[key].data.items|))])]
            else []
  {
    hide Itoa, Spelling;
  }

  lemma DecodeAnyPop(db: Db, i: DbIndex, key: Bytes, count: Option<int>, left: bool, now: int)
    requires (count.Some? ==> InInt64(count.value))
    ensures AllDecode(RunPop(db, i, key, count, left, now).log, i,
                      Echo(db, if left then LPop(key, count) else RPop(key, count), now))
  {
    hide DecodesTo, Itoa, Spelling, Flatten;
    LogOfPop(db, i, key, count, left, now);
    if Poppable(db, key, count, now) {
      DecodePop(i, key, PopCount(count, |db[key].data.items|));
    }
  }

  lemma DecodeAnyTrim(db: Db, i: DbIndex, key: Bytes, start: int, stop: int, now: int)
    requires InInt64(start) && InInt64(stop) && WellFormed(db)
    ensures AllDecode(RunTrim(db, i, key, start, stop, now).log, i, Echo(db, LTrim(key, start, stop), now))
  {
    hide DecodesTo, Itoa, Spelling, Flatten;
    DecodeHandled(DEL, i, [key], Del(key));
    if Live(db, key, now) && db[key].data.List? {
      var w := Window(|db[key].data.items|, start, stop);
      if w.0 <= w.1 {
        DecodeTrim(i, key, w.0, w.1);
      }
    }
  }

  lemma DecodeAnyHDel(db: Db, i: DbIndex, key: Bytes, names: seq<Bytes>, now: int)
    ensures AllDecode(RunHDel(db, i, key, names, now).log, i, Echo(db, HDel(key, names), now))
  {
    hide DecodesTo, Itoa, Spelling, Flatten;
    if names == [] {
      assert forall h: FieldMap :: WithoutFields(h, names) == h;
    } else {
      DecodeTail(HDEL, i, key, names, HDel(key, names));
    }
  }

  lemma DecodeSetNX(db: Db, i: DbIndex, key: Bytes, value: Bytes, now: int)
    ensures AllDecode(RunSetNX(db, i, key, value, now).log, i, Echo(db, SetNX(key, value), now))
  {
    hide DecodesTo, Itoa, Spelling;
    DecodeHandled(SET, i, [key, value], Set(key, value, NO_OPTIONS));
  }

  lemma DecodeRename(db: Db, i: DbIndex, key: Bytes, newKey: Bytes, now: int)
    ensures AllDecode(RunRename(db, i, key, newKey, now).log, i, Echo(db, Rename(key, newKey), now))
  {
    hide DecodesTo, Itoa, Spelling;
    DecodeHandled(RENAME, i, [key, newKey], Rename(key, newKey));
  }

  lemma DecodeAnyExpire(db: Db, i: DbIndex, key: Bytes, ttl: int, now: int)
    requires InInt64(ttl)
    ensures AllDecode(RunExpire(db, i, key, ttl, now).log, i, Echo(db, Expire(key, ttl), now))
  {
    hide DecodesTo, Itoa, Spelling;
    DecodeExpire(i, key, WholeSeconds(ttl));
  }

  lemma LogOfHSet(db: Db, i: DbIndex, key: Bytes, fields: FieldMap, now: int)
    ensures RunHSet(db, i, key, fields, now).log ==
            if Live(db, key, now) && !db[key].data.Hash? then [] else [Entry(HSET, i, [key] + Flatten(fields))]
  {
    hide Entry, Flatten;
  }

  lemma DecodeAnyHSet(db: Db, i: DbIndex, key: Bytes, fields: FieldMap, now: int)
    requires fields != map[]
    ensures AllDecode(RunHSet(db, i, key, fields, now).log, i, Echo(db, HSet(key, fields), now))
  {
    hide DecodesTo, Entry, Flatten, RunHSet;
    LogOfHSet(db, i, key, fields, now);
    DecodeHSet(i, key, fields);
  }

  lemma DecodeCount(db: Db, i: DbIndex, op: KeyOp, now: int)
    requires op.Incr? || op.Decr?
    ensures AllDecode(Run(db, i, op, now).log, i, Echo(db, op, now))
  {
    hide DecodesTo, Entry, Atoi, Itoa, Wrap64;
    DecodeHandled(if op.Incr? then INCR else DECR, i, [op.key], op);
  }

  lemma DecodePush(db: Db, i: DbIndex, op: KeyOp, now: int)
    requires (op.LPush? || op.RPush?) && op.values != []
    ensures AllDecode(Run(db, i, op, now).log, i, Echo(db, op, now))
  {
    hide DecodesTo, Entry, Reversed;
    DecodeTail(if op.LPush? then LPUSH else RPUSH, i, op.key, op.values, op);
  }

  /** Every entry an operation logs is decoded into the corresponding echo. */
  lemma LogDecodes(db: Db, i: DbIndex, op: KeyOp, now: int)
    requires ValidOp(op) && WellFormed(db)
    ensures AllDecode(Run(db, i, op, now).log, i, Echo(db, op, now))
  {
    hide DecodesTo, Entry, Atoi, RunSet, RunSetNX, RunPop, RunTrim, RunRename, RunExpire, RunHSet, RunHDel, RunCount, RunPush;
    match op
    case Del(key) => DecodeHandled(DEL, i, [key], op);
    case FlushDb => DecodeHandled(FLUSHDB, i, [], op);
    case _ =>
      hide AllDecode, Echo;
      match op
      case Set(key, value, o) => DecodeSet(db, i, key, value, o, now);
      case SetNX(key, value) => DecodeSetNX(db, i, key, value, now);
      case Expire(key, ttl) => DecodeAnyExpire(db, i, key, ttl, now);
      case Incr(_) => DecodeCount(db, i, op, now);
      case Decr(_) => DecodeCount(db, i, op, now);
      case LPush(_, _) => DecodePush(db, i, op, now);
      case RPush(_, _) => DecodePush(db, i, op, now);
      case LPop(key, count) => DecodeAnyPop(db, i, key, count, true, now);
      case RPop(key, count) => DecodeAnyPop(db, i, key, count, false, now);
      case LTrim(key, start, stop) => DecodeAnyTrim(db, i, key, start, stop, now);
      case Rename(key, newKey) => DecodeRename(db, i, key, newKey, now);
      case HSet(key, fields) => DecodeAnyHSet(db, i, key, fields, now);
      case HDel(key, names) => DecodeAnyHDel(db, i, key, names, now);
  }

  // ----- Single entries -----

  lemma Decoded(entry: Command, i: DbIndex, op: KeyOp)
    requires DecodesTo(entry, i, op)
    ensures Decode(entry) == Perform(i, op)
  {
  }

  lemma SetPlain(db: Db, i: DbIndex, key: Bytes, value: Bytes, now: int)
    ensures var e := Run(db, i, Set(key, value, NO_OPTIONS), now);
            e.db == db[key := Val(Str(value), None)] && e.log == [Entry(SET, i, [key, value])]
  {
    hide Itoa, Spelling, Entry;
  }

  /** A SET entry replayed on any store. */
  lemma SetDispatch(i: DbIndex, key: Bytes, value: Bytes, s: State, now: int)
    ensures Dispatch(Entry(SET, i, [key, value]), s, now) ==
            Ran(s[i := s[i][key := Val(Str(value), None)]], [Entry(SET, i, [key, value])])
  {
    hide Itoa, Spelling, DecodesTo, Entry, Run, Decode;
    DecodeHandled(SET, i, [key, value], Set(key, value, NO_OPTIONS));
    Decoded(Entry(SET, i, [key, value]), i, Set(key, value, NO_OPTIONS));
    SetPlain(s[i], i, key, value, now);
  }

  lemma ExpirePlain(db: Db, i: DbIndex, key: Bytes, ttl: int, now: int)
    requires key in db
    ensures Run(db, i, Expire(key, ttl), now).db == db[key := db[key].(deadline := Some(now + ttl))]
  {
    hide Itoa, Spelling, Entry, WholeSeconds;
  }

  /** An EXPIRE entry replayed on a store that has the key. */
  lemma ExpireDispatch(i: DbIndex, key: Bytes, seconds: int, s: State, now: int)
    requires InInt64(seconds) && key in s[i]
    ensures var out := Dispatch(Entry(EXPIRE, i, [key, Itoa(seconds)]), s, now);
            out.Ran? && out.state == s[i := s[i][key := s[i][key].(deadline := Some(now + Wrap64(seconds * SECOND)))]]
  {
    hide Itoa, Spelling, DecodesTo, Entry, Run, Decode, Wrap64;
    DecodeExpire(i, key, seconds);
    Decoded(Entry(EXPIRE, i, [key, Itoa(seconds)]), i, Expire(key, Wrap64(seconds * SECOND)));
    ExpirePlain(s[i], i, key, Wrap64(seconds * SECOND), now);
  }

  /** Several operations in a row on one database. */
  function RunAll(ops: seq<KeyOp>, db: Db, i: DbIndex, now: int): (r: (Db, seq<Command>)) {
    if ops == [] then (db, [])
    else
      var e := Run(db, i, ops[0], now);
      var r := RunAll(ops[1..], e.db, i, now);
      (r.0, e.log + r.1)
  }

  /** Replaying decoded entries is running the decoded operations. */
  lemma {:induction false} ReplayDecoded(log: seq<Command>, ops: seq<KeyOp>, i: DbIndex, s: State, at: int)
    requires AllDecode(log, i, ops)
    ensures var r := RunAll(ops, s[i], i, at); ReplayAll(log, s, at) == Ran(s[i := r.0], r.1)
  {
    hide Run, Decode;
    if log == [] {
      assert s[i := s[i]] == s;
    } else {
      assert DecodesTo(log[0], i, ops[0]);
      var e := Run(s[i], i, ops[0], at);
      var s' := s[i := e.db];
      assert Dispatch(log[0], s, at) == Ran(s', e.log);
      ReplayDecoded(log[1..], ops[1..], i, s', at);
      assert s'[i := RunAll(ops[1..], e.db, i, at).0] == s[i := RunAll(ops[1..], e.db, i, at).0];
    }
  }

  // ----- One step of the simulation -----

  ghost predicate TracksValue(v: Val, now: int, w: Val, at: int) {
    && v.data == w.data
    && (v.deadline.Some? <==> w.deadline.Some?)
    && (Expired(w, at) ==> Expired(v, now))
  }

  lemma TracksUpdate(live: Db, now: int, replica: Db, at: int, key: Bytes, v: Val, w: Val)
    requires Tracks(live, now, replica, at) && TracksValue(v, now, w, at)
    ensures Tracks(live[key := v], now, replica[key := w], at)
  {
  }

  lemma TracksRemove(live: Db, now: int, replica: Db, at: int, key: Bytes)
    requires Tracks(live, now, replica, at)
    ensures Tracks(live - {key}, now, replica - {key}, at)
  {
    assert (live - {key}).Keys == live.Keys - {key} && (replica - {key}).Keys == replica.Keys - {key};
  }

  lemma RunNothing(db: Db, i: DbIndex, at: int)
    ensures RunAll([], db, i, at) == (db, [])
  {
  }

  lemma RunOne(op: KeyOp, db: Db, i: DbIndex, at: int)
    ensures RunAll([op], db, i, at) == (Run(db, i, op, at).db, Run(db, i, op, at).log)
  {
    hide Run;
    var log := Run(db, i, op, at).log;
    assert [op][1..] == [] && log + [] == log;
  }

  lemma RunTwo(op: KeyOp, op': KeyOp, db: Db, i: DbIndex, at: int)
    ensures var e := Run(db, i, op, at);
            var e' := Run(e.db, i, op', at);
            RunAll([op, op'], db, i, at) == (e'.db, e.log + e'.log)
  {
    hide Run;
    assert [op, op'][1..] == [op'];
    RunOne(op', Run(db, i, op, at).db, i, at);
  }

  /** Seconds whose nanoseconds still fit a Go duration. */
  const MAX_SECONDS: int := 9_223_372_036

  /** The time to live of a SET that succeeds is read back as it was written. */
  predicate ExactTtl(db: Db, op: KeyOp, now: int) {
    op.Set? && !SetRefused(db, op.key, op.options, now) && TtlOf(op.options).Ttl? ==> TtlOf(op.options).seconds <= MAX_SECONDS
  }

  /** The replay of what op logged restores its data, and logs as many entries again: the same ones exactly when the TTL is exact. */
  ghost predicate EchoSimilar(live: Db, i: DbIndex, op: KeyOp, now: int, replica: Db, at: int) {
    var e, r := Run(live, i, op, now), RunAll(Echo(live, op, now), replica, i, at);
    Similar(e.db, r.0) && |r.1| == |e.log| && (r.1 == e.log <==> ExactTtl(live, op, now))
  }

  /** And it keeps the replica in step. */
  ghost predicate EchoTracks(live: Db, i: DbIndex, op: KeyOp, now: int, replica: Db, at: int) {
    var e, r := Run(live, i, op, now), RunAll(Echo(live, op, now), replica, i, at);
    EchoSimilar(live, i, op, now, replica, at) && NoEarlyExpiry(e.db, now, r.0, at)
  }

  /** The seconds of a SET's time to live are read back unchanged exactly when they fit a duration. */
  lemma ReplayedTtl(o: SetOptions)
    requires TtlOf(o).Ttl? && InInt64(o.ex) && InInt64(o.px)
    ensures var d := Wrap64(TtlOf(o).seconds * SECOND);
            Itoa(WholeSeconds(d)) == Itoa(TtlOf(o).seconds) <==> TtlOf(o).seconds <= MAX_SECONDS
  {
    hide Itoa, Atoi;
    var seconds := TtlOf(o).seconds;
    var back := WholeSeconds(Wrap64(seconds * SECOND));
    AtoiItoa(seconds);
    AtoiItoa(back);
    if seconds <= MAX_SECONDS {
      assert InInt64(seconds * SECOND);
    }
  }

  /** Only a PX of more than 292 years can be backdated. */
  lemma BackdatedPx(o: SetOptions)
    requires Backdates(o) && InInt64(o.ex) && InInt64(o.px)
    ensures o.ex <= 0 && o.px > 9_223_372_036_854
  {
  }

  lemma ReplayTtl(replica: Db, i: DbIndex, key: Bytes, value: Bytes, d: int, at: int)
    ensures RunAll([Set(key, value, NO_OPTIONS), Expire(key, d)], replica, i, at) ==
            (replica[key := Val(Str(value), Some(at + d))],
             [Entry(SET, i, [key, value]), Entry(EXPIRE, i, [key, Itoa(WholeSeconds(d))])])
  {
    hide Itoa, Spelling, WholeSeconds;
    RunTwo(Set(key, value, NO_OPTIONS), Expire(key, d), replica, i, at);
    var v, w := Val(Str(value), None), Val(Str(value), Some(at + d));
    var first, second := Entry(SET, i, [key, value]), Entry(EXPIRE, i, [key, Itoa(WholeSeconds(d))]);
    assert RunSet(replica, i, key, value, NO_OPTIONS, at) == Effect(replica[key := v], [first], Flag(true));
    assert RunExpire(replica[key := v], i, key, d, at).log == [second];
    assert replica[key := v][key := w] == replica[key := w] && [first] + [second] == [first, second];
  }

  /** Where a SET with a time to live leaves the live database and the replica. */
  lemma EchoTtl(live: Db, i: DbIndex, key: Bytes, value: Bytes, o: SetOptions, now: int, replica: Db, at: int)
    requires !SetRefused(live, key, o, now) && TtlOf(o).Ttl?
    ensures var Ttl(nanos, seconds) := TtlOf(o);
            var d := Wrap64(seconds * SECOND);
            var e, r := RunSet(live, i, key, value, o, now), RunAll(Echo(live, Set(key, value, o), now), replica, i, at);
            && e.db == live[key := Val(Str(value), Some(now + nanos))] && r.0 == replica[key := Val(Str(value), Some(at + d))]
            && e.log == [Entry(SET, i, [key, value]), Entry(EXPIRE, i, [key, Itoa(seconds)])]
            && r.1 == [Entry(SET, i, [key, value]), Entry(EXPIRE, i, [key, Itoa(WholeSeconds(d))])]
  {
    hide Itoa, Spelling, WholeSeconds, Wrap64, RunAll, TtlOf, Entry;
    var d := Wrap64(TtlOf(o).seconds * SECOND);
    ReplayTtl(replica, i, key, value, d, at);
    assert Echo(live, Set(key, value, o), now) == [Set(key, value, NO_OPTIONS), Expire(key, d)];
  }

  lemma EntryDiffers(n: Name, i: DbIndex, key: Bytes, a: Bytes, b: Bytes)
    ensures Entry(n, i, [key, a]) == Entry(n, i, [key, b]) <==> a == b
  {
    hide Itoa, Spelling;
    assert Entry(n, i, [key, a])[3] == a && Entry(n, i, [key, b])[3] == b;
  }

  lemma SimulateTtl(live: Db, i: DbIndex, key: Bytes, value: Bytes, o: SetOptions, now: int, replica: Db, at: int)
    requires Tracks(live, now, replica, at) && ValidOp(Set(key, value, o))
    requires !SetRefused(live, key, o, now) && TtlOf(o).Ttl?
    ensures EchoSimilar(live, i, Set(key, value, o), now, replica, at)
    ensures EchoTracks(live, i, Set(key, value, o), now, replica, at) <==> !Backdates(o)
  {
    hide Itoa, Spelling, WholeSeconds, Wrap64, RunAll, TtlOf, Entry, Echo;
    var Ttl(nanos, seconds) := TtlOf(o);
    var d := Wrap64(seconds * SECOND);
    ReplayedTtl(o);
    EchoTtl(live, i, key, value, o, now, replica, at);
    EntryDiffers(EXPIRE, i, key, Itoa(seconds), Itoa(WholeSeconds(d)));
    var v, w := Val(Str(value), Some(now + nanos)), Val(Str(value), Some(at + d));
    assert Similar(live[key := v], replica[key := w]);
    if !Backdates(o) {
      TracksUpdate(live, now, replica, at, key, v, w);
    } else {
      assert Expired(replica[key := w][key], at) && !Expired(live[key := v][key], now);
    }
  }

  lemma SimulateSet(live: Db, i: DbIndex, key: Bytes, value: Bytes, o: SetOptions, now: int, replica: Db, at: int)
    requires Tracks(live, now, replica, at) && ValidOp(Set(key, value, o))
    ensures EchoSimilar(live, i, Set(key, value, o), now, replica, at)
    ensures EchoTracks(live, i, Set(key, value, o), now, replica, at) <==> !SetsBackdated(live, Set(key, value, o), now)
  {
    hide Itoa, Spelling, Flatten;
    if !SetRefused(live, key, o, now) {
      if TtlOf(o).Ttl? {
        SimulateTtl(live, i, key, value, o, now, replica, at);
      } else {
        RunOne(Set(key, value, NO_OPTIONS), replica, i, at);
        TracksUpdate(live, now, replica, at, key, Val(Str(value), None), Val(Str(value), None));
      }
    }
  }

  lemma SimulateSetNX(live: Db, i: DbIndex, key: Bytes, value: Bytes, now: int, replica: Db, at: int)
    requires Tracks(live, now, replica, at)
    ensures EchoTracks(live, i, SetNX(key, value), now, replica, at)
  {
    hide Itoa, Spelling, Flatten;
    if !Live(live, key, now) {
      RunOne(Set(key, value, NO_OPTIONS), replica, i, at);
      TracksUpdate(live, now, replica, at, key, Val(Str(value), None), Val(Str(value), None));
    }
  }

  lemma SimulateExpire(live: Db, i: DbIndex, key: Bytes, ttl: int, now: int, replica: Db, at: int)
    requires Tracks(live, now, replica, at) && InInt64(ttl)
    ensures EchoTracks(live, i, Expire(key, ttl), now, replica, at)
  {
    hide Itoa, Spelling, Flatten;
    if key in live {
      var d := Wrap64(WholeSeconds(ttl) * SECOND);
      assert WholeSeconds(d) == WholeSeconds(ttl);
      RunOne(Expire(key, d), replica, i, at);
      TracksUpdate(live, now, replica, at, key, live[key].(deadline := Some(now + ttl)), replica[key].(deadline := Some(at + d)));
    }
  }

  lemma SimulateCount(live: Db, i: DbIndex, key: Bytes, name: Name, delta: int, now: int, replica: Db, at: int)
    requires Tracks(live, now, replica, at)
    ensures var e, e' := RunCount(live, i, key, name, delta), RunCount(replica, i, key, name, delta);
            e.log == e'.log && Tracks(e.db, now, e'.db, at)
  {
    hide Itoa, Spelling, Flatten;
    var e, e' := RunCount(live, i, key, name, delta), RunCount(replica, i, key, name, delta);
    if e.log != [] {
      TracksUpdate(live, now, replica, at, key, e.db[key], e'.db[key]);
    }
  }

  lemma SimulatePush(live: Db, i: DbIndex, key: Bytes, values: seq<Bytes>, left: bool, now: int, replica: Db, at: int)
    requires Tracks(live, now, replica, at)
    ensures var e, e' := RunPush(live, i, key, values, left), RunPush(replica, i, key, values, left);
            e.log == e'.log && Tracks(e.db, now, e'.db, at)
  {
    hide Itoa, Spelling, Flatten;
    var e, e' := RunPush(live, i, key, values, left), RunPush(replica, i, key, values, left);
    if e.log != [] {
      TracksUpdate(live, now, replica, at, key, e.db[key], e'.db[key]);
    }
  }

  lemma SimulatePop(live: Db, i: DbIndex, key: Bytes, count: Option<int>, left: bool, now: int, replica: Db, at: int)
    requires Tracks(live, now, replica, at) && Poppable(live, key, count, now)
    ensures var c := PopCount(count, |live[key].data.items|);
            var e, e' := RunPop(live, i, key, count, left, now), RunPop(replica, i, key, Some(c), left, at);
            e.log == e'.log && Tracks(e.db, now, e'.db, at)
  {
    hide Itoa, Spelling, Flatten;
    assert Live(replica, key, at);
    var c := PopCount(count, |live[key].data.items|);
    var e, e' := RunPop(live, i, key, count, left, now), RunPop(replica, i, key, Some(c), left, at);
    TracksUpdate(live, now, replica, at, key, e.db[key], e'.db[key]);
  }

  lemma SimulateTrim(live: Db, i: DbIndex, key: Bytes, start: int, stop: int, now: int, replica: Db, at: int)
    requires Tracks(live, now, replica, at)
    ensures EchoTracks(live, i, LTrim(key, start, stop), now, replica, at)
  {
    hide Itoa, Spelling, Flatten;
    if Live(live, key, now) && live[key].data.List? {
      assert Live(replica, key, at);
      var w := Window(|live[key].data.items|, start, stop);
      if w.0 <= w.1 {
        RunOne(LTrim(key, w.0, w.1), replica, i, at);
        var e, e' := RunTrim(live, i, key, start, stop, now), RunTrim(replica, i, key, w.0, w.1, at);
        TracksUpdate(live, now, replica, at, key, e.db[key], e'.db[key]);
      } else {
        RunOne(Del(key), replica, i, at);
        TracksRemove(live, now, replica, at, key);
      }
    }
  }

  lemma SimulateRename(live: Db, i: DbIndex, key: Bytes, newKey: Bytes, now: int, replica: Db, at: int)
    requires Tracks(live, now, replica, at)
    ensures EchoTracks(live, i, Rename(key, newKey), now, replica, at)
  {
    hide Itoa, Spelling, Flatten;
    if Live(live, key, now) {
      assert Live(replica, key, at);
      RunOne(Rename(key, newKey), replica, i, at);
      TracksUpdate(live, now, replica, at, newKey, live[key], replica[key]);
      TracksRemove(live[newKey := live[key]], now, replica[newKey := replica[key]], at, key);
    }
  }

  lemma SimulateHSet(live: Db, i: DbIndex, key: Bytes, fields: FieldMap, now: int, replica: Db, at: int)
    requires Tracks(live, now, replica, at) && !MissedBy(live, HSet(key, fields), now, replica, at)
    ensures var e, e' := RunHSet(live, i, key, fields, now), RunHSet(replica, i, key, fields, at);
            e.log == e'.log && Tracks(e.db, now, e'.db, at)
  {
    hide Itoa, Spelling, Flatten;
    assert Live(live, key, now) <==> Live(replica, key, at);
    if !(Live(live, key, now) && !live[key].data.Hash?) {
      var v := if Live(live, key, now) then live[key] else Val(Hash(map[]), None);
      var w := if Live(live, key, now) then replica[key] else Val(Hash(map[]), None);
      var h := Hash(v.data.fields + fields);
      TracksUpdate(live, now, replica, at, key, v.(data := h), w.(data := h));
    }
  }

  lemma SimulateHDel(live: Db, i: DbIndex, key: Bytes, names: seq<Bytes>, now: int, replica: Db, at: int)
    requires Tracks(live, now, replica, at) && Live(live, key, now) && live[key].data.Hash?
    ensures var e, e' := RunHDel(live, i, key, names, now), RunHDel(replica, i, key, names, at);
            e.log == e'.log && Tracks(e.db, now, e'.db, at)
  {
    hide Itoa, Spelling, Flatten;
    assert Live(replica, key, at);
    var rest := WithoutFields(live[key].data.fields, names);
    if rest == map[] {
      TracksRemove(live, now, replica, at, key);
    } else {
      TracksUpdate(live, now, replica, at, key, live[key].(data := Hash(rest)), replica[key].(data := Hash(rest)));
    }
  }

  /** A field deletion that changes nothing and logs nothing leaves the database as it was. */
  lemma SilentHDel(live: Db, i: DbIndex, key: Bytes, names: seq<Bytes>, now: int)
    requires WellFormed(live) && !MeetsExpired(live, HDel(key, names), now)
    requires Echo(live, HDel(key, names), now) == []
    ensures RunHDel(live, i, key, names, now).db == live && RunHDel(live, i, key, names, now).log == []
  {
    hide Itoa, Spelling, Flatten;
    if key in live && live[key].data.Hash? {
      assert live[key := live[key].(data := Hash(live[key].data.fields))] == live;
    }
  }

  lemma SimulateListStep(live: Db, i: DbIndex, op: KeyOp, now: int, replica: Db, at: int)
    requires op.LPush? || op.RPush? || op.LPop? || op.RPop?
    requires Tracks(live, now, replica, at)
    ensures EchoTracks(live, i, op, now, replica, at)
  {
    hide Itoa, Spelling, Flatten;
    match op
    case LPush(key, values) =>
      RunOne(op, replica, i, at);
      SimulatePush(live, i, key, values, true, now, replica, at);
    case RPush(key, values) =>
      RunOne(op, replica, i, at);
      SimulatePush(live, i, key, values, false, now, replica, at);
    case LPop(key, count) =>
      LogOfPop(live, i, key, count, true, now);
      if Poppable(live, key, count, now) {
        RunOne(LPop(key, Some(PopCount(count, |live[key].data.items|))), replica, i, at);
        SimulatePop(live, i, key, count, true, now, replica, at);
      }
    case RPop(key, count) =>
      LogOfPop(live, i, key, count, false, now);
      if Poppable(live, key, count, now) {
        RunOne(RPop(key, Some(PopCount(count, |live[key].data.items|))), replica, i, at);
        SimulatePop(live, i, key, count, false, now, replica, at);
      }
  }

  lemma SimulateHSetStep(live: Db, i: DbIndex, key: Bytes, fields: FieldMap, now: int, replica: Db, at: int)
    requires Tracks(live, now, replica, at) && !MissedBy(live, HSet(key, fields), now, replica, at)
    ensures EchoTracks(live, i, HSet(key, fields), now, replica, at)
  {
    hide Entry, Flatten, Tracks, Similar, NoEarlyExpiry, RunAll;
    var op := HSet(key, fields);
    SimulateHSet(live, i, key, fields, now, replica, at);
    RunOne(op, replica, i, at);
    RunNothing(replica, i, at);
    TracksParts(RunHSet(live, i, key, fields, now).db, now, RunHSet(replica, i, key, fields, at).db, at);
  }

  lemma SimulateHDelStep(live: Db, i: DbIndex, key: Bytes, names: seq<Bytes>, now: int, replica: Db, at: int)
    requires Tracks(live, now, replica, at) && WellFormed(live) && !MissedBy(live, HDel(key, names), now, replica, at)
    ensures EchoTracks(live, i, HDel(key, names), now, replica, at)
  {
    hide Entry, WithoutFields, Tracks, Similar, NoEarlyExpiry, RunAll, RunHDel, WellFormed;
    var op := HDel(key, names);
    RunOne(op, replica, i, at);
    RunNothing(replica, i, at);
    if Echo(live, op, now) == [] {
      SilentHDel(live, i, key, names, now);
      TracksParts(live, now, replica, at);
    } else {
      SimulateHDel(live, i, key, names, now, replica, at);
      TracksParts(RunHDel(live, i, key, names, now).db, now, RunHDel(replica, i, key, names, at).db, at);
    }
  }

  lemma TracksParts(live: Db, now: int, replica: Db, at: int)
    requires Tracks(live, now, replica, at)
    ensures Similar(live, replica) && NoEarlyExpiry(live, now, replica, at)
  {
  }

  lemma SimulateHashStep(live: Db, i: DbIndex, op: KeyOp, now: int, replica: Db, at: int)
    requires op.HSet? || op.HDel?
    requires Tracks(live, now, replica, at) && WellFormed(live) && !MissedBy(live, op, now, replica, at)
    ensures EchoTracks(live, i, op, now, replica, at)
  {
    hide EchoTracks, Tracks, WellFormed, MissedBy;
    match op
    case HSet(key, fields) => SimulateHSetStep(live, i, key, fields, now, replica, at);
    case HDel(key, names) => SimulateHDelStep(live, i, key, names, now, replica, at);
  }

  /** One operation of the simulation that is not a SET, whatever it is. */
  lemma SimulateOther(live: Db, i: DbIndex, op: KeyOp, now: int, replica: Db, at: int)
    requires Tracks(live, now, replica, at) && WellFormed(live) && ValidOp(op) && !op.Set?
    requires !MissedBy(live, op, now, replica, at)
    ensures EchoTracks(live, i, op, now, replica, at)
  {
    hide Itoa, Spelling, Flatten;
    match op
    case SetNX(key, value) => SimulateSetNX(live, i, key, value, now, replica, at);
    case Del(key) =>
      RunOne(op, replica, i, at);
      TracksRemove(live, now, replica, at, key);
    case Expire(key, ttl) => SimulateExpire(live, i, key, ttl, now, replica, at);
    case Incr(key) =>
      RunOne(op, replica, i, at);
      SimulateCount(live, i, key, INCR, 1, now, replica, at);
    case Decr(key) =>
      RunOne(op, replica, i, at);
      SimulateCount(live, i, key, DECR, -1, now, replica, at);
    case LTrim(key, start, stop) => SimulateTrim(live, i, key, start, stop, now, replica, at);
    case Rename(key, newKey) => SimulateRename(live, i, key, newKey, now, replica, at);
    case FlushDb => RunOne(op, replica, i, at);
    case HSet(_, _) => SimulateHashStep(live, i, op, now, replica, at);
    case HDel(_, _) => SimulateHashStep(live, i, op, now, replica, at);
    case _ => SimulateListStep(live, i, op, now, replica, at);
  }

  /** One operation of the simulation: the replica has the data, and it stays in step unless a SET is backdated. */
  lemma SimulateStep(live: Db, i: DbIndex, op: KeyOp, now: int, replica: Db, at: int)
    requires Tracks(live, now, replica, at) && WellFormed(live) && ValidOp(op) && !MissedBy(live, op, now, replica, at)
    ensures EchoSimilar(live, i, op, now, replica, at)
    ensures EchoTracks(live, i, op, now, replica, at) <==> !SetsBackdated(live, op, now)
  {
    hide EchoSimilar, Tracks, WellFormed, MissedBy, Backdates;
    if op.Set? {
      SimulateSet(live, i, op.key, op.value, op.options, now, replica, at);
    } else {
      SimulateOther(live, i, op, now, replica, at);
    }
  }

  /** A hash command on an expired value drops it silently; the replica, which misses that, keeps it. */
  lemma BlindSpot(live: Db, i: DbIndex, op: KeyOp, now: int, replica: Db, at: int)
    requires Similar(live, replica) && MissedBy(live, op, now, replica, at)
    ensures !Similar(Run(live, i, op, now).db, RunAll(Echo(live, op, now), replica, i, at).0)
  {
    hide Itoa, Spelling, Flatten;
    var key := op.key;
    if op.HDel? {
      assert key in replica && key !in Run(live, i, op, now).db;
    } else {
      RunOne(op, replica, i, at);
      assert Run(live, i, op, now).db[key].deadline == None;
      assert replica[key].deadline.Some?;
    }
  }

  /** Given a replica in step, one more operation has its data restored exactly when the replica does not miss an expired hash. */
  lemma StepExactly(live: Db, i: DbIndex, op: KeyOp, now: int, replica: Db, at: int)
    requires Tracks(live, now, replica, at) && WellFormed(live) && ValidOp(op)
    ensures var r := RunAll(Echo(live, op, now), replica, i, at).0;
            && (Similar(Run(live, i, op, now).db, r) <==> !MissedBy(live, op, now, replica, at))
            && (Tracks(Run(live, i, op, now).db, now, r, at) <==>
                !MissedBy(live, op, now, replica, at) && !SetsBackdated(live, op, now))
  {
    hide Run, Echo, RunAll, MissedBy, SetsBackdated, WellFormed;
    if MissedBy(live, op, now, replica, at) {
      BlindSpot(live, i, op, now, replica, at);
    } else {
      SimulateStep(live, i, op, now, replica, at);
    }
  }
}
