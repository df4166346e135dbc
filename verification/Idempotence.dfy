/**
 Replaying twice. A log of overwriting commands leaves the same store whether it
 is replayed once or twice; counters, list pushes and EXPIRE break this.
 */
module Idempotence {
  import opened Base
  import opened Decimal
  import opened Fields
  import opened Entries
  import opened Keyspace
  import opened Replay
  import opened Simulation
  import opened Recovery

  /** SET, DEL, HSET, HDEL, FLUSHDB and FLUSHALL entries; an unknown name is skipped by the replay. */
  predicate Overwrites(entry: Command) {
    entry != [] ==> ParseName(entry[0]) in {None, Some(SET), Some(DEL), Some(HSET), Some(HDEL), Some(FLUSHDB), Some(FLUSHALL)}
  }

  /** What a key holds; a missing key is a hash without fields. */
  datatype Slot = Other(data: Data) | Fields(fields: FieldMap)

  const NOTHING: Slot := Slot.Fields(map[])

  function SlotOf(db: Db, key: Bytes): Slot {
    if key !in db then NOTHING
    else if db[key].data.Hash? then Slot.Fields(db[key].data.fields)
    else Other(db[key].data)
  }

  /** No key expires and no hash is empty. */
  ghost predicate PlainDb(db: Db) {
    NoEmptyHash(db) && forall k :: k in db ==> db[k].deadline == None
  }

  ghost predicate PlainState(s: State) {
    forall i: DbIndex :: PlainDb(s[i])
  }

  lemma SlotsDetermine(a: Db, b: Db)
    requires PlainDb(a) && PlainDb(b) && forall k :: SlotOf(a, k) == SlotOf(b, k)
    ensures a == b
  {
    forall k
      ensures k in a <==> k in b
      ensures k in a ==> k in b && a[k] == b[k]
    {
      assert SlotOf(a, k) == SlotOf(b, k);
    }
    assert a.Keys == b.Keys;
  }

  // ----- What a list of commands does to one key -----

  /** Either a fixed outcome, or a set of fields to write (Some) and to delete (None) if the key holds a hash. */
  datatype Fate = Fixed(slot: Slot) | Patch(edits: map<Bytes, Option<Bytes>>)

  function Edited(h: FieldMap, edits: map<Bytes, Option<Bytes>>): FieldMap {
    map f | f in h.Keys + edits.Keys && (f in edits ==> edits[f].Some?) :: if f in edits then edits[f].value else h[f]
  }

  function Act(f: Fate, x: Slot): Slot {
    match f
    case Fixed(slot) => slot
    case Patch(edits) => if x.Fields? then Slot.Fields(Edited(x.fields, edits)) else x
  }

  /** First f, then g. */
  function Then(f: Fate, g: Fate): Fate {
    match g
    case Fixed(_) => g
    case Patch(edits) =>
      match f
      case Fixed(slot) => Fixed(Act(g, slot))
      case Patch(earlier) => Patch(earlier + edits)
  }

  lemma ActThen(f: Fate, g: Fate, x: Slot)
    ensures Act(Then(f, g), x) == Act(g, Act(f, x))
  {
    if f.Patch? && g.Patch? && x.Fields? {
      assert Edited(x.fields, f.edits + g.edits) == Edited(Edited(x.fields, f.edits), g.edits);
    }
  }

  /** Every fate is idempotent. */
  lemma ActTwice(f: Fate, x: Slot)
    ensures Act(f, Act(f, x)) == Act(f, x)
  {
    if f.Patch? && x.Fields? {
      assert Edited(Edited(x.fields, f.edits), f.edits) == Edited(x.fields, f.edits);
    }
  }

  const UNTOUCHED: Fate := Patch(map[])

  function FateOf(op: KeyOp, key: Bytes): Fate {
    match op
    case FlushDb => Fixed(NOTHING)
    case Set(k, v, _) => if k == key then Fixed(Other(Str(v))) else UNTOUCHED
    case Del(k) => if k == key then Fixed(NOTHING) else UNTOUCHED
    case HSet(k, fields) => if k == key then Patch(map f | f in fields :: Some(fields[f])) else UNTOUCHED
    case HDel(k, names) => if k == key then Patch(map f | f in names :: None) else UNTOUCHED
    case _ => UNTOUCHED
  }

  function EntryFate(entry: Command, i: DbIndex, key: Bytes): Fate {
    match Decode(entry)
    case Ignore => UNTOUCHED
    case Everything => Fixed(NOTHING)
    case Perform(j, op) => if j == i then FateOf(op, key) else UNTOUCHED
  }

  function LogFate(log: seq<Command>, i: DbIndex, key: Bytes): Fate {
    if log == [] then UNTOUCHED else Then(EntryFate(log[0], i, key), LogFate(log[1..], i, key))
  }

  lemma ActUntouched(x: Slot)
    ensures Act(UNTOUCHED, x) == x
  {
    if x.Fields? {
      assert Edited(x.fields, map[]) == x.fields;
    }
  }

  // ----- One command -----

  predicate OverwriteOp(op: KeyOp) {
    (op.Set? && op.options == NO_OPTIONS) || op.Del? || (op.HSet? && op.fields != map[]) || op.HDel? || op.FlushDb?
  }

  lemma OverwritesDecode(entry: Command)
    requires Overwrites(entry)
    ensures Decode(entry).Perform? ==> OverwriteOp(Decode(entry).op)
  {
    hide Spelling, Atoi;
    if entry != [] && |entry| >= 5 {
      assert |entry[2..][1..]| >= 2 ==> entry[2..][1..][0] in ReadPairs(entry[2..][1..]);
    }
  }

  lemma EditsWrite(h: FieldMap, fields: FieldMap)
    ensures Edited(h, map f | f in fields :: Some(fields[f])) == h + fields
  {
  }

  lemma EditsDrop(h: FieldMap, names: seq<Bytes>)
    ensures Edited(h, map f | f in names :: None) == WithoutFields(h, names)
  {
  }

  lemma PlainHSet(db: Db, i: DbIndex, k: Bytes, fields: FieldMap, now: int)
    requires PlainDb(db)
    ensures RunHSet(db, i, k, fields, now).db ==
            if k in db && !db[k].data.Hash? then db else db[k := Val(Hash(FieldsAt(db, k) + fields), None)]
  {
    hide Spelling, Itoa, Flatten;
  }

  lemma PlainHDel(db: Db, i: DbIndex, k: Bytes, names: seq<Bytes>, now: int)
    requires PlainDb(db)
    ensures RunHDel(db, i, k, names, now).db ==
            if k !in db || !db[k].data.Hash? then db
            else if WithoutFields(FieldsAt(db, k), names) == map[] then db - {k}
            else db[k := Val(Hash(WithoutFields(FieldsAt(db, k), names)), None)]
  {
    hide Spelling, Itoa, WithoutFields;
  }

  lemma HSetFate(db: Db, i: DbIndex, k: Bytes, fields: FieldMap, now: int, key: Bytes)
    requires PlainDb(db)
    ensures SlotOf(RunHSet(db, i, k, fields, now).db, key) == Act(FateOf(HSet(k, fields), key), SlotOf(db, key))
  {
    hide RunHSet, Edited;
    PlainHSet(db, i, k, fields, now);
    EditsWrite(FieldsAt(db, k), fields);
    ActUntouched(SlotOf(db, key));
  }

  lemma HDelFate(db: Db, i: DbIndex, k: Bytes, names: seq<Bytes>, now: int, key: Bytes)
    requires PlainDb(db)
    ensures SlotOf(RunHDel(db, i, k, names, now).db, key) == Act(FateOf(HDel(k, names), key), SlotOf(db, key))
  {
    hide RunHDel, Edited, WithoutFields;
    PlainHDel(db, i, k, names, now);
    EditsDrop(FieldsAt(db, k), names);
    NothingToDrop(names);
    ActUntouched(SlotOf(db, key));
  }

  lemma NothingToDrop(names: seq<Bytes>)
    ensures WithoutFields(map[], names) == map[]
  {
  }

  lemma OpFate(db: Db, i: DbIndex, op: KeyOp, now: int, key: Bytes)
    requires PlainDb(db) && OverwriteOp(op)
    ensures SlotOf(Run(db, i, op, now).db, key) == Act(FateOf(op, key), SlotOf(db, key))
  {
    hide Spelling, Itoa, RunHSet, RunHDel;
    match op
    case HSet(k, fields) => HSetFate(db, i, k, fields, now, key);
    case HDel(k, names) => HDelFate(db, i, k, names, now, key);
    case _ => ActUntouched(SlotOf(db, key));
  }

  lemma OpStaysPlain(db: Db, i: DbIndex, op: KeyOp, now: int)
    requires PlainDb(db) && OverwriteOp(op)
    ensures PlainDb(Run(db, i, op, now).db)
  {
    hide Entry, WithoutFields, NoEmptyHash, RunHSet, RunHDel, TtlOf;
    RunKeepsHashes(db, i, op, now);
    match op
    case HSet(k, fields) => PlainHSet(db, i, k, fields, now);
    case HDel(k, names) => PlainHDel(db, i, k, names, now);
    case Set(_, _, _) => NoTtlAsked();
    case _ =>
  }

  lemma NoTtlAsked()
    ensures TtlOf(NO_OPTIONS) == NoTtl
  {
  }

  lemma EmptyIsPlain()
    ensures PlainState(EMPTY) && forall i: DbIndex, key :: SlotOf(EMPTY[i], key) == NOTHING
  {
    forall i: DbIndex { EmptyAt(i); }
  }

  lemma StepFate(entry: Command, s: State, now: int, i: DbIndex, key: Bytes)
    requires PlainState(s) && Overwrites(entry) && Dispatch(entry, s, now).Ran?
    ensures var s' := Dispatch(entry, s, now).state;
            PlainState(s') && SlotOf(s'[i], key) == Act(EntryFate(entry, i, key), SlotOf(s[i], key))
  {
    hide Decode, Run, SlotOf, Overwrites, FateOf, Act;
    OverwritesDecode(entry);
    ActUntouched(SlotOf(s[i], key));
    match Decode(entry)
    case Ignore =>
    case Everything =>
      EmptyIsPlain();
      FixedActs(NOTHING, SlotOf(s[i], key));
    case Perform(j, op) =>
      OpFate(s[j], j, op, now, key);
      OpStaysPlain(s[j], j, op, now);
  }

  lemma FixedActs(slot: Slot, x: Slot)
    ensures Act(Fixed(slot), x) == slot
  {
  }

  // ----- A whole log -----

  predicate OverwriteLog(log: seq<Command>) {
    forall e :: e in log ==> Overwrites(e)
  }

  lemma {:induction false} ReplayFate(log: seq<Command>, s: State, now: int, i: DbIndex, key: Bytes)
    requires PlainState(s) && OverwriteLog(log) && ReplayAll(log, s, now).Ran?
    ensures var s' := ReplayAll(log, s, now).state;
            PlainState(s') && SlotOf(s'[i], key) == Act(LogFate(log, i, key), SlotOf(s[i], key))
  {
    hide Dispatch, SlotOf, EntryFate, Act, Then, Overwrites;
    if log == [] {
      ActUntouched(SlotOf(s[i], key));
    } else {
      StepFate(log[0], s, now, i, key);
      ReplayFate(log[1..], Dispatch(log[0], s, now).state, now, i, key);
      ActThen(EntryFate(log[0], i, key), LogFate(log[1..], i, key), SlotOf(s[i], key));
    }
  }

  /** Whether a replay panics does not depend on the store it runs on. */
  lemma {:induction false} PanicsAlike(log: seq<Command>, s: State, r: State, now: int)
    ensures ReplayAll(log, s, now).Ran? <==> ReplayAll(log, r, now).Ran?
  {
    if log != [] {
      PanicStep(log[0], s, r, now);
      if Dispatch(log[0], s, now).Ran? {
        hide Dispatch;
        PanicsAlike(log[1..], Dispatch(log[0], s, now).state, Dispatch(log[0], r, now).state, now);
      }
    }
  }

  lemma PanicStep(entry: Command, s: State, r: State, now: int)
    ensures Dispatch(entry, s, now).Ran? <==> Dispatch(entry, r, now).Ran?
  {
    hide Decode, Run;
  }

  /** Replaying an overwriting log twice leaves the store that replaying it once leaves. */
  lemma TwiceIsOnce(log: seq<Command>, s: State, now: int)
    requires PlainState(s) && OverwriteLog(log) && ReplayAll(log, s, now).Ran?
    ensures var once, twice := ReplayAll(log, s, now), ReplayAll(log + log, s, now);
            twice.Ran? && twice.state == once.state
  {
    hide ReplayAll, Act, SlotOf, LogFate, OverwriteLog, PlainDb;
    var once := ReplayAll(log, s, now).state;
    EmptyKey(log, s, now);
    PanicsAlike(log, s, once, now);
    ReplayAppend(log, log, s, now);
    var twice := ReplayAll(log, once, now).state;
    forall i: DbIndex
      ensures once[i] == twice[i]
    {
      forall key
        ensures SlotOf(once[i], key) == SlotOf(twice[i], key)
      {
        ReplayFate(log, s, now, i, key);
        ReplayFate(log, once, now, i, key);
        ActTwice(LogFate(log, i, key), SlotOf(s[i], key));
      }
      ReplayFate(log, once, now, i, []);
      SlotsDetermine(once[i], twice[i]);
    }
    assert once == twice;
  }

  lemma EmptyKey(log: seq<Command>, s: State, now: int)
    requires PlainState(s) && OverwriteLog(log) && ReplayAll(log, s, now).Ran?
    ensures PlainState(ReplayAll(log, s, now).state)
  {
    ReplayFate(log, s, now, 0, []);
  }

  /** Replaying the doubled log of a run with such a log restores the data of the run. */
  lemma DoubledLogRestores(run: seq<Timed>, at: int)
    requires GoodRun(run) && OverwriteLog(Logged(run))
    ensures var out := ReplayAll(Logged(run) + Logged(run), EMPTY, at);
            out.Ran? && SimilarAll(Final(run), out.state)
  {
    hide ReplayAll, Logged, Final, GoodRun, OverwriteLog;
    LogRestoresData(run, at);
    EmptyIsPlain();
    TwiceIsOnce(Logged(run), EMPTY, at);
  }

  // ----- Outside the fragment -----

  lemma ReplayPair(a: Command, b: Command, i: DbIndex, op: KeyOp, op': KeyOp, s: State, at: int)
    requires DecodesTo(a, i, op) && DecodesTo(b, i, op')
    ensures var db := Run(Run(s[i], i, op, at).db, i, op', at).db;
            ReplayAll([a] + [b], s, at).Ran? && ReplayAll([a] + [b], s, at).state[i] == db
  {
    hide Run, Decode, DecodesTo, ReplayAll;
    var log, ops := [a, b], [op, op'];
    assert [a] + [b] == log;
    RunTwo(op, op', s[i], i, at);
    ReplayDecoded(log, ops, i, s, at);
  }

  lemma ReplaySingle(a: Command, i: DbIndex, op: KeyOp, s: State, at: int)
    requires DecodesTo(a, i, op)
    ensures ReplayAll([a], s, at).Ran? && ReplayAll([a], s, at).state[i] == Run(s[i], i, op, at).db
  {
    hide Run, Decode, DecodesTo, ReplayAll;
    RunOne(op, s[i], i, at);
    ReplayDecoded([a], [op], i, s, at);
  }

  /** A single RPUSH replayed twice pushes twice. */
  lemma PushTwiceDiffers(i: DbIndex, key: Bytes, value: Bytes, at: int)
    ensures var log := [Entry(RPUSH, i, [key] + [value])];
            ReplayAll(log, EMPTY, at).Ran? && ReplayAll(log + log, EMPTY, at).Ran?
            && ReplayAll(log, EMPTY, at).state[i] == map[key := Val(List([value]), None)]
            && ReplayAll(log + log, EMPTY, at).state[i] == map[key := Val(List([value, value]), None)]
  {
    hide ReplayAll, DecodesTo, Itoa, Spelling;
    var op, entry := RPush(key, [value]), Entry(RPUSH, i, [key] + [value]);
    EmptyAt(i);
    DecodeTail(RPUSH, i, key, [value], op);
    ReplaySingle(entry, i, op, EMPTY, at);
    ReplayPair(entry, entry, i, op, op, EMPTY, at);
    assert [value] + [value] == [value, value];
  }

  /** A single INCR replayed twice counts twice. */
  lemma IncrTwiceDiffers(i: DbIndex, key: Bytes, at: int)
    ensures var log := [Entry(INCR, i, [key])];
            ReplayAll(log, EMPTY, at).Ran? && ReplayAll(log + log, EMPTY, at).Ran?
            && ReplayAll(log, EMPTY, at).state[i] == map[key := Val(Str(Itoa(1)), None)]
            && ReplayAll(log + log, EMPTY, at).state[i] == map[key := Val(Str(Itoa(2)), None)]
  {
    hide ReplayAll, DecodesTo, Itoa, Spelling, Atoi;
    var op, entry := Incr(key), Entry(INCR, i, [key]);
    EmptyAt(i);
    DecodeHandled(INCR, i, [key], op);
    ReplaySingle(entry, i, op, EMPTY, at);
    ReplayPair(entry, entry, i, op, op, EMPTY, at);
    AtoiItoa(0);
    AtoiItoa(1);
    ZeroText();
  }

  lemma ZeroText()
    ensures Itoa(0) == [Digit(0)]
  {
  }

  /** The entries of HSET k f; EXPIRE k; HDEL k f; HSET k g. */
  function RefillLog(i: DbIndex, key: Bytes, f: FieldMap, g: FieldMap, seconds: nat): seq<Command> {
    [Entry(HSET, i, [key] + Flatten(f)), Entry(EXPIRE, i, [key, Itoa(seconds)]),
     Entry(HDEL, i, [key] + Sorted(f.Keys)), Entry(HSET, i, [key] + Flatten(g))]
  }

  lemma RefillDecodes(i: DbIndex, key: Bytes, f: FieldMap, g: FieldMap, seconds: nat)
    requires f != map[] && g != map[] && seconds <= MAX_SECONDS
    ensures AllDecode(RefillLog(i, key, f, g, seconds), i,
                      [HSet(key, f), Expire(key, seconds * SECOND), HDel(key, Sorted(f.Keys)), HSet(key, g)])
  {
    hide DecodesTo, Entry, Flatten, Itoa, Sorted;
    DecodeHSet(i, key, f);
    DecodeExpire(i, key, seconds);
    assert Sorted(f.Keys) != [] by { NamesOfSome(f); }
    DecodeTail(HDEL, i, key, Sorted(f.Keys), HDel(key, Sorted(f.Keys)));
    DecodeHSet(i, key, g);
  }

  lemma NamesOfSome(f: FieldMap)
    requires f != map[]
    ensures Sorted(f.Keys) != []
  {
    var k :| k in f;
    assert k in Sorted(f.Keys);
  }

  /** HSET k f; EXPIRE k; HDEL k f; HSET k g: the second pass finds g, so that k keeps a deadline it did not have. */
  lemma ExpireTwiceDiffers(i: DbIndex, key: Bytes, f: FieldMap, g: FieldMap, seconds: nat, at: int)
    requires f != map[] && g != map[] && f.Keys !! g.Keys && seconds <= MAX_SECONDS
    ensures var log := RefillLog(i, key, f, g, seconds);
            && ReplayAll(log, EMPTY, at).Ran? && ReplayAll(log + log, EMPTY, at).Ran?
            && ReplayAll(log, EMPTY, at).state[i] == map[key := Val(Hash(g), None)]
            && ReplayAll(log + log, EMPTY, at).state[i] == map[key := Val(Hash(g), Some(at + seconds * SECOND))]
  {
    hide ReplayAll, RunAll, AllDecode, RefillLog;
    var log, names, ttl := RefillLog(i, key, f, g, seconds), Sorted(f.Keys), seconds * SECOND;
    var ops := [HSet(key, f), Expire(key, ttl), HDel(key, names), HSet(key, g)];
    EmptyAt(i);
    RefillDecodes(i, key, f, g, seconds);
    FourPasses(EMPTY[i], i, key, f, g, names, ttl, at);
    ReplayDecoded(log, ops, i, EMPTY, at);
    var once := ReplayAll(log, EMPTY, at).state;
    FourPasses(once[i], i, key, f, g, names, ttl, at);
    ReplayDecoded(log, ops, i, once, at);
    ReplayAppend(log, log, EMPTY, at);
  }

  lemma FourPasses(db: Db, i: DbIndex, key: Bytes, f: FieldMap, g: FieldMap, names: seq<Bytes>, ttl: int, at: int)
    requires f != map[] && g != map[] && f.Keys !! g.Keys && 0 <= ttl && forall k :: k in names <==> k in f.Keys
    requires db == map[] || db == map[key := Val(Hash(g), None)]
    ensures RunAll([HSet(key, f), Expire(key, ttl), HDel(key, names), HSet(key, g)], db, i, at).0 ==
            map[key := Val(Hash(g), if db == map[] then None else Some(at + ttl))]
  {
    hide RunHSet, RunHDel, RunExpire, RunAll;
    var prior: FieldMap := if db == map[] then map[] else g;
    var d1: Db := map[key := Val(Hash(prior + f), None)];
    var d2: Db := map[key := Val(Hash(prior + f), Some(at + ttl))];
    var d3: Db := if prior == map[] then map[] else map[key := Val(Hash(prior), Some(at + ttl))];
    PassOne(db, i, key, f, prior, at);
    PassTwo(d1, i, key, prior + f, ttl, at);
    PassThree(d2, i, key, f, prior, names, at + ttl, at);
    PassFour(d3, i, key, g, prior, at + ttl, at);
    RunFour(HSet(key, f), Expire(key, ttl), HDel(key, names), HSet(key, g), db, i, at);
  }

  lemma RunFour(a: KeyOp, b: KeyOp, c: KeyOp, d: KeyOp, db: Db, i: DbIndex, at: int)
    ensures RunAll([a, b, c, d], db, i, at).0 ==
            Run(Run(Run(Run(db, i, a, at).db, i, b, at).db, i, c, at).db, i, d, at).db
  {
    hide Run;
    var d2 := Run(Run(db, i, a, at).db, i, b, at).db;
    RunTwo(c, d, d2, i, at);
    assert [a, b, c, d][1..] == [b, c, d] && [b, c, d][1..] == [c, d];
  }

  lemma PassOne(db: Db, i: DbIndex, key: Bytes, f: FieldMap, prior: FieldMap, at: int)
    requires if prior == map[] then db == map[] else db == map[key := Val(Hash(prior), None)]
    ensures RunHSet(db, i, key, f, at).db == map[key := Val(Hash(prior + f), None)]
  {
    hide Itoa, Spelling, Flatten;
  }

  lemma PassTwo(db: Db, i: DbIndex, key: Bytes, h: FieldMap, ttl: int, at: int)
    requires db == map[key := Val(Hash(h), None)]
    ensures RunExpire(db, i, key, ttl, at).db == map[key := Val(Hash(h), Some(at + ttl))]
  {
    hide Itoa, Spelling;
  }

  lemma PassThree(db: Db, i: DbIndex, key: Bytes, f: FieldMap, prior: FieldMap, names: seq<Bytes>, due: int, at: int)
    requires db == map[key := Val(Hash(prior + f), Some(due))] && due >= at
    requires f.Keys !! prior.Keys && forall k :: k in names <==> k in f.Keys
    ensures RunHDel(db, i, key, names, at).db ==
            if prior == map[] then map[] else map[key := Val(Hash(prior), Some(due))]
  {
    hide Entry, WithoutFields;
    OnlyPriorLeft(f, prior, names);
    assert (prior + f).Keys >= f.Keys;
  }

  lemma OnlyPriorLeft(f: FieldMap, prior: FieldMap, names: seq<Bytes>)
    requires f.Keys !! prior.Keys && forall k :: k in names <==> k in f.Keys
    ensures WithoutFields(prior + f, names) == prior
  {
  }

  lemma PassFour(db: Db, i: DbIndex, key: Bytes, g: FieldMap, prior: FieldMap, due: int, at: int)
    requires prior == map[] || prior == g
    requires due >= at && db == if prior == map[] then map[] else map[key := Val(Hash(prior), Some(due))]
    ensures RunHSet(db, i, key, g, at).db == map[key := Val(Hash(g), if prior == map[] then None else Some(due))]
  {
    hide Entry, Flatten;
    var v := Val(Hash(prior), if prior == map[] then None else Some(due));
    assert prior + g == g;
    assert RunHSet(db, i, key, g, at).db == db[key := v.(data := Hash(prior + g))];
  }
}
