/** The log writer and the replay, over the in-memory store and the byte stream. */
module AofFile {
  import opened Base
  import opened Decimal
  import opened Fields
  import opened Entries
  import opened Keyspace
  import opened Replay
  import opened Resp
  import opened RespCodec
  import opened LogFile
  import opened StoreHeap

  // ----- Writing -----

  /** AOFWriter: each entry taken from the channel is encoded and flushed. */
  method WriteEntries(w: Writer, entries: seq<Command>)
    modifies w
    ensures w.out == old(w.out) + EncodeLog(entries)
  {
    hide Encode, ToResp;
    for n := 0 to |entries|
      invariant w.out == old(w.out) + EncodeLog(entries[..n])
    {
      assert entries[..n + 1] == entries[..n] + [entries[n]];
      EncodeLogAppend(entries[..n], [entries[n]]);
      assert [entries[n]][1..] == [];
      w.Write(ToResp(entries[n]));
    }
    assert entries[..|entries|] == entries;
  }

  // ----- Replaying one entry -----

  /** The values of a push, in an array of their own. */
  method FreshArray(values: seq<Bytes>) returns (a: array<Bytes>)
    ensures fresh(a) && a[..] == values
  {
    a := new Bytes[|values|];
    for n := 0 to |values|
      invariant a[..n] == values[..n]
    {
      a[n] := values[n];
    }
  }

  /** aofHSet's loop: fields[parts[j]] = parts[j+1] for every other j. */
  method CollectFields(parts: seq<Bytes>) returns (fields: FieldMap)
    requires |parts| % 2 == 0
    ensures fields == ReadPairs(parts)
  {
    fields := map[];
    var j := 0;
    assert fields + ReadPairs(parts) == ReadPairs(parts) && parts[0..] == parts;
    while j < |parts|
      invariant 0 <= j <= |parts| && j % 2 == 0
      invariant fields + ReadPairs(parts[j..]) == ReadPairs(parts)
    {
      PairStep(fields, parts, j);
      fields := fields[parts[j] := parts[j + 1]];
      j := j + 2;
    }
    assert ReadPairs(parts[j..]) == map[] && fields + map[] == fields;
  }

  lemma PairStep(fields: FieldMap, parts: seq<Bytes>, j: nat)
    requires j + 1 < |parts|
    ensures fields + ReadPairs(parts[j..]) == fields[parts[j] := parts[j + 1]] + ReadPairs(parts[j + 2..])
  {
    assert parts[j..][2..] == parts[j + 2..];
  }

  /** The handler of one entry: its arity test, its conversions, and what it then calls. */
  method HandleEntry(n: Name, args: seq<Bytes>) returns (op: Option<KeyOp>)
    ensures op == Handle(n, args)
  {
    hide ReadPairs, Atoi, AtoiUnchecked, Wrap64;
    op := None;
    match n
    case SET => if |args| == 2 { op := Some(KeyOp.Set(args[0], args[1], NO_OPTIONS)); }
    case SETNX => if |args| == 2 { op := Some(KeyOp.SetNX(args[0], args[1])); }
    case DEL => if |args| == 1 { op := Some(KeyOp.Del(args[0])); }
    case EXPIRE =>
      if |args| == 2 {
        var ttl := Atoi(args[1]);
        if ttl.Some? {
          op := Some(KeyOp.Expire(args[0], Wrap64(ttl.value * SECOND)));
        }
      }
    case INCR => if |args| == 1 { op := Some(KeyOp.Incr(args[0])); }
    case DECR => if |args| == 1 { op := Some(KeyOp.Decr(args[0])); }
    case LPUSH => if |args| >= 2 { op := Some(KeyOp.LPush(args[0], args[1..])); }
    case RPUSH => if |args| >= 2 { op := Some(KeyOp.RPush(args[0], args[1..])); }
    case LPOP =>
      if |args| == 2 {
        var count := Atoi(args[1]);
        if count.Some? {
          op := Some(KeyOp.LPop(args[0], count));
        }
      }
    case RPOP =>
      if |args| == 2 {
        var count := Atoi(args[1]);
        if count.Some? {
          op := Some(KeyOp.RPop(args[0], count));
        }
      }
    case LTRIM =>
      if |args| == 3 {
        var start, stop := AtoiUnchecked(args[1]), AtoiUnchecked(args[2]);
        op := Some(KeyOp.LTrim(args[0], start, stop));
      }
    case RENAME => if |args| == 2 { op := Some(KeyOp.Rename(args[0], args[1])); }
    case FLUSHDB => if |args| == 0 { op := Some(KeyOp.FlushDb); }
    case FLUSHALL =>
    case HSET =>
      if |args| >= 3 && |args| % 2 == 1 {
        var fields := CollectFields(args[1..]);
        op := Some(KeyOp.HSet(args[0], fields));
      }
    case HDEL => if |args| >= 2 { op := Some(KeyOp.HDel(args[0], args[1..])); }
  }

  /** Carrying out a decoded operation on the store. */
  method PerformString(s: Store, i: DbIndex, op: KeyOp, now: int)
    requires s.Valid()
    requires op.Set? || op.SetNX? || op.Incr? || op.Decr?
    modifies s.Repr
    ensures s.Valid() && fresh(s.Repr - old(s.Repr))
    ensures s.model == After(old(s.model), On(i, op), now) && s.aof == old(s.aof) + LogOf(old(s.model), On(i, op), now)
  {
    hide After, LogOf, ReplyTo;
    match op
    case Set(key, value, o) => var ok := s.Set(i, key, value, o, now);
    case SetNX(key, value) => var n := s.SetNX(i, key, value, now);
    case Incr(key) =>
      var reply := s.Count(i, key, true);
      CountIgnoresTime(old(s.model), i, op, 0, now);
    case Decr(key) =>
      var reply := s.Count(i, key, false);
      CountIgnoresTime(old(s.model), i, op, 0, now);
  }

  lemma CountIgnoresTime(st: State, i: DbIndex, op: KeyOp, t: int, now: int)
    requires op.Incr? || op.Decr? || op.LPush? || op.RPush? || op.Del? || op.FlushDb?
    ensures After(st, On(i, op), t) == After(st, On(i, op), now)
    ensures LogOf(st, On(i, op), t) == LogOf(st, On(i, op), now)
  {
    hide RunCount, RunPush, RunDel;
  }

  method PerformList(s: Store, i: DbIndex, op: KeyOp, now: int)
    requires s.Valid()
    requires op.LPush? || op.RPush? || op.LPop? || op.RPop? || op.LTrim?
    modifies s.Repr
    ensures s.Valid() && fresh(s.Repr - old(s.Repr))
    ensures s.model == After(old(s.model), On(i, op), now) && s.aof == old(s.aof) + LogOf(old(s.model), On(i, op), now)
  {
    hide After, LogOf, ReplyTo;
    // How much spare room an allocation leaves is up to the allocator.
    var spare: nat := *;
    match op
    case LPush(key, values) =>
      var a := FreshArray(values);
      var reply := s.LPush(i, key, a, spare);
      CountIgnoresTime(old(s.model), i, op, 0, now);
    case RPush(key, values) =>
      var a := FreshArray(values);
      var reply := s.RPush(i, key, a, spare);
      CountIgnoresTime(old(s.model), i, op, 0, now);
    case LPop(key, count) => var reply := s.LPop(i, key, count, now);
    case RPop(key, count) => var reply := s.RPop(i, key, count, now);
    case LTrim(key, start, stop) => s.LTrim(i, key, start, stop, now);
  }

  method PerformKey(s: Store, i: DbIndex, op: KeyOp, now: int)
    requires s.Valid()
    requires op.Del? || op.Expire? || op.Rename? || op.HSet? || op.HDel? || op.FlushDb?
    modifies s.Repr
    ensures s.Valid() && fresh(s.Repr - old(s.Repr))
    ensures s.model == After(old(s.model), On(i, op), now) && s.aof == old(s.aof) + LogOf(old(s.model), On(i, op), now)
  {
    hide After, LogOf, ReplyTo;
    match op
    case Del(key) =>
      s.Del(i, key);
      CountIgnoresTime(old(s.model), i, op, 0, now);
    case Expire(key, ttl) => var ok := s.Expire(i, key, ttl, now);
    case Rename(key, newKey) => var reply := s.Rename(i, key, newKey, now);
    case HSet(key, fields) => var reply := s.HSet(i, key, fields, now);
    case HDel(key, names) => var reply := s.HDel(i, key, names, now);
    case FlushDb =>
      s.FlushDb(i);
      CountIgnoresTime(old(s.model), i, op, 0, now);
  }

  method Perform(s: Store, i: DbIndex, op: KeyOp, now: int)
    requires s.Valid()
    modifies s.Repr
    ensures s.Valid() && fresh(s.Repr - old(s.Repr))
    ensures s.model == After(old(s.model), On(i, op), now) && s.aof == old(s.aof) + LogOf(old(s.model), On(i, op), now)
  {
    hide After, LogOf;
    if op.Set? || op.SetNX? || op.Incr? || op.Decr? {
      PerformString(s, i, op, now);
    } else if op.LPush? || op.RPush? || op.LPop? || op.RPop? || op.LTrim? {
      PerformList(s, i, op, now);
    } else {
      PerformKey(s, i, op, now);
    }
  }

  /** dispatchAOF; false stands for the run-time panic on a database index out of range. */
  method DispatchAof(parts: Command, s: Store, now: int) returns (ok: bool)
    requires s.Valid()
    modifies s.Repr
    ensures s.Valid() && fresh(s.Repr - old(s.Repr))
    ensures match Dispatch(parts, old(s.model), now)
            case Panicked => !ok
            case Ran(st, l) => ok && s.model == st && s.aof == old(s.aof) + l
  {
    hide After, LogOf, Handle, Spelling, Atoi;
    ok := true;
    if parts == [] {
      return;
    }
    var name := ParseName(parts[0]);
    if name.None? {
      return;
    }
    if name.value == FLUSHALL {
      if |parts| == 1 {
        s.FlushEverything();
        FlushIgnoresTime(old(s.model), 0, now);
      }
      return;
    }
    if |parts| < 2 || Atoi(parts[1]).None? {
      return;
    }
    var i := Atoi(parts[1]).value;
    var op := HandleEntry(name.value, parts[2..]);
    if op.Some? {
      ok := 0 <= i < DATABASES;
      if ok {
        Perform(s, i, op.value, now);
      }
    }
  }

  lemma FlushIgnoresTime(st: State, t: int, now: int)
    ensures After(st, FlushAll, t) == After(st, FlushAll, now) && LogOf(st, FlushAll, t) == LogOf(st, FlushAll, now)
  {
  }

  // ----- Replaying a file -----

  /** RebuildStoreFromAOF: parse and dispatch until the parser fails. */
  method RebuildStore(s: Store, file: Bytes, now: int) returns (ok: bool)
    requires s.Valid()
    modifies s.Repr
    ensures s.Valid() && fresh(s.Repr - old(s.Repr))
    ensures match ReplayFile(file, old(s.model), now)
            case Panicked => !ok
            case Ran(st, l) => ok && s.model == st && s.aof == old(s.aof) + l
  {
    hide ParseValue, Dispatch, ToCommand;
    if file == [] || file[0] != STAR {
      return true;
    }
    var r := new Reader(file);
    ghost var sent: seq<Command> := [];
    ghost var goal := ReplayFrames(file, s.model, now);
    ResumeNothing(goal);
    while true
      invariant s.Valid() && fresh(s.Repr - old(s.Repr)) && fresh(r) && r !in s.Repr && r.Valid()
      invariant s.aof == old(s.aof) + sent
      invariant goal == Resume(sent, ReplayFrames(r.Rest(), s.model, now))
      decreases |r.input| - r.pos
    {
      ghost var before := r.Rest();
      var v := r.ReadValue();
      if !v.Value? {
        assert sent + [] == sent;
        return v.Error?;
      }
      var parts := ToCommand(v.value);
      if parts.Some? && parts.value != [] {
        ghost var st := s.model;
        var done := DispatchAof(parts.value, s, now);
        if !done {
          return false;
        }
        ghost var l := Dispatch(parts.value, st, now).log;
        ResumeStep(sent, l, ReplayFrames(r.Rest(), s.model, now));
        sent := sent + l;
      }
    }
  }

  /** The outcome of a replay of which a part, with these entries, is already done. */
  ghost function Resume(sent: seq<Command>, rest: Outcome): Outcome {
    match rest
    case Panicked => Outcome.Panicked
    case Ran(st, l) => Ran(st, sent + l)
  }

  lemma ResumeNothing(rest: Outcome)
    ensures Resume([], rest) == rest
  {
    if rest.Ran? {
      assert [] + rest.log == rest.log;
    }
  }

  lemma ResumeStep(sent: seq<Command>, l: seq<Command>, rest: Outcome)
    ensures Resume(sent, Resume(l, rest)) == Resume(sent + l, rest)
  {
    if rest.Ran? {
      assert sent + (l + rest.log) == sent + l + rest.log;
    }
  }
}
