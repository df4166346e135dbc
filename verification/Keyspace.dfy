/**
 The store's operations as functions: what each one does to the database it
 addresses, which log entries it sends, and what it returns.
 */
module Keyspace {
  import opened Base
  import opened Decimal
  import opened Fields
  import opened Entries

  const DATABASES: nat := 16

  datatype Data = Str(text: Bytes) | List(items: seq<Bytes>) | Hash(fields: FieldMap)

  /** A stored value; the deadline is a point in time in nanoseconds. */
  datatype Val = Val(data: Data, deadline: Option<int>)

  type Db = map<Bytes, Val>
  type State = s: seq<Db> | |s| == DATABASES witness [
    map[], map[], map[], map[], map[], map[], map[], map[],
    map[], map[], map[], map[], map[], map[], map[], map[]]

  /** The state of a new store. */
  const EMPTY: State := [
    map[], map[], map[], map[], map[], map[], map[], map[],
    map[], map[], map[], map[], map[], map[], map[], map[]]

  datatype Error = WrongType | NotInteger | NoSuchKey | OutOfRange
  datatype Reply =
    | Done
    | Nil
    | Flag(yes: bool)
    | Number(n: int)
    | One(item: Bytes)
    | Many(items: seq<Bytes>)
    | Failure(error: Error)

  datatype Effect = Effect(db: Db, log: seq<Command>, reply: Reply)

  /** NX, XX, EX seconds and PX milliseconds; an absent EX or PX is 0. */
  datatype SetOptions = SetOptions(nx: bool, xx: bool, ex: int, px: int)

  const NO_OPTIONS: SetOptions := SetOptions(false, false, 0, 0)

  datatype KeyOp =
    | Set(key: Bytes, value: Bytes, options: SetOptions)
    | SetNX(key: Bytes, value: Bytes)
    | Del(key: Bytes)
    | Expire(key: Bytes, ttl: int)
    | Incr(key: Bytes)
    | Decr(key: Bytes)
    | LPush(key: Bytes, values: seq<Bytes>)
    | RPush(key: Bytes, values: seq<Bytes>)
    | LPop(key: Bytes, count: Option<int>)
    | RPop(key: Bytes, count: Option<int>)
    | LTrim(key: Bytes, start: int, stop: int)
    | Rename(key: Bytes, newKey: Bytes)
    | HSet(key: Bytes, fields: FieldMap)
    | HDel(key: Bytes, names: seq<Bytes>)
    | FlushDb

  /** The command layer only ever selects one of the existing databases. */
  type DbIndex = i: nat | i < DATABASES

  datatype Op = On(db: DbIndex, op: KeyOp) | FlushAll

  predicate Expired(v: Val, now: int) {
    v.deadline.Some? && now > v.deadline.value
  }

  /** The key is present and its deadline has not passed. */
  predicate Live(db: Db, key: Bytes, now: int) {
    key in db && !Expired(db[key], now)
  }

  // ----- Strings -----

  /** The time to live a SET asks for, and the whole seconds its EXPIRE entry records. */
  datatype Ttl = NoTtl | Ttl(nanos: int, seconds: int)

  function TtlOf(o: SetOptions): Ttl {
    if o.ex > 0 then Ttl(Wrap64(o.ex * SECOND), o.ex)
    else if o.px > 0 then Ttl(Wrap64(o.px * MILLISECOND), o.px / 1000)
    else NoTtl
  }

  predicate SetRefused(db: Db, key: Bytes, o: SetOptions, now: int) {
    (o.nx && Live(db, key, now)) || (o.xx && !Live(db, key, now))
  }

  function RunSet(db: Db, i: nat, key: Bytes, value: Bytes, o: SetOptions, now: int): Effect {
    if SetRefused(db, key, o, now) then Effect(db, [], Flag(false))
    else
      match TtlOf(o)
      case NoTtl =>
        Effect(db[key := Val(Str(value), None)], [Entry(SET, i, [key, value])], Flag(true))
      case Ttl(nanos, seconds) =>
        Effect(db[key := Val(Str(value), Some(now + nanos))],
               [Entry(SET, i, [key, value]), Entry(EXPIRE, i, [key, Itoa(seconds)])],
               Flag(true))
  }

  function RunSetNX(db: Db, i: nat, key: Bytes, value: Bytes, now: int): Effect {
    if Live(db, key, now) then Effect(db, [], Number(0))
    else
      var e := RunSet(db, i, key, value, NO_OPTIONS, now);
      e.(reply := Number(if e.reply == Flag(true) then 1 else 0))
  }

  /** Increment or decrement; an expired value still counts. */
  function RunCount(db: Db, i: nat, key: Bytes, name: Name, delta: int): Effect {
    var prior := if key in db then db[key] else Val(Str([Digit(0)]), None);
    if !prior.data.Str? then Effect(db, [], Failure(NotInteger))
    else
      match Atoi(prior.data.text)
      case None => Effect(db, [], Failure(NotInteger))
      case Some(n) =>
        var m := Wrap64(n + delta);
        Effect(db[key := prior.(data := Str(Itoa(m)))], [Entry(name, i, [key])], Number(m))
  }

  /** GETRANGE: the bytes at the positions between two inclusive bounds, either of which may count from the end. */
  function Substring(db: Db, key: Bytes, start: int, stop: int, now: int): Reply {
    if !Live(db, key, now) then Failure(NoSuchKey)
    else if !db[key].data.Str? then Failure(WrongType)
    else
      var text := db[key].data.text;
      var w := Window(|text|, start, stop);
      if w.0 > w.1 then One([]) else One(text[w.0..w.1 + 1])
  }

  // ----- Keys -----

  function RunDel(db: Db, i: nat, key: Bytes): Effect {
    Effect(db - {key}, [Entry(DEL, i, [key])], Done)
  }

  function RunExpire(db: Db, i: nat, key: Bytes, ttl: int, now: int): Effect {
    if key in db then
      Effect(db[key := db[key].(deadline := Some(now + ttl))],
             [Entry(EXPIRE, i, [key, Itoa(WholeSeconds(ttl))])],
             Flag(true))
    else Effect(db, [], Flag(false))
  }

  /** The destination is overwritten, then the source is deleted, even when they are the same key. */
  function RunRename(db: Db, i: nat, key: Bytes, newKey: Bytes, now: int): Effect {
    if key !in db then Effect(db, [], Failure(NoSuchKey))
    else if Expired(db[key], now) then Effect(db, [], Done)
    else Effect(db[newKey := db[key]] - {key}, [Entry(RENAME, i, [key, newKey])], Done)
  }

  // ----- Lists -----

  function Reversed(s: seq<Bytes>): (r: seq<Bytes>)
    ensures |r| == |s|
    ensures forall i :: 0 <= i < |s| ==> r[i] == s[|s| - 1 - i]
  {
    if s == [] then [] else Reversed(s[1..]) + [s[0]]
  }

  function RunPush(db: Db, i: nat, key: Bytes, values: seq<Bytes>, left: bool): Effect {
    var log := [Entry(if left then LPUSH else RPUSH, i, [key] + values)];
    if key !in db then
      Effect(db[key := Val(List(if left then Reversed(values) else values), None)], log, Number(|values|))
    else if !db[key].data.List? then Effect(db, [], Failure(WrongType))
    else
      var prior := db[key].data.items;
      var items := if left then Reversed(values) + prior else prior + values;
      Effect(db[key := db[key].(data := List(items))], log, Number(|items|))
  }

  /** How many elements a pop with this argument takes from a list of n elements. */
  function PopCount(count: Option<int>, n: nat): nat
    requires count.Some? ==> count.value >= 0
  {
    var c := if count.Some? then count.value else 1;
    if c > n then n else c
  }

  function RunPop(db: Db, i: nat, key: Bytes, count: Option<int>, left: bool, now: int): Effect {
    if !Live(db, key, now) then Effect(db, [], Nil)
    else if count.Some? && count.value < 0 then Effect(db, [], Failure(OutOfRange))
    else if !db[key].data.List? then Effect(db, [], Failure(WrongType))
    else
      var items := db[key].data.items;
      if items == [] then Effect(db, [], Nil)
      else
        var c := PopCount(count, |items|);
        var cut := if left then c else |items| - c;
        var popped := if left then items[..c] else items[cut..];
        var rest := if left then items[c..] else items[..cut];
        Effect(db[key := db[key].(data := List(rest))],
               [Entry(if left then LPOP else RPOP, i, [key, Itoa(c)])],
               if count.None? then One(popped[0]) else Many(popped))
  }

  /** The items under a key that holds a list; none otherwise. */
  function ItemsAt(db: Db, key: Bytes): seq<Bytes> {
    if key in db && db[key].data.List? then db[key].data.items else []
  }

  /** Negative indices count from the end; the start is raised to 0 and the stop lowered to the last index. */
  function Window(n: nat, start: int, stop: int): (w: (int, int))
    ensures w.0 >= 0 && w.1 < n
  {
    var s := if start < 0 then n + start else start;
    var e := if stop < 0 then n + stop else stop;
    (if s < 0 then 0 else s, if e >= n then n - 1 else e)
  }

  function RunTrim(db: Db, i: nat, key: Bytes, start: int, stop: int, now: int): Effect {
    if !Live(db, key, now) || !db[key].data.List? then Effect(db, [], Done)
    else
      var items := db[key].data.items;
      var w := Window(|items|, start, stop);
      if w.0 > w.1 || w.0 >= |items| then
        Effect(db - {key}, [Entry(DEL, i, [key])], Done)
      else
        Effect(db[key := db[key].(data := List(items[w.0..w.1 + 1]))],
               [Entry(LTRIM, i, [key, Itoa(w.0), Itoa(w.1)])],
               Done)
  }

  function Range(db: Db, key: Bytes, start: int, stop: int, now: int): Reply {
    if !Live(db, key, now) then Nil
    else if !db[key].data.List? then Failure(WrongType)
    else
      var items := db[key].data.items;
      var w := Window(|items|, start, stop);
      if w.0 > w.1 || w.0 >= |items| || w.1 < 0 then Many([]) else Many(items[w.0..w.1 + 1])
  }

  // ----- Hashes -----

  /** The fields under a key that holds a hash; none otherwise. */
  function FieldsAt(db: Db, key: Bytes): FieldMap {
    if key in db && db[key].data.Hash? then db[key].data.fields else map[]
  }

  /** An expired value is dropped and the hash starts anew; the drop itself is not logged. */
  function RunHSet(db: Db, i: nat, key: Bytes, fields: FieldMap, now: int): Effect {
    if Live(db, key, now) && !db[key].data.Hash? then Effect(db, [], Failure(WrongType))
    else
      var prior := if Live(db, key, now) then db[key] else Val(Hash(map[]), None);
      Effect(db[key := prior.(data := Hash(prior.data.fields + fields))],
             [Entry(HSET, i, [key] + Flatten(fields))],
             Number(|fields.Keys - prior.data.fields.Keys|))
  }

  function RunHDel(db: Db, i: nat, key: Bytes, names: seq<Bytes>, now: int): Effect {
    if key !in db then Effect(db, [], Number(0))
    else if Expired(db[key], now) then Effect(db - {key}, [], Number(0))
    else if !db[key].data.Hash? then Effect(db, [], Failure(WrongType))
    else
      var prior := db[key].data.fields;
      var rest := WithoutFields(prior, names);
      Effect(if rest == map[] then db - {key} else db[key := db[key].(data := Hash(rest))],
             if rest != prior then [Entry(HDEL, i, [key] + names)] else [],
             Number(|prior.Keys - rest.Keys|))
  }

  // ----- All operations -----

  function Run(db: Db, i: nat, op: KeyOp, now: int): Effect {
    match op
    case Set(key, value, options) => RunSet(db, i, key, value, options, now)
    case SetNX(key, value) => RunSetNX(db, i, key, value, now)
    case Del(key) => RunDel(db, i, key)
    case Expire(key, ttl) => RunExpire(db, i, key, ttl, now)
    case Incr(key) => RunCount(db, i, key, INCR, 1)
    case Decr(key) => RunCount(db, i, key, DECR, -1)
    case LPush(key, values) => RunPush(db, i, key, values, true)
    case RPush(key, values) => RunPush(db, i, key, values, false)
    case LPop(key, count) => RunPop(db, i, key, count, true, now)
    case RPop(key, count) => RunPop(db, i, key, count, false, now)
    case LTrim(key, start, stop) => RunTrim(db, i, key, start, stop, now)
    case Rename(key, newKey) => RunRename(db, i, key, newKey, now)
    case HSet(key, fields) => RunHSet(db, i, key, fields, now)
    case HDel(key, names) => RunHDel(db, i, key, names, now)
    case FlushDb => Effect(map[], [Entry(FLUSHDB, i, [])], Done)
  }

  function After(s: State, op: Op, now: int): State {
    match op
    case On(i, k) => s[i := Run(s[i], i, k, now).db]
    case FlushAll => EMPTY
  }

  function LogOf(s: State, op: Op, now: int): seq<Command> {
    match op
    case On(i, k) => Run(s[i], i, k, now).log
    case FlushAll => [[Spelling(FLUSHALL)]]
  }

  function ReplyTo(s: State, op: Op, now: int): Reply {
    match op
    case On(i, k) => Run(s[i], i, k, now).reply
    case FlushAll => Done
  }

  // ----- Runs -----

  /** An operation on one database, and when it runs. */
  datatype At = At(op: KeyOp, now: int)

  function FinalDb(run: seq<At>, db: Db, i: DbIndex): Db {
    if run == [] then db else FinalDb(run[1..], Run(db, i, run[0].op, run[0].now).db, i)
  }

  datatype Timed = Timed(op: Op, now: int)

  function Final(run: seq<Timed>): State {
    if run == [] then EMPTY
    else
      var last := run[|run| - 1];
      After(Final(run[..|run| - 1]), last.op, last.now)
  }

  function Logged(run: seq<Timed>): seq<Command> {
    if run == [] then []
    else
      var last := run[|run| - 1];
      Logged(run[..|run| - 1]) + LogOf(Final(run[..|run| - 1]), last.op, last.now)
  }
}
