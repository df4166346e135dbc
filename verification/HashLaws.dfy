/** Accounting laws of hashes and counters over whole runs. */
module HashLaws {
  import opened Base
  import opened Decimal
  import opened Fields
  import opened Entries
  import opened Keyspace

  /** The key holds a non-empty hash without a deadline, or is missing. */
  predicate PlainHashAt(db: Db, key: Bytes) {
    key in db ==> db[key].data.Hash? && db[key].deadline == None && db[key].data.fields != map[]
  }

  /** HLEN */
  function HLen(db: Db, key: Bytes, now: int): nat {
    if Live(db, key, now) && db[key].data.Hash? then |db[key].data.fields| else 0
  }

  predicate HashOp(op: KeyOp, key: Bytes) {
    (op.HSet? && op.key == key && op.fields != map[]) || (op.HDel? && op.key == key)
  }

  /** The sum of what the HSETs report added, less the sum of what the HDELs report deleted. */
  function Balance(run: seq<At>, db: Db, i: DbIndex): int {
    if run == [] then 0
    else
      var e := Run(db, i, run[0].op, run[0].now);
      var n := if e.reply.Number? then e.reply.n else 0;
      (if run[0].op.HSet? then n else -n) + Balance(run[1..], e.db, i)
  }

  lemma UnionSize(a: FieldMap, b: FieldMap)
    ensures |a + b| == |a| + |b.Keys - a.Keys|
  {
    assert (a + b).Keys == a.Keys + (b.Keys - a.Keys);
    assert |(a + b).Keys| == |a + b| && |a.Keys| == |a|;
  }

  lemma DropSize(a: FieldMap, names: seq<Bytes>)
    ensures var r := WithoutFields(a, names); |r| == |a| - |a.Keys - r.Keys|
  {
    var r := WithoutFields(a, names);
    assert a.Keys == r.Keys + (a.Keys - r.Keys);
    assert |r.Keys| == |r| && |a.Keys| == |a|;
  }

  lemma HSetBalance(db: Db, i: DbIndex, key: Bytes, fields: FieldMap, now: int)
    requires PlainHashAt(db, key) && fields != map[]
    ensures var e := RunHSet(db, i, key, fields, now);
            PlainHashAt(e.db, key) && e.reply.Number? && |FieldsAt(e.db, key)| == |FieldsAt(db, key)| + e.reply.n
  {
    hide Itoa, Spelling, Flatten, Entry;
    var prior := FieldsAt(db, key);
    UnionSize(prior, fields);
    var f :| f in fields;
    assert f in prior + fields;
  }

  lemma HDelBalance(db: Db, i: DbIndex, key: Bytes, names: seq<Bytes>, now: int)
    requires PlainHashAt(db, key)
    ensures var e := RunHDel(db, i, key, names, now);
            PlainHashAt(e.db, key) && e.reply.Number? && |FieldsAt(e.db, key)| == |FieldsAt(db, key)| - e.reply.n
  {
    hide Itoa, Spelling, Entry, WithoutFields;
    DropSize(FieldsAt(db, key), names);
  }

  /** The hash has as many fields as its replies add up to, whatever the order and however often fields repeat. */
  lemma {:induction false} HashAccounting(run: seq<At>, db: Db, i: DbIndex, key: Bytes)
    requires PlainHashAt(db, key) && forall t :: t in run ==> HashOp(t.op, key)
    ensures var end := FinalDb(run, db, i);
            PlainHashAt(end, key) && |FieldsAt(end, key)| == |FieldsAt(db, key)| + Balance(run, db, i)
  {
    hide RunHSet, RunHDel, PlainHashAt, FieldsAt;
    if run != [] {
      var t := run[0];
      if t.op.HSet? {
        HSetBalance(db, i, key, t.op.fields, t.now);
      } else {
        HDelBalance(db, i, key, t.op.names, t.now);
      }
      HashAccounting(run[1..], Run(db, i, t.op, t.now).db, i, key);
    }
  }

  /** From a missing key: HLEN is the balance of the replies, and the key exists exactly when it is positive. */
  lemma HLenIsBalance(run: seq<At>, db: Db, i: DbIndex, key: Bytes, now: int)
    requires key !in db && forall t :: t in run ==> HashOp(t.op, key)
    ensures var end := FinalDb(run, db, i);
            HLen(end, key, now) == Balance(run, db, i) && (key in end <==> Balance(run, db, i) > 0)
  {
    hide FinalDb, Balance;
    HashAccounting(run, db, i, key);
    var end := FinalDb(run, db, i);
    if key in end {
      var f :| f in end[key].data.fields;
      assert f in end[key].data.fields.Keys;
    }
  }

  // ----- Counters -----

  function Sum(ups: seq<bool>): int {
    if ups == [] then 0 else (if ups[0] then 1 else -1) + Sum(ups[1..])
  }

  function CountAll(ups: seq<bool>, db: Db, i: DbIndex, key: Bytes): Db {
    if ups == [] then db
    else CountAll(ups[1..], RunCount(db, i, key, if ups[0] then INCR else DECR, if ups[0] then 1 else -1).db, i, key)
  }

  lemma WrapStep(a: int, b: int)
    ensures Wrap64(Wrap64(a) + b) == Wrap64(a + b)
  {
  }

  /** Any interleaving of INCR and DECR leaves the canonical decimal of the start plus ups minus downs, wrapped at 64 bits. */
  lemma {:induction false} CounterSum(ups: seq<bool>, db: Db, i: DbIndex, key: Bytes, n: int)
    requires ups != [] && key in db && db[key].data.Str? && Atoi(db[key].data.text) == Some(n)
    ensures CountAll(ups, db, i, key) == db[key := db[key].(data := Str(Itoa(Wrap64(n + Sum(ups)))))]
  {
    hide Itoa, Atoi, Spelling, Entry, Wrap64;
    var d := if ups[0] then 1 else -1;
    var m := Wrap64(n + d);
    var next := RunCount(db, i, key, if ups[0] then INCR else DECR, d).db;
    assert next == db[key := db[key].(data := Str(Itoa(m)))];
    WrapInRange(n + d);
    AtoiItoa(m);
    if |ups| > 1 {
      CounterSum(ups[1..], next, i, key, m);
      WrapStep(n + d, Sum(ups[1..]));
      assert n + d + Sum(ups[1..]) == n + Sum(ups);
    } else {
      assert ups[1..] == [] && Sum(ups) == d;
    }
  }

  lemma WrapInRange(n: int)
    ensures InInt64(Wrap64(n))
  {
  }
}
