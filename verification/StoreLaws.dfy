/**
 What each operation of the store does, told by keys, values, deadlines, replies
 and log entries: every branch, and that all other keys stay as they are.
 */
module StoreLaws {
  import opened Base
  import opened Decimal
  import opened Fields
  import opened Entries
  import opened Keyspace

  /** Outside some keys two databases hold the same. */
  ghost predicate SameBut(a: Db, b: Db, keys: set<Bytes>) {
    forall k :: k !in keys ==> (k in a <==> k in b) && (k in a ==> a[k] == b[k])
  }

  /** The operation changed nothing, logged nothing and answered this. */
  predicate Untouched(db: Db, e: Effect, reply: Reply) {
    e == Effect(db, [], reply)
  }

  /** A key is live as long as its deadline has not passed; at the very instant of its deadline it still is. */
  lemma LiveExactly(db: Db, key: Bytes, now: int)
    ensures Live(db, key, now) <==> key in db && (db[key].deadline.Some? ==> now <= db[key].deadline.value)
  {
  }

  // ----- Strings -----

  /** NX refuses a live key, XX one that is missing or expired; otherwise the value is stored, with the deadline EX or else PX asks for. */
  lemma SetStores(db: Db, i: DbIndex, key: Bytes, value: Bytes, o: SetOptions, now: int)
    ensures var e := Run(db, i, Set(key, value, o), now);
            if (o.nx && Live(db, key, now)) || (o.xx && !Live(db, key, now)) then Untouched(db, e, Flag(false))
            else
              && SameBut(db, e.db, {key}) && key in e.db && e.db[key].data == Str(value)
              && e.reply == Flag(true) && e.log != [] && e.log[0] == Entry(SET, i, [key, value])
              && (if o.ex > 0 then
                    e.db[key].deadline == Some(now + Wrap64(o.ex * 1_000_000_000)) && e.log[1..] == [Entry(EXPIRE, i, [key, Itoa(o.ex)])]
                  else if o.px > 0 then
                    e.db[key].deadline == Some(now + Wrap64(o.px * 1_000_000)) && e.log[1..] == [Entry(EXPIRE, i, [key, Itoa(o.px / 1000)])]
                  else
                    e.db[key].deadline == None && e.log[1..] == [])
  {
    hide Entry, Itoa, Wrap64;
  }

  /** SETNX answers 1 and stores a plain SET where no live key was, 0 where one is. */
  lemma SetNXStores(db: Db, i: DbIndex, key: Bytes, value: Bytes, now: int)
    ensures var e := Run(db, i, SetNX(key, value), now);
            if Live(db, key, now) then Untouched(db, e, Number(0))
            else
              && SameBut(db, e.db, {key}) && key in e.db && e.db[key] == Val(Str(value), None)
              && e.reply == Number(1) && e.log == [Entry(SET, i, [key, value])]
  {
    hide Entry, Itoa;
  }

  /** The number a key counts from: a missing key counts as 0, a value that is no decimal integer has none. */
  function CountsFrom(db: Db, key: Bytes): Option<int> {
    if key !in db then Some(0) else if db[key].data.Str? then Atoi(db[key].data.text) else None
  }

  /** INCR and DECR store and answer the number one up or one down, keep the deadline and do not look at it. */
  lemma CountStores(db: Db, i: DbIndex, key: Bytes, up: bool, now: int)
    ensures var e := Run(db, i, if up then Incr(key) else Decr(key), now);
            match CountsFrom(db, key)
            case None => Untouched(db, e, Failure(NotInteger))
            case Some(n) =>
              var m := Wrap64(if up then n + 1 else n - 1);
              && SameBut(db, e.db, {key}) && key in e.db
              && e.db[key] == Val(Str(Itoa(m)), if key in db then db[key].deadline else None)
              && e.reply == Number(m) && e.log == [Entry(if up then INCR else DECR, i, [key])]
  {
    hide Entry, Itoa, Wrap64, Atoi;
    ZeroText();
  }

  lemma ZeroText()
    ensures Atoi([Digit(0)]) == Some(0)
  {
    AtoiItoa(0);
    assert Itoa(0) == [Digit(0)];
  }

  /** Within 64 bits there is no wrap; one past either end comes out at the other. */
  lemma WrapsAround(n: int)
    requires -9_223_372_036_854_775_808 <= n <= 9_223_372_036_854_775_807
    ensures Wrap64(n) == n
    ensures Wrap64(9_223_372_036_854_775_807 + 1) == -9_223_372_036_854_775_808
    ensures Wrap64(-9_223_372_036_854_775_808 - 1) == 9_223_372_036_854_775_807
  {
  }

  /** GETRANGE on anything but a live string. */
  lemma SubstringFails(db: Db, key: Bytes, start: int, stop: int, now: int)
    ensures !Live(db, key, now) ==> Substring(db, key, start, stop, now) == Failure(NoSuchKey)
    ensures Live(db, key, now) && !db[key].data.Str? ==> Substring(db, key, start, stop, now) == Failure(WrongType)
  {
  }

  // ----- Keys -----

  /** DEL removes the key whether it is live or not, and logs whether it was there or not. */
  lemma DelRemoves(db: Db, i: DbIndex, key: Bytes, now: int)
    ensures var e := Run(db, i, Del(key), now);
            SameBut(db, e.db, {key}) && key !in e.db && e.reply == Done && e.log == [Entry(DEL, i, [key])]
  {
    hide Entry;
  }

  /** EXPIRE sets the deadline of any key that is there, even an expired one, and answers whether it was. */
  lemma ExpireSets(db: Db, i: DbIndex, key: Bytes, ttl: int, now: int)
    ensures var e := Run(db, i, Expire(key, ttl), now);
            if key !in db then Untouched(db, e, Flag(false))
            else
              && SameBut(db, e.db, {key}) && key in e.db && e.db[key] == Val(db[key].data, Some(now + ttl))
              && e.reply == Flag(true) && e.log == [Entry(EXPIRE, i, [key, Itoa(WholeSeconds(ttl))])]
  {
    hide Entry, Itoa, WholeSeconds;
  }

  /** The seconds logged are the duration's, without the fraction, toward zero. */
  lemma SecondsOf(seconds: int, rest: int)
    requires 0 <= rest < 1_000_000_000
    ensures seconds >= 0 ==> WholeSeconds(seconds * 1_000_000_000 + rest) == seconds
    ensures seconds <= 0 ==> WholeSeconds(seconds * 1_000_000_000 - rest) == seconds
  {
  }

  /**
   RENAME moves the value with its deadline, over whatever the new name held; to
   its own name it removes the key. A missing key is an error, an expired one is not.
   */
  lemma RenameMoves(db: Db, i: DbIndex, key: Bytes, newKey: Bytes, now: int)
    ensures var e := Run(db, i, Rename(key, newKey), now);
            if key !in db then Untouched(db, e, Failure(NoSuchKey))
            else if !Live(db, key, now) then Untouched(db, e, Done)
            else
              && SameBut(db, e.db, {key, newKey}) && key !in e.db
              && (key != newKey ==> newKey in e.db && e.db[newKey] == db[key])
              && e.reply == Done && e.log == [Entry(RENAME, i, [key, newKey])]
  {
    hide Entry;
  }

  /** FLUSHDB leaves its database empty. */
  lemma FlushDbEmpties(db: Db, i: DbIndex, now: int)
    ensures var e := Run(db, i, FlushDb, now); e.db == map[] && e.reply == Done && e.log == [Entry(FLUSHDB, i, [])]
  {
    hide Entry;
  }

  /** FLUSHALL leaves every database empty. */
  lemma FlushAllEmpties(s: State, now: int, j: DbIndex)
    ensures After(s, FlushAll, now)[j] == map[] && ReplyTo(s, FlushAll, now) == Done
    ensures LogOf(s, FlushAll, now) == [[Spelling(FLUSHALL)]]
  {
    hide Spelling;
  }

  /** An operation on one database leaves the other fifteen alone. */
  lemma OneDatabase(s: State, i: DbIndex, op: KeyOp, now: int, j: DbIndex)
    ensures After(s, On(i, op), now)[j] == if j == i then Run(s[i], i, op, now).db else s[j]
    ensures LogOf(s, On(i, op), now) == Run(s[i], i, op, now).log && ReplyTo(s, On(i, op), now) == Run(s[i], i, op, now).reply
    ensures |s| == 16
  {
    hide Run;
  }

  // ----- Lists -----

  /** A push on a key that holds another type. */
  lemma PushFails(db: Db, i: DbIndex, key: Bytes, values: seq<Bytes>, now: int)
    requires key in db && !db[key].data.List?
    ensures Untouched(db, Run(db, i, LPush(key, values), now), Failure(WrongType))
    ensures Untouched(db, Run(db, i, RPush(key, values), now), Failure(WrongType))
  {
    hide Entry;
  }

  /** RPUSH puts the values behind, in order; it answers the new length and keeps the deadline, passed or not. */
  lemma RPushAdds(db: Db, i: DbIndex, key: Bytes, values: seq<Bytes>, now: int)
    requires key in db ==> db[key].data.List?
    ensures var e, prior := Run(db, i, RPush(key, values), now), ItemsAt(db, key);
            && SameBut(db, e.db, {key}) && key in e.db
            && e.db[key] == Val(List(prior + values), if key in db then db[key].deadline else None)
            && e.reply == Number(|prior| + |values|) && e.log == [Entry(RPUSH, i, [key] + values)]
  {
    hide Entry, Reversed;
    assert [] + values == values;
  }

  lemma LPushFresh(db: Db, i: DbIndex, key: Bytes, values: seq<Bytes>)
    requires key !in db
    ensures RunPush(db, i, key, values, true) ==
            Effect(db[key := Val(List(Reversed(values)), None)], [Entry(LPUSH, i, [key] + values)], Number(|values|))
  {
    hide Entry, Reversed;
  }

  lemma LPushOnto(db: Db, i: DbIndex, key: Bytes, values: seq<Bytes>)
    requires key in db && db[key].data.List?
    ensures var prior := db[key].data.items;
            RunPush(db, i, key, values, true) ==
            Effect(db[key := Val(List(Reversed(values) + prior), db[key].deadline)], [Entry(LPUSH, i, [key] + values)],
                   Number(|Reversed(values) + prior|))
  {
    hide Entry, Reversed;
  }

  lemma RunLPush(db: Db, i: DbIndex, key: Bytes, values: seq<Bytes>, now: int)
    ensures Run(db, i, LPush(key, values), now) == RunPush(db, i, key, values, true)
  {
    hide RunPush;
  }

  lemma Mirrored(values: seq<Bytes>, prior: seq<Bytes>)
    ensures var items, v := Reversed(values) + prior, |values|;
            |items| == v + |prior| && items[v..] == prior && (forall j :: 0 <= j < v ==> items[j] == values[v - 1 - j])
  {
  }

  /** Storing one value under a key, seen from outside. */
  lemma OneStored(db: Db, key: Bytes, v: Val)
    ensures var d := db[key := v]; SameBut(db, d, {key}) && key in d && d[key] == v
  {
  }

  lemma NothingBehind(s: seq<Bytes>)
    ensures s + [] == s
  {
  }

  /** LPUSH puts the values in front, the last one first; it answers the new length and keeps the deadline, passed or not. */
  lemma LPushAdds(db: Db, i: DbIndex, key: Bytes, values: seq<Bytes>, now: int)
    requires key in db ==> db[key].data.List?
    ensures var e, prior := Run(db, i, LPush(key, values), now), ItemsAt(db, key);
            var items, v := ItemsAt(e.db, key), |values|;
            && SameBut(db, e.db, {key}) && key in e.db && e.db[key].data.List?
            && e.db[key].deadline == (if key in db then db[key].deadline else None)
            && |items| == v + |prior| && items[v..] == prior && (forall j :: 0 <= j < v ==> items[j] == values[v - 1 - j])
            && e.reply == Number(|items|) && e.log == [Entry(LPUSH, i, [key] + values)]
  {
    hide Entry, Reversed, Run, RunPush, SameBut;
    RunLPush(db, i, key, values, now);
    if key in db {
      LPushOnto(db, i, key, values);
      OneStored(db, key, Val(List(Reversed(values) + db[key].data.items), db[key].deadline));
      Mirrored(values, db[key].data.items);
    } else {
      LPushFresh(db, i, key, values);
      OneStored(db, key, Val(List(Reversed(values)), None));
      NothingBehind(Reversed(values));
      Mirrored(values, []);
    }
  }

  /** How many of n elements a pop takes: one without a count, else the count or all there are. */
  function Taken(count: Option<int>, n: nat): (c: int) {
    if count.None? then 1 else if count.value <= n then count.value else n
  }

  /** LPOP from a live list that is not empty: the first elements, in order; the rest stays, even if it is none, with its deadline. */
  lemma LPopTakes(db: Db, i: DbIndex, key: Bytes, count: Option<int>, now: int)
    requires Live(db, key, now) && db[key].data.List? && db[key].data.items != [] && (count.Some? ==> count.value >= 0)
    ensures var e, items := Run(db, i, LPop(key, count), now), db[key].data.items;
            var c := Taken(count, |items|);
            && 0 <= c <= |items|
            && SameBut(db, e.db, {key}) && key in e.db && e.db[key] == Val(List(items[c..]), db[key].deadline)
            && e.reply == (if count.None? then One(items[0]) else Many(items[..c]))
            && e.log == [Entry(LPOP, i, [key, Itoa(c)])]
  {
    hide Entry, Itoa;
  }

  /** RPOP likewise from the other end; the elements are answered in list order. */
  lemma RPopTakes(db: Db, i: DbIndex, key: Bytes, count: Option<int>, now: int)
    requires Live(db, key, now) && db[key].data.List? && db[key].data.items != [] && (count.Some? ==> count.value >= 0)
    ensures var e, items := Run(db, i, RPop(key, count), now), db[key].data.items;
            var n, c := |items|, Taken(count, |items|);
            && 0 <= c <= n
            && SameBut(db, e.db, {key}) && key in e.db && e.db[key] == Val(List(items[..n - c]), db[key].deadline)
            && e.reply == (if count.None? then One(items[n - 1]) else Many(items[n - c..]))
            && e.log == [Entry(RPOP, i, [key, Itoa(c)])]
  {
    hide Entry, Itoa;
  }

  /** Everything else a pop meets: nothing changes, and a negative count is noticed before the wrong type. */
  lemma PopFails(db: Db, i: DbIndex, key: Bytes, count: Option<int>, left: bool, now: int)
    ensures var e := Run(db, i, if left then LPop(key, count) else RPop(key, count), now);
            && (!Live(db, key, now) ==> Untouched(db, e, Nil))
            && (Live(db, key, now) && count.Some? && count.value < 0 ==> Untouched(db, e, Failure(OutOfRange)))
            && (Live(db, key, now) && (count.Some? ==> count.value >= 0) && !db[key].data.List? ==> Untouched(db, e, Failure(WrongType)))
            && (Live(db, key, now) && (count.Some? ==> count.value >= 0) && db[key].data == List([]) ==> Untouched(db, e, Nil))
  {
    hide Entry, Itoa;
  }

  /** The position an index denotes: negative indices count from the end. */
  function Position(n: nat, index: int): int {
    if index < 0 then n + index else index
  }

  /** The first position of a window; a start before the list is its beginning. */
  function First(n: nat, start: int): nat {
    if Position(n, start) < 0 then 0 else Position(n, start)
  }

  /** LRANGE answers each element between the bounds once, in list order, and nothing else. */
  lemma RangeElements(db: Db, key: Bytes, start: int, stop: int, now: int, j: nat)
    requires Live(db, key, now) && db[key].data.List?
    ensures var items, r := db[key].data.items, Range(db, key, start, stop, now);
            var first := First(|items|, start);
            && r.Many?
            && (j < |items| && Position(|items|, start) <= j <= Position(|items|, stop) ==>
                  j - first < |r.items| && r.items[j - first] == items[j])
            && (j < |r.items| ==> first + j < |items| && first + j <= Position(|items|, stop) && r.items[j] == items[first + j])
  {
  }

  /** LRANGE on anything but a live list. */
  lemma RangeFails(db: Db, key: Bytes, start: int, stop: int, now: int)
    ensures !Live(db, key, now) ==> Range(db, key, start, stop, now) == Nil
    ensures Live(db, key, now) && !db[key].data.List? ==> Range(db, key, start, stop, now) == Failure(WrongType)
  {
  }

  /** LTRIM keeps what LRANGE answers, with its deadline; a list left with nothing is removed; anything but a live list is left alone. */
  lemma TrimKeeps(db: Db, i: DbIndex, key: Bytes, start: int, stop: int, now: int)
    ensures var e := Run(db, i, LTrim(key, start, stop), now);
            if !Live(db, key, now) || !db[key].data.List? then Untouched(db, e, Done)
            else
              var kept := Range(db, key, start, stop, now);
              && kept.Many? && SameBut(db, e.db, {key}) && e.reply == Done
              && (if kept.items == [] then key !in e.db && e.log == [Entry(DEL, i, [key])]
                  else
                    var first := First(|db[key].data.items|, start);
                    && key in e.db && e.db[key] == Val(List(kept.items), db[key].deadline)
                    && e.log == [Entry(LTRIM, i, [key, Itoa(first), Itoa(first + |kept.items| - 1)])])
  {
    hide Entry, Itoa;
    if Live(db, key, now) && db[key].data.List? {
      var items := db[key].data.items;
      var w := Window(|items|, start, stop);
      assert w.0 == First(|items|, start);
      if w.0 <= w.1 {
        assert |items[w.0..w.1 + 1]| == w.1 + 1 - w.0 > 0;
      }
    }
  }

  // ----- Hashes -----

  /** The fields HSET and HDEL find: those of a live hash, none elsewhere. */
  function LiveFields(db: Db, key: Bytes, now: int): FieldMap {
    if Live(db, key, now) && db[key].data.Hash? then db[key].data.fields else map[]
  }

  lemma HSetResult(db: Db, i: DbIndex, key: Bytes, fields: FieldMap, now: int)
    requires Live(db, key, now) ==> db[key].data.Hash?
    ensures var e, prior := Run(db, i, HSet(key, fields), now), LiveFields(db, key, now);
            && e.db == db[key := Val(Hash(prior + fields), if Live(db, key, now) then db[key].deadline else None)]
            && e.reply == Number(|fields.Keys - prior.Keys|) && e.log == [Entry(HSET, i, [key] + Flatten(fields))]
  {
    hide Entry, Flatten;
  }

  lemma Merged(prior: FieldMap, fields: FieldMap, f: Bytes)
    ensures var after := prior + fields;
            && (f in after <==> f in fields || f in prior)
            && (f in fields ==> after[f] == fields[f])
            && (f in prior && f !in fields ==> after[f] == prior[f])
    ensures (set g | g in fields && g !in prior) == fields.Keys - prior.Keys
  {
  }

  /** HSET writes its fields over what a live hash holds, or into a hash without a deadline, and answers how many were new. */
  lemma HSetWrites(db: Db, i: DbIndex, key: Bytes, fields: FieldMap, now: int, f: Bytes)
    ensures var e, prior := Run(db, i, HSet(key, fields), now), LiveFields(db, key, now);
            var after := FieldsAt(e.db, key);
            if Live(db, key, now) && !db[key].data.Hash? then Untouched(db, e, Failure(WrongType))
            else
              && SameBut(db, e.db, {key}) && key in e.db && e.db[key].data.Hash?
              && e.db[key].deadline == (if Live(db, key, now) then db[key].deadline else None)
              && (f in after <==> f in fields || f in prior)
              && (f in fields ==> after[f] == fields[f])
              && (f in prior && f !in fields ==> after[f] == prior[f])
              && e.reply == Number(|set g | g in fields && g !in prior|)
              && e.log == [Entry(HSET, i, [key] + Flatten(fields))]
  {
    hide Entry, Flatten;
    if Live(db, key, now) ==> db[key].data.Hash? {
      HSetResult(db, i, key, fields, now);
      hide Run, LiveFields;
      Merged(LiveFields(db, key, now), fields, f);
    }
  }

  lemma HDelResult(db: Db, i: DbIndex, key: Bytes, names: seq<Bytes>, now: int)
    requires Live(db, key, now) && db[key].data.Hash?
    ensures var e, prior := Run(db, i, HDel(key, names), now), db[key].data.fields;
            var rest := WithoutFields(prior, names);
            && e.db == (if rest == map[] then db - {key} else db[key := Val(Hash(rest), db[key].deadline)])
            && e.reply == Number(|prior.Keys - rest.Keys|)
            && e.log == (if rest != prior then [Entry(HDEL, i, [key] + names)] else [])
  {
    hide Entry, WithoutFields;
  }

  lemma RestOf(h: FieldMap, names: seq<Bytes>)
    ensures var rest, taken := WithoutFields(h, names), set g | g in h && g in names;
            && h.Keys - rest.Keys == taken && (rest == h <==> taken == {})
            && (rest != map[] <==> exists g :: g in h && g !in names)
            && forall f :: (f in rest <==> f in h && f !in names) && (f in rest ==> rest[f] == h[f])
  {
    var rest, taken := WithoutFields(h, names), set g | g in h && g in names;
    assert h.Keys - rest.Keys == taken;
    if taken == {} {
      forall g | g in h
        ensures g in rest
      {
        assert g !in taken;
      }
    }
    assert rest != map[] ==> rest.Keys != {};
    assert forall g :: g in h && g !in names ==> g in rest;
  }

  /** HDEL takes the named fields from a live hash, removes a key left without fields, and answers and logs only what it took. */
  lemma HDelRemoves(db: Db, i: DbIndex, key: Bytes, names: seq<Bytes>, now: int, f: Bytes)
    requires Live(db, key, now) && db[key].data.Hash?
    ensures var e, prior := Run(db, i, HDel(key, names), now), db[key].data.fields;
            var after, taken := FieldsAt(e.db, key), set g | g in prior && g in names;
            && SameBut(db, e.db, {key})
            && (key in e.db <==> exists g :: g in prior && g !in names)
            && (key in e.db ==>
                  && e.db[key].data.Hash? && e.db[key].deadline == db[key].deadline
                  && (f in after <==> f in prior && f !in names)
                  && (f in after ==> after[f] == prior[f]))
            && e.reply == Number(|taken|) && e.log == (if taken != {} then [Entry(HDEL, i, [key] + names)] else [])
  {
    hide Entry, Run, WithoutFields;
    HDelResult(db, i, key, names, now);
    RestOf(db[key].data.fields, names);
  }

  /** HDEL elsewhere: nothing for a missing key, an expired key goes without an entry, another type is an error. */
  lemma HDelElse(db: Db, i: DbIndex, key: Bytes, names: seq<Bytes>, now: int)
    ensures var e := Run(db, i, HDel(key, names), now);
            && (key !in db ==> Untouched(db, e, Number(0)))
            && (key in db && !Live(db, key, now) ==>
                  SameBut(db, e.db, {key}) && key !in e.db && e.log == [] && e.reply == Number(0))
            && (Live(db, key, now) && !db[key].data.Hash? ==> Untouched(db, e, Failure(WrongType)))
  {
    hide Entry, WithoutFields;
  }
}
