/** Laws of lists over whole runs, and of index windows. */
module ListLaws {
  import opened Base
  import opened Decimal
  import opened Entries
  import opened Keyspace
  import opened StoreLaws

  /** The key holds a list without a deadline, or is missing. */
  predicate DequeAt(db: Db, key: Bytes) {
    key in db ==> db[key].data.List? && db[key].deadline == None
  }

  predicate DequeOp(op: KeyOp, key: Bytes) {
    (op.LPush? || op.RPush? || op.LPop? || op.RPop?) && op.key == key
  }

  function Given(op: KeyOp): seq<Bytes> {
    match op
    case LPush(_, values) => values
    case RPush(_, values) => values
    case _ => []
  }

  /** The elements a reply hands out. */
  function Handed(op: KeyOp, r: Reply): seq<Bytes> {
    if op.LPop? || op.RPop? then
      match r
      case One(x) => [x]
      case Many(xs) => xs
      case _ => []
    else []
  }

  // ----- One operation on the key's items -----

  lemma {:induction false} ReversedBag(s: seq<Bytes>)
    ensures multiset(Reversed(s)) == multiset(s)
  {
    if s != [] {
      ReversedBag(s[1..]);
      assert s == [s[0]] + s[1..];
    }
  }

  lemma PushItems(db: Db, i: DbIndex, key: Bytes, values: seq<Bytes>, left: bool)
    requires DequeAt(db, key)
    ensures var e := RunPush(db, i, key, values, left);
            && DequeAt(e.db, key)
            && ItemsAt(e.db, key) == if left then Reversed(values) + ItemsAt(db, key) else ItemsAt(db, key) + values
  {
    hide Itoa, Spelling;
    if key !in db {
      assert Reversed(values) + [] == Reversed(values) && [] + values == values;
    }
  }

  lemma PopLeft(db: Db, i: DbIndex, key: Bytes, count: Option<int>, now: int)
    requires DequeAt(db, key)
    ensures var e := RunPop(db, i, key, count, true, now);
            DequeAt(e.db, key) && ItemsAt(db, key) == Handed(LPop(key, count), e.reply) + ItemsAt(e.db, key)
  {
    hide Itoa, Spelling, Entry;
    var items := ItemsAt(db, key);
    var e := RunPop(db, i, key, count, true, now);
    if e.log != [] {
      var c := PopCount(count, |items|);
      assert items == items[..c] + items[c..];
      assert ItemsAt(e.db, key) == items[c..];
      assert Handed(LPop(key, count), e.reply) == items[..c];
    } else {
      assert e.db == db && [] + items == items;
    }
  }

  lemma PopRight(db: Db, i: DbIndex, key: Bytes, count: Option<int>, now: int)
    requires DequeAt(db, key)
    ensures var e := RunPop(db, i, key, count, false, now);
            DequeAt(e.db, key) && ItemsAt(db, key) == ItemsAt(e.db, key) + Handed(RPop(key, count), e.reply)
  {
    hide Itoa, Spelling, Entry;
    var items := ItemsAt(db, key);
    var e := RunPop(db, i, key, count, false, now);
    if e.log != [] {
      var c := PopCount(count, |items|);
      assert items == items[..|items| - c] + items[|items| - c..];
      assert ItemsAt(e.db, key) == items[..|items| - c];
      assert Handed(RPop(key, count), e.reply) == items[|items| - c..];
    } else {
      assert e.db == db && items + [] == items;
    }
  }

  /** Whatever a pop returns was at its end of the list; nothing else moved. */
  lemma PopItems(db: Db, i: DbIndex, key: Bytes, count: Option<int>, left: bool, now: int)
    requires DequeAt(db, key)
    ensures var e := RunPop(db, i, key, count, left, now);
            var out := Handed(if left then LPop(key, count) else RPop(key, count), e.reply);
            && DequeAt(e.db, key)
            && ItemsAt(db, key) == if left then out + ItemsAt(e.db, key) else ItemsAt(e.db, key) + out
  {
    hide RunPop, ItemsAt, DequeAt, Handed;
    if left {
      PopLeft(db, i, key, count, now);
    } else {
      PopRight(db, i, key, count, now);
    }
  }

  lemma BagOfOp(db: Db, i: DbIndex, op: KeyOp, key: Bytes, now: int)
    requires DequeAt(db, key) && DequeOp(op, key)
    ensures var e := Run(db, i, op, now);
            && DequeAt(e.db, key)
            && multiset(ItemsAt(db, key)) + multiset(Given(op)) == multiset(ItemsAt(e.db, key)) + multiset(Handed(op, e.reply))
  {
    hide RunPush, RunPop, ItemsAt, DequeAt, Reversed;
    match op
    case LPush(_, values) =>
      PushItems(db, i, key, values, true);
      ReversedBag(values);
    case RPush(_, values) => PushItems(db, i, key, values, false);
    case LPop(_, count) => PopItems(db, i, key, count, true, now);
    case RPop(_, count) => PopItems(db, i, key, count, false, now);
  }

  // ----- Runs -----

  ghost predicate DequeRun(run: seq<At>, key: Bytes) {
    forall t :: t in run ==> DequeOp(t.op, key)
  }

  /** Everything pushed, in order. */
  function AllGiven(run: seq<At>): seq<Bytes> {
    if run == [] then [] else Given(run[0].op) + AllGiven(run[1..])
  }

  /** Everything popped, in order. */
  function AllHanded(run: seq<At>, db: Db, i: DbIndex): seq<Bytes> {
    if run == [] then []
    else
      var e := Run(db, i, run[0].op, run[0].now);
      Handed(run[0].op, e.reply) + AllHanded(run[1..], e.db, i)
  }

  lemma BagStep(before: seq<Bytes>, given: seq<Bytes>, after: seq<Bytes>, out: seq<Bytes>,
                more: seq<Bytes>, left: seq<Bytes>, later: seq<Bytes>)
    requires multiset(before) + multiset(given) == multiset(after) + multiset(out)
    requires multiset(after) + multiset(more) == multiset(left) + multiset(later)
    ensures multiset(before) + multiset(given + more) == multiset(left) + multiset(out + later)
  {
    var b, g, a, o, m, l, h := multiset(before), multiset(given), multiset(after), multiset(out), multiset(more), multiset(left), multiset(later);
    assert b + (g + m) == (b + g) + m;
    assert (a + o) + m == (a + m) + o;
    assert (l + h) + o == l + (o + h);
  }

  /** Nothing is lost and nothing is made up: what was there and what was pushed is what is there and what was popped. */
  lemma {:induction false} Conservation(run: seq<At>, db: Db, i: DbIndex, key: Bytes)
    requires DequeAt(db, key) && DequeRun(run, key)
    ensures multiset(ItemsAt(db, key)) + multiset(AllGiven(run)) ==
            multiset(ItemsAt(FinalDb(run, db, i), key)) + multiset(AllHanded(run, db, i))
  {
    hide Run, ItemsAt, DequeAt, Given, Handed;
    if run != [] {
      var t := run[0];
      var e := Run(db, i, t.op, t.now);
      BagOfOp(db, i, t.op, key, t.now);
      Conservation(run[1..], e.db, i, key);
      BagStep(ItemsAt(db, key), Given(t.op), ItemsAt(e.db, key), Handed(t.op, e.reply),
              AllGiven(run[1..]), ItemsAt(FinalDb(run, db, i), key), AllHanded(run[1..], e.db, i));
    }
  }

  /** With pushes on the right and pops on the left only, the list is a queue. */
  lemma {:induction false} FirstInFirstOut(run: seq<At>, db: Db, i: DbIndex, key: Bytes)
    requires DequeAt(db, key) && DequeRun(run, key)
    requires forall t :: t in run ==> t.op.RPush? || t.op.LPop?
    ensures AllHanded(run, db, i) + ItemsAt(FinalDb(run, db, i), key) == ItemsAt(db, key) + AllGiven(run)
  {
    hide RunPush, RunPop, ItemsAt, DequeAt;
    if run == [] {
      assert [] + ItemsAt(db, key) == ItemsAt(db, key) + [];
    } else {
      var t := run[0];
      var next := Run(db, i, t.op, t.now).db;
      if t.op.RPush? {
        PushItems(db, i, key, t.op.values, false);
      } else {
        PopItems(db, i, key, t.op.count, true, t.now);
      }
      FirstInFirstOut(run[1..], next, i, key);
      QueueStep(Handed(t.op, Run(db, i, t.op, t.now).reply), AllHanded(run[1..], next, i), ItemsAt(FinalDb(run, db, i), key),
                ItemsAt(db, key), ItemsAt(next, key), Given(t.op), AllGiven(run[1..]));
    }
  }

  lemma QueueStep(out: seq<Bytes>, later: seq<Bytes>, left: seq<Bytes>, before: seq<Bytes>, after: seq<Bytes>,
                  given: seq<Bytes>, more: seq<Bytes>)
    requires later + left == after + more
    requires (out == [] && after == before + given) || (given == [] && before == out + after)
    ensures (out + later) + left == before + (given + more)
  {
    assert (out + later) + left == out + (later + left);
    if given == [] {
      assert out + (after + more) == (out + after) + more && given + more == more;
    } else {
      assert out + (after + more) == after + more && (before + given) + more == before + (given + more);
    }
  }

  /** Pushing several values on the left at once is pushing them one after the other. */
  lemma {:induction false} PushManyIsPushEach(db: Db, i: DbIndex, key: Bytes, values: seq<Bytes>, now: int)
    requires values != [] && (key in db ==> db[key].data.List?)
    decreases |values|
    ensures RunPush(db, i, key, values, true).db == FinalDb(Singles(key, values, now), db, i)
  {
    hide Itoa, Spelling, Entry;
    var first := RunPush(db, i, key, [values[0]], true).db;
    assert Reversed([values[0]]) == [values[0]];
    assert Singles(key, values, now)[0].op == LPush(key, [values[0]]);
    if |values| > 1 {
      PushManyIsPushEach(first, i, key, values[1..], now);
      PushTwice(db, i, key, values);
    } else {
      assert values == [values[0]];
      assert Singles(key, values, now)[1..] == [];
    }
  }

  function Singles(key: Bytes, values: seq<Bytes>, now: int): (run: seq<At>)
    ensures |run| == |values|
  {
    if values == [] then [] else [At(LPush(key, [values[0]]), now)] + Singles(key, values[1..], now)
  }

  lemma PushTwice(db: Db, i: DbIndex, key: Bytes, values: seq<Bytes>)
    requires |values| > 1 && (key in db ==> db[key].data.List?)
    ensures RunPush(RunPush(db, i, key, [values[0]], true).db, i, key, values[1..], true).db == RunPush(db, i, key, values, true).db
  {
    hide Itoa, Spelling, Entry;
    var prior := ItemsAt(db, key);
    var deadline := if key in db then db[key].deadline else None;
    assert Reversed([values[0]]) == [values[0]];
    assert [values[0]] + [] == [values[0]] && Reversed(values) + [] == Reversed(values);
    assert Reversed(values) == Reversed(values[1..]) + [values[0]];
    assert Reversed(values[1..]) + ([values[0]] + prior) == Reversed(values) + prior;
    var mid := db[key := Val(List([values[0]] + prior), deadline)];
    assert RunPush(db, i, key, [values[0]], true).db == mid;
    assert mid[key := Val(List(Reversed(values) + prior), deadline)] == db[key := Val(List(Reversed(values) + prior), deadline)];
  }

  // ----- Index windows -----

  /** A window selects exactly the positions between its two bounds. */
  lemma WindowSelects(n: nat, start: int, stop: int, j: nat)
    requires j < n
    ensures var w := Window(n, start, stop);
            w.0 <= j <= w.1 <==> Position(n, start) <= j <= Position(n, stop)
  {
  }

  /** GETRANGE reads each byte between its bounds once, in order, for any text and any bounds. */
  lemma SubstringBytes(db: Db, key: Bytes, start: int, stop: int, now: int, j: nat)
    requires Live(db, key, now) && db[key].data.Str?
    ensures var text := db[key].data.text;
            var r := Substring(db, key, start, stop, now);
            var first := if Position(|text|, start) < 0 then 0 else Position(|text|, start);
            && r.One?
            && (j < |text| && Position(|text|, start) <= j <= Position(|text|, stop) ==>
                  j - first < |r.item| && r.item[j - first] == text[j])
            && (j < |r.item| ==> first + j < |text| && first + j <= Position(|text|, stop))
  {
  }

  /** Normalised bounds denote the same window again; this is what the replay of LTRIM relies on. */
  lemma WindowStable(n: nat, start: int, stop: int)
    ensures var w := Window(n, start, stop);
            w.0 <= w.1 ==> Window(n, w.0, w.1) == w
  {
  }

  /** LTRIM keeps what LRANGE would have shown; a key left without elements is gone. */
  lemma TrimThenRange(db: Db, i: DbIndex, key: Bytes, start: int, stop: int, now: int)
    requires Live(db, key, now) && db[key].data.List?
    ensures Range(RunTrim(db, i, key, start, stop, now).db, key, 0, -1, now) ==
            if Range(db, key, start, stop, now) == Many([]) then Nil else Range(db, key, start, stop, now)
  {
    hide Itoa, Spelling, Entry;
    var items := db[key].data.items;
    var w := Window(|items|, start, stop);
    if w.0 <= w.1 {
      var kept := items[w.0..w.1 + 1];
      assert kept[0..|kept|] == kept;
      assert |kept| > 0;
    }
  }
}
