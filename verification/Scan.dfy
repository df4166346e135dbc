/** SCAN: pages of the live keys, and what following the cursor to its end visits. */
module Scan {
  import opened Base
  import opened Keyspace
  import opened StoreHeap

  /** A compiled pattern, where matching is left open; the empty pattern and "*" are not compiled at all. */
  datatype Pattern = Everything | Compiled(matches: Bytes -> bool) | Malformed

  /** Panic stands for slice bounds out of range. */
  datatype Page = Page(next: int, keys: seq<Bytes>) | BadPattern | Panic

  const DEFAULT_COUNT: int := 10

  predicate Matches(p: Pattern, key: Bytes) {
    p.Compiled? ==> p.matches(key)
  }

  function Matching(keys: seq<Bytes>, p: Pattern): (r: seq<Bytes>)
    ensures forall k :: k in r <==> k in keys && Matches(p, k)
  {
    if keys == [] then [] else (if Matches(p, keys[0]) then [keys[0]] else []) + Matching(keys[1..], p)
  }

  /** The keys of an iteration order whose deadline has not passed. */
  function LiveOf(order: seq<Bytes>, db: Db, now: int): (r: seq<Bytes>)
    ensures forall k :: k in r <==> k in order && Live(db, k, now)
  {
    if order == [] then []
    else LiveOf(order[..|order| - 1], db, now) + (if Live(db, order[|order| - 1], now) then [order[|order| - 1]] else [])
  }

  function PageOf(keys: seq<Bytes>, cursor: int, p: Pattern, count: int): Page {
    if cursor < 0 || cursor >= |keys| then Page(0, [])
    else
      var end := Wrap64(cursor + if count <= 0 then DEFAULT_COUNT else count);
      var stop := if end > |keys| then |keys| else end;
      if stop < cursor then Panic
      else if p.Malformed? then BadPattern
      else Page(if stop >= |keys| then 0 else stop, Matching(keys[cursor..stop], p))
  }

  /** An iteration of a Go map: every key once, in any order. */
  ghost predicate Enumerates(order: seq<Bytes>, keys: set<Bytes>) {
    && (forall k :: k in order <==> k in keys)
    && (forall a, b :: 0 <= a < b < |order| ==> order[a] != order[b])
  }

  /** The loop over the map, in the order given. */
  method LiveKeys(s: Store, i: DbIndex, order: seq<Bytes>, now: int) returns (keys: seq<Bytes>)
    requires s.Valid() && Enumerates(order, s.data[i].Keys)
    ensures keys == LiveOf(order, s.model[i], now)
  {
    keys := [];
    for a := 0 to |order|
      invariant keys == LiveOf(order[..a], s.model[i], now)
    {
      assert order[a] in order && s.Holds(i, order[a]);
      assert order[..a + 1][..a] == order[..a];
      if !s.data[i][order[a]].IsExpired(now) {
        keys := keys + [order[a]];
      }
    }
    assert order[..|order|] == order;
  }

  /** The loop over a page with a compiled pattern. */
  method Select(part: seq<Bytes>, p: Pattern) returns (matched: seq<Bytes>)
    requires p.Compiled?
    ensures matched == Matching(part, p)
  {
    hide Matching;
    matched := [];
    assert part[0..] == part;
    for a := 0 to |part|
      invariant matched + Matching(part[a..], p) == Matching(part, p)
    {
      ghost var later := Matching(part[a + 1..], p);
      MatchingStep(part, a, p);
      if p.matches(part[a]) {
        assert matched + ([part[a]] + later) == (matched + [part[a]]) + later;
        matched := matched + [part[a]];
      }
    }
    MatchingNothing(p);
    assert part[|part|..] == [] && matched + [] == matched;
  }

  lemma MatchingStep(part: seq<Bytes>, a: nat, p: Pattern)
    requires a < |part| && p.Compiled?
    ensures var later := Matching(part[a + 1..], p);
            Matching(part[a..], p) == if p.matches(part[a]) then [part[a]] + later else later
  {
    assert part[a..][1..] == part[a + 1..];
  }

  method ScanKeys(s: Store, i: DbIndex, cursor: int, p: Pattern, count: int, order: seq<Bytes>, now: int) returns (page: Page)
    requires s.Valid() && Enumerates(order, s.data[i].Keys)
    ensures page == PageOf(LiveOf(order, s.model[i], now), cursor, p, count)
  {
    hide LiveOf, Matching, Wrap64;
    var keys := LiveKeys(s, i, order, now);
    if cursor < 0 || cursor >= |keys| {
      return Page(0, []);
    }
    var size := if count <= 0 then DEFAULT_COUNT else count;
    var end := Wrap64(cursor + size);
    if end > |keys| {
      end := |keys|;
    }
    if end < cursor {
      return Panic;
    }
    if p.Malformed? {
      return BadPattern;
    }
    var matched := keys[cursor..end];
    if p.Compiled? {
      matched := Select(matched, p);
    } else {
      MatchingEverything(matched);
    }
    page := Page(if end >= |keys| then 0 else end, matched);
  }

  lemma {:induction false} MatchingEverything(keys: seq<Bytes>)
    ensures Matching(keys, Everything) == keys
  {
    if keys != [] {
      MatchingEverything(keys[1..]);
    }
  }

  /** A page is cut out of bounds exactly when the cursor lies inside and cursor plus count passes 63 bits. */
  lemma PanicsExactly(keys: seq<Bytes>, cursor: int, p: Pattern, count: int)
    requires InInt64(cursor) && InInt64(count) && |keys| <= MAX_INT64 - DEFAULT_COUNT
    ensures PageOf(keys, cursor, p, count).Panic? <==> 0 <= cursor < |keys| && cursor + count > MAX_INT64
  {
  }

  /** Without a count, or with one that is not positive, a page is ten keys. */
  lemma TenKeys(keys: seq<Bytes>, cursor: int, p: Pattern, count: int)
    requires count <= 0
    ensures PageOf(keys, cursor, p, count) == PageOf(keys, cursor, p, 10)
  {
  }

  /** A cursor outside the keys ends the scan; a pattern that does not compile is an error. */
  lemma ScanFails(keys: seq<Bytes>, cursor: int, p: Pattern, count: int)
    ensures cursor < 0 || cursor >= |keys| ==> PageOf(keys, cursor, p, count) == Page(0, [])
    ensures p.Malformed? && 0 <= cursor < |keys| < MAX_KEYS && 0 < count < MAX_KEYS ==> PageOf(keys, cursor, p, count) == BadPattern
  {
  }

  // ----- Following the cursor -----

  /** A slice of strings takes 16 bytes an element, so it is never longer than this. */
  const MAX_KEYS: nat := 0x0800_0000_0000_0000

  /** The live keys as each call enumerates them; the database does not change, so their number stays. */
  ghost predicate Steady(orders: nat -> seq<Bytes>, n: nat) {
    n < MAX_KEYS && forall c :: |orders(c)| == n
  }

  /** Where the page that starts at a cursor stops. */
  function Stop(n: nat, cursor: nat, count: int): int {
    if cursor + count > n then n else cursor + count
  }

  /** On the way from cursor 0 no page is cut out of bounds. */
  lemma PageStep(keys: seq<Bytes>, cursor: nat, p: Pattern, count: int)
    requires |keys| < MAX_KEYS && !p.Malformed? && 0 < count <= MAX_INT64
    requires cursor == 0 || (cursor < |keys| && count < |keys|)
    ensures var stop := Stop(|keys|, cursor, count);
            && cursor <= stop <= |keys|
            && PageOf(keys, cursor, p, count) == Page(if stop == |keys| then 0 else stop, Matching(keys[cursor..stop], p))
  {
    hide Matching;
    assert Wrap64(cursor + count) == cursor + count;
    assert |keys| == 0 ==> keys[0..0] == [] && Matching([], p) == [] by { MatchingNothing(p); }
  }

  lemma MatchingNothing(p: Pattern)
    ensures Matching([], p) == []
  {
  }

  /** The pages of a client that passes each returned cursor to the next call until it is 0. */
  ghost function Follow(orders: nat -> seq<Bytes>, n: nat, call: nat, cursor: nat, p: Pattern, count: int): (pages: seq<seq<Bytes>>)
    requires Steady(orders, n) && !p.Malformed? && 0 < count <= MAX_INT64
    requires cursor == 0 || (cursor < n && count < n)
    decreases n - cursor
  {
    PageStep(orders(call), cursor, p, count);
    var page := PageOf(orders(call), cursor, p, count);
    if page.next == 0 then [page.keys] else [page.keys] + Follow(orders, n, call + 1, page.next, p, count)
  }

  function Total(pages: seq<seq<Bytes>>): nat {
    if pages == [] then 0 else |pages[0]| + Total(pages[1..])
  }

  function Joined(pages: seq<seq<Bytes>>): seq<Bytes> {
    if pages == [] then [] else pages[0] + Joined(pages[1..])
  }

  /** The iteration ends after the ceiling of n/count calls, or one if there are no keys, and before matching its pages hold n keys. */
  lemma {:induction false} FollowEnds(orders: nat -> seq<Bytes>, n: nat, call: nat, cursor: nat, count: int)
    requires Steady(orders, n) && 0 < count <= MAX_INT64
    requires cursor == 0 || (cursor < n && count < n)
    decreases n - cursor
    ensures var pages := Follow(orders, n, call, cursor, Everything, count);
            && Total(pages) == n - cursor
            && (if n == 0 then |pages| == 1 else n - cursor <= |pages| * count < n - cursor + count)
  {
    hide PageOf, Matching;
    var keys := orders(call);
    var stop := Stop(n, cursor, count);
    PageStep(keys, cursor, Everything, count);
    MatchingEverything(keys[cursor..stop]);
    var page := PageOf(keys, cursor, Everything, count);
    assert page.keys == keys[cursor..stop];
    if stop < n {
      FollowEnds(orders, n, call + 1, stop, count);
      var rest := Follow(orders, n, call + 1, stop, Everything, count);
      assert Follow(orders, n, call, cursor, Everything, count) == [page.keys] + rest;
      assert ([page.keys] + rest)[1..] == rest;
      assert (1 + |rest|) * count == count + |rest| * count;
    } else {
      assert Follow(orders, n, call, cursor, Everything, count) == [page.keys];
      assert Total([page.keys]) == |page.keys| + Total([]);
    }
  }

  lemma {:induction false} MatchingAppend(a: seq<Bytes>, b: seq<Bytes>, p: Pattern)
    ensures Matching(a + b, p) == Matching(a, p) + Matching(b, p)
  {
    if a == [] {
      assert a + b == b;
    } else {
      assert (a + b)[1..] == a[1..] + b;
      MatchingAppend(a[1..], b, p);
    }
  }

  /** If every call enumerates alike, the pages make up the matching keys from the cursor on, in order. */
  lemma {:induction false} FollowJoins(keys: seq<Bytes>, call: nat, cursor: nat, p: Pattern, count: int)
    requires |keys| < MAX_KEYS && !p.Malformed? && 0 < count <= MAX_INT64
    requires cursor == 0 || (cursor < |keys| && count < |keys|)
    decreases |keys| - cursor
    ensures Joined(Follow(_ => keys, |keys|, call, cursor, p, count)) == Matching(keys[cursor..], p)
  {
    hide PageOf, Matching;
    var stop := Stop(|keys|, cursor, count);
    var part := Matching(keys[cursor..stop], p);
    PageStep(keys, cursor, p, count);
    if stop == |keys| {
      assert Joined([part]) == part + Joined([]);
      assert keys[cursor..stop] == keys[cursor..];
    } else {
      FollowJoins(keys, call + 1, stop, p, count);
      var rest := Follow(_ => keys, |keys|, call + 1, stop, p, count);
      assert Follow(_ => keys, |keys|, call, cursor, p, count) == [part] + rest;
      assert ([part] + rest)[1..] == rest;
      assert keys[cursor..] == keys[cursor..stop] + keys[stop..];
      MatchingAppend(keys[cursor..stop], keys[stop..], p);
    }
  }

  lemma {:induction false} MatchingDistinct(keys: seq<Bytes>, p: Pattern)
    requires forall a, b :: 0 <= a < b < |keys| ==> keys[a] != keys[b]
    ensures forall a, b :: 0 <= a < b < |Matching(keys, p)| ==> Matching(keys, p)[a] != Matching(keys, p)[b]
  {
    if keys != [] {
      MatchingDistinct(keys[1..], p);
    }
  }

  lemma {:induction false} LiveDistinct(order: seq<Bytes>, db: Db, now: int)
    requires forall a, b :: 0 <= a < b < |order| ==> order[a] != order[b]
    ensures forall a, b :: 0 <= a < b < |LiveOf(order, db, now)| ==> LiveOf(order, db, now)[a] != LiveOf(order, db, now)[b]
  {
    if order != [] {
      LiveDistinct(order[..|order| - 1], db, now);
    }
  }

  /** On an unchanged database whose iteration order repeats, a full scan returns every live matching key exactly once and nothing else. */
  lemma ScanIsComplete(db: Db, order: seq<Bytes>, p: Pattern, count: int, now: int)
    requires Enumerates(order, db.Keys) && |db| < MAX_KEYS && !p.Malformed? && 0 < count <= MAX_INT64
    ensures |LiveOf(order, db, now)| < MAX_KEYS
    ensures var keys := LiveOf(order, db, now);
            var seen := Joined(Follow(_ => keys, |keys|, 0, 0, p, count));
            && (forall k :: k in seen <==> Live(db, k, now) && Matches(p, k))
            && (forall a, b :: 0 <= a < b < |seen| ==> seen[a] != seen[b])
  {
    var keys := LiveOf(order, db, now);
    LiveDistinct(order, db, now);
    DistinctSize(keys, db.Keys);
    FollowJoins(keys, 0, 0, p, count);
    assert keys[0..] == keys;
    MatchingDistinct(keys, p);
  }

  lemma {:induction false} DistinctSize(keys: seq<Bytes>, within: set<Bytes>)
    requires forall a, b :: 0 <= a < b < |keys| ==> keys[a] != keys[b]
    requires forall k :: k in keys ==> k in within
    ensures |keys| <= |within|
  {
    if keys != [] {
      DistinctSize(keys[1..], within - {keys[0]});
    }
  }
}
