/** Field maps of hashes, and their flattening into sorted field/value pairs. */
module Fields {
  import opened Base

  type FieldMap = map<Bytes, Bytes>

  const NO_FIELDS: FieldMap := map[]

  // ----- Byte-wise string order, as sort.Strings uses it -----

  predicate LexLe(a: Bytes, b: Bytes) {
    a == [] || (b != [] && (a[0] < b[0] || (a[0] == b[0] && LexLe(a[1..], b[1..]))))
  }

  lemma {:induction false} LexTotal(a: Bytes, b: Bytes)
    ensures LexLe(a, b) || LexLe(b, a)
  {
    if a != [] && b != [] {
      LexTotal(a[1..], b[1..]);
    }
  }

  lemma {:induction false} LexAntisymmetric(a: Bytes, b: Bytes)
    requires LexLe(a, b) && LexLe(b, a)
    ensures a == b
  {
    if a != [] {
      LexAntisymmetric(a[1..], b[1..]);
      assert a == [a[0]] + a[1..] && b == [b[0]] + b[1..];
    }
  }

  lemma {:induction false} LexTransitive(a: Bytes, b: Bytes, c: Bytes)
    requires LexLe(a, b) && LexLe(b, c)
    ensures LexLe(a, c)
  {
    if a != [] && a[0] == b[0] == c[0] {
      LexTransitive(a[1..], b[1..], c[1..]);
    }
  }

  predicate IsLeast(m: Bytes, s: set<Bytes>) {
    m in s && forall k :: k in s ==> LexLe(m, k)
  }

  lemma {:induction false} LeastExists(s: set<Bytes>)
    requires s != {}
    ensures exists m :: IsLeast(m, s)
  {
    var x :| x in s;
    LexTotal(x, x);
    if s == {x} {
      assert IsLeast(x, s);
    } else {
      var rest := s - {x};
      LeastExists(rest);
      var m :| IsLeast(m, rest);
      LexTotal(x, m);
      if LexLe(m, x) {
        assert IsLeast(m, s);
      } else {
        forall k | k in s
          ensures LexLe(x, k)
        {
          if k != x {
            LexTransitive(x, m, k);
          }
        }
        assert IsLeast(x, s);
      }
    }
  }

  lemma LeastUnique(a: Bytes, b: Bytes, s: set<Bytes>)
    requires IsLeast(a, s) && IsLeast(b, s)
    ensures a == b
  {
    LexAntisymmetric(a, b);
  }

  // ----- Sorting the keys -----

  function Least(s: set<Bytes>): (m: Bytes)
    requires s != {}
    ensures IsLeast(m, s)
  {
    LeastExists(s);
    assert forall a, b :: IsLeast(a, s) && IsLeast(b, s) ==> a == b by {
      forall a, b | IsLeast(a, s) && IsLeast(b, s) ensures a == b { LeastUnique(a, b, s); }
    }
    var m :| IsLeast(m, s);
    m
  }

  /** The elements of s in ascending order. */
  function Sorted(s: set<Bytes>): (keys: seq<Bytes>)
    ensures |keys| == |s|
    ensures forall k :: k in keys <==> k in s
  {
    if s == {} then [] else
    var m := Least(s);
    [m] + Sorted(s - {m})
  }

  ghost predicate Ascending(keys: seq<Bytes>) {
    forall i, j :: 0 <= i < j < |keys| ==> LexLe(keys[i], keys[j]) && keys[i] != keys[j]
  }

  lemma AscendCons(m: Bytes, tail: seq<Bytes>)
    requires Ascending(tail) && forall k :: k in tail ==> LexLe(m, k) && m != k
    ensures Ascending([m] + tail)
  {
    hide LexLe;
    var keys := [m] + tail;
    forall i, j | 0 <= i < j < |keys|
      ensures LexLe(keys[i], keys[j]) && keys[i] != keys[j]
    {
      assert keys[j] == tail[j - 1] && tail[j - 1] in tail;
    }
  }

  lemma {:induction false} SortedAscends(s: set<Bytes>)
    ensures Ascending(Sorted(s))
  {
    if s != {} {
      var m := Least(s);
      SortedAscends(s - {m});
      AscendCons(m, Sorted(s - {m}));
    }
  }

  lemma HeadIsLeast(keys: seq<Bytes>, s: set<Bytes>)
    requires keys != [] && Ascending(keys) && forall k :: k in keys <==> k in s
    ensures keys[0] in s && keys[0] == Least(s)
  {
    assert keys[0] in s;
    forall k | k in s
      ensures LexLe(keys[0], k)
    {
      LexTotal(k, k);
      assert k in keys;
    }
    LeastUnique(keys[0], Least(s), s);
  }

  lemma TailKeys(keys: seq<Bytes>, s: set<Bytes>)
    requires keys != [] && Ascending(keys) && forall k :: k in keys <==> k in s
    ensures forall k :: k in keys[1..] <==> k in s - {keys[0]}
  {
    forall k
      ensures k in keys[1..] <==> k in s - {keys[0]}
    {
      if k in s - {keys[0]} {
        assert k in keys;
      }
    }
  }

  /** Whatever order the keys were collected in, sorting them gives the same sequence. */
  lemma {:induction false} SortedUnique(keys: seq<Bytes>, s: set<Bytes>)
    requires Ascending(keys) && forall k :: k in keys <==> k in s
    ensures keys == Sorted(s)
  {
    if keys == [] {
      assert s == {};
    } else {
      HeadIsLeast(keys, s);
      TailKeys(keys, s);
      assert Ascending(keys[1..]);
      SortedUnique(keys[1..], s - {keys[0]});
    }
  }

  // ----- Pairs -----

  function Pairs(keys: seq<Bytes>, m: FieldMap): (parts: seq<Bytes>)
    requires forall k :: k in keys ==> k in m
    ensures |parts| == 2 * |keys|
  {
    if keys == [] then [] else [keys[0], m[keys[0]]] + Pairs(keys[1..], m)
  }

  /** The field/value pairs of a hash write, sorted by field. */
  function Flatten(m: FieldMap): (parts: seq<Bytes>)
    ensures |parts| == 2 * |m|
  {
    Pairs(Sorted(m.Keys), m)
  }

  lemma FlattenShape(m: FieldMap)
    requires m != map[]
    ensures |Flatten(m)| >= 2 && |Flatten(m)| % 2 == 0
  {
    var f :| f in m;
    assert m.Keys != {};
  }

  /** Reading pairs from left to right; a repeated field keeps its last value. */
  function ReadPairs(parts: seq<Bytes>): FieldMap {
    if |parts| < 2 then map[] else map[parts[0] := parts[1]] + ReadPairs(parts[2..])
  }

  lemma {:induction false} ReadPairsOf(keys: seq<Bytes>, m: FieldMap)
    requires forall k :: k in keys ==> k in m
    ensures ReadPairs(Pairs(keys, m)) == map k | k in keys :: m[k]
  {
    if keys != [] {
      var parts := Pairs(keys, m);
      assert parts[2..] == Pairs(keys[1..], m);
      ReadPairsOf(keys[1..], m);
    }
  }

  /** Flattening a field map and reading it back is the identity. */
  lemma ReadFlatten(m: FieldMap)
    ensures ReadPairs(Flatten(m)) == m
  {
    ReadPairsOf(Sorted(m.Keys), m);
  }

  // ----- Writing and deleting fields one at a time -----

  function WithoutFields(h: FieldMap, names: seq<Bytes>): FieldMap {
    h - (set f | f in names)
  }

  ghost function Part(fields: FieldMap, done: set<Bytes>): FieldMap {
    map f | f in done && f in fields :: fields[f]
  }

  lemma PartEnds(hash: FieldMap, fields: FieldMap)
    ensures hash + Part(fields, {}) == hash && Part(fields, fields.Keys) == fields
  {
  }

  lemma PartStep(hash: FieldMap, fields: FieldMap, done: set<Bytes>, f: Bytes)
    requires f in fields && f !in done
    ensures hash + Part(fields, done + {f}) == (hash + Part(fields, done))[f := fields[f]]
    ensures f in hash + Part(fields, done) <==> f in hash
  {
    assert Part(fields, done + {f}) == Part(fields, done)[f := fields[f]];
  }

  lemma CountAdded(done: set<Bytes>, known: set<Bytes>, f: Bytes)
    requires f !in done
    ensures |(done + {f}) - known| == |done - known| + if f in known then 0 else 1
  {
    if f in known {
      assert (done + {f}) - known == done - known;
    } else {
      assert (done + {f}) - known == (done - known) + {f};
    }
  }

  lemma WithoutNone(h: FieldMap)
    ensures WithoutFields(h, []) == h
  {
  }

  lemma DropStep(hash: FieldMap, names: seq<Bytes>, n: nat)
    requires n < |names|
    ensures WithoutFields(hash, names[..n + 1]) == WithoutFields(hash, names[..n]) - {names[n]}
  {
    assert names[..n + 1] == names[..n] + [names[n]];
  }

  lemma CountRemoved(all: set<Bytes>, left: set<Bytes>, f: Bytes)
    requires left <= all
    ensures |all - (left - {f})| == |all - left| + if f in left then 1 else 0
    ensures f !in left ==> left - {f} == left
  {
    if f in left {
      assert all - (left - {f}) == (all - left) + {f};
    } else {
      assert left - {f} == left;
    }
  }

  lemma KeysLeft(r: FieldMap, f: Bytes)
    ensures (r - {f}).Keys == r.Keys - {f}
    ensures f !in r ==> r - {f} == r
  {
  }

  lemma MoveOne(todo: set<Bytes>, done: set<Bytes>, f: Bytes)
    requires f in todo && todo !! done
    ensures f !in done && todo - {f} !! done + {f} && (todo - {f}) + (done + {f}) == todo + done
  {
  }

  /** The loop over the written fields, in whatever order the map yields them. */
  method WriteFields(hash: FieldMap, fields: FieldMap) returns (r: FieldMap, added: nat)
    ensures r == hash + fields && added == |fields.Keys - hash.Keys|
  {
    hide Part;
    var todo := fields.Keys;
    r, added := hash, 0;
    ghost var done: set<Bytes> := {};
    PartEnds(hash, fields);
    assert done - hash.Keys == {};
    while todo != {}
      invariant todo !! done && todo + done == fields.Keys
      invariant r == hash + Part(fields, done) && added == |done - hash.Keys|
      decreases todo
    {
      var f :| f in todo;
      PartStep(hash, fields, done, f);
      CountAdded(done, hash.Keys, f);
      if f !in r {
        added := added + 1;
      }
      r := r[f := fields[f]];
      MoveOne(todo, done, f);
      todo, done := todo - {f}, done + {f};
    }
    assert done == fields.Keys;
  }

  /** The loop over the deleted fields; a repeated field is found only once. */
  method DropFields(hash: FieldMap, names: seq<Bytes>) returns (r: FieldMap, deleted: nat)
    ensures r == WithoutFields(hash, names) && deleted == |hash.Keys - r.Keys|
  {
    WithoutNone(hash);
    hide WithoutFields;
    r, deleted := hash, 0;
    assert hash.Keys - r.Keys == {};
    for n := 0 to |names|
      invariant r.Keys <= hash.Keys && r == WithoutFields(hash, names[..n]) && deleted == |hash.Keys - r.Keys|
    {
      DropStep(hash, names, n);
      CountRemoved(hash.Keys, r.Keys, names[n]);
      KeysLeft(r, names[n]);
      if names[n] in r {
        r := r - {names[n]};
        deleted := deleted + 1;
      }
    }
    assert names[..|names|] == names;
  }
}
