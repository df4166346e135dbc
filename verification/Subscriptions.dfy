/** Who is subscribed to what: the broker's two indexes as values. */
module Subscriptions {
  import opened Base

  /** A connection is an opaque identity. */
  type Conn = nat

  /** The connections subscribed under a name. */
  type Table = map<Bytes, set<Conn>>

  /** Exact channels and glob patterns. */
  datatype Index = Index(channels: Table, patterns: Table)

  datatype Name = Channel(text: Bytes) | Pattern(text: Bytes)

  const NOBODY: Index := Index(map[], map[])

  // ----- One table -----

  function Subscribers(t: Table, name: Bytes): set<Conn> {
    if name in t then t[name] else {}
  }

  function Added(t: Table, name: Bytes, c: Conn): Table {
    t[name := Subscribers(t, name) + {c}]
  }

  function Dropped(t: Table, name: Bytes, c: Conn): Table {
    if name !in t then t
    else if t[name] - {c} == {} then t - {name}
    else t[name := t[name] - {c}]
  }

  function DroppedEverywhere(t: Table, c: Conn): Table {
    map name | name in t && t[name] - {c} != {} :: t[name] - {c}
  }

  /** The names a connection is found under. */
  function NamesOf(t: Table, c: Conn): (r: set<Bytes>)
    ensures forall name :: name in r <==> c in Subscribers(t, name)
  {
    set name | name in t && c in t[name]
  }

  predicate NoEmptySets(t: Table) {
    forall name :: name in t ==> t[name] != {}
  }

  // ----- Both tables -----

  function Enter(x: Index, c: Conn, n: Name): Index {
    match n
    case Channel(text) => x.(channels := Added(x.channels, text, c))
    case Pattern(text) => x.(patterns := Added(x.patterns, text, c))
  }

  function Leave(x: Index, c: Conn, n: Name): Index {
    match n
    case Channel(text) => x.(channels := Dropped(x.channels, text, c))
    case Pattern(text) => x.(patterns := Dropped(x.patterns, text, c))
  }

  function LeaveAll(x: Index, c: Conn): Index {
    Index(DroppedEverywhere(x.channels, c), DroppedEverywhere(x.patterns, c))
  }

  /** How many exact and pattern subscriptions a connection has. */
  function Count(x: Index, c: Conn): nat {
    |NamesOf(x.channels, c)| + |NamesOf(x.patterns, c)|
  }

  predicate Subscribed(x: Index, c: Conn) {
    NamesOf(x.channels, c) != {} || NamesOf(x.patterns, c) != {}
  }

  predicate Tidy(x: Index) {
    NoEmptySets(x.channels) && NoEmptySets(x.patterns)
  }

  // ----- Laws -----

  lemma CountTells(x: Index, c: Conn)
    ensures Count(x, c) == 0 <==> !Subscribed(x, c)
  {
  }

  /** Entering adds the one name to the one connection, and changes nobody else. */
  lemma EnterExactly(x: Index, c: Conn, n: Name, d: Conn)
    ensures var y := Enter(x, c, n);
            && NamesOf(y.channels, d) == NamesOf(x.channels, d) + (if d == c && n.Channel? then {n.text} else {})
            && NamesOf(y.patterns, d) == NamesOf(x.patterns, d) + (if d == c && n.Pattern? then {n.text} else {})
            && (Tidy(x) ==> Tidy(y))
  {
  }

  /** Leaving takes the one name from the one connection, and changes nobody else. */
  lemma LeaveExactly(x: Index, c: Conn, n: Name, d: Conn)
    ensures var y := Leave(x, c, n);
            && NamesOf(y.channels, d) == NamesOf(x.channels, d) - (if d == c && n.Channel? then {n.text} else {})
            && NamesOf(y.patterns, d) == NamesOf(x.patterns, d) - (if d == c && n.Pattern? then {n.text} else {})
            && (Tidy(x) ==> Tidy(y))
  {
  }

  lemma DroppedNames(t: Table, c: Conn, d: Conn)
    ensures NamesOf(DroppedEverywhere(t, c), d) == if d == c then {} else NamesOf(t, d)
    ensures NoEmptySets(DroppedEverywhere(t, c))
  {
  }

  /** Leaving everything takes every name from the one connection, and changes nobody else. */
  lemma LeaveAllExactly(x: Index, c: Conn, d: Conn)
    ensures var y := LeaveAll(x, c);
            && NamesOf(y.channels, d) == (if d == c then {} else NamesOf(x.channels, d))
            && NamesOf(y.patterns, d) == (if d == c then {} else NamesOf(x.patterns, d))
            && Tidy(y)
  {
    hide DroppedEverywhere, NamesOf;
    DroppedNames(x.channels, c, d);
    DroppedNames(x.patterns, c, d);
  }

  /** Subscribing anew adds one to the count, subscribing again nothing. */
  lemma EnterCount(x: Index, c: Conn, n: Name)
    ensures var has := if n.Channel? then n.text in NamesOf(x.channels, c) else n.text in NamesOf(x.patterns, c);
            Count(Enter(x, c, n), c) == Count(x, c) + (if has then 0 else 1)
  {
    EnterExactly(x, c, n, c);
    if n.Channel? {
      UnionOne(NamesOf(x.channels, c), n.text);
    } else {
      UnionOne(NamesOf(x.patterns, c), n.text);
    }
  }

  lemma UnionOne(s: set<Bytes>, e: Bytes)
    ensures |s + {e}| == |s| + (if e in s then 0 else 1)
    ensures s + {} == s
  {
    if e in s {
      assert s + {e} == s;
    }
  }

  /** Unsubscribing takes one from the count if the subscription was there. */
  lemma LeaveCount(x: Index, c: Conn, n: Name)
    ensures var has := if n.Channel? then n.text in NamesOf(x.channels, c) else n.text in NamesOf(x.patterns, c);
            Count(Leave(x, c, n), c) == Count(x, c) - (if has then 1 else 0)
  {
    LeaveExactly(x, c, n, c);
    if n.Channel? {
      MinusOne(NamesOf(x.channels, c), n.text);
    } else {
      MinusOne(NamesOf(x.patterns, c), n.text);
    }
  }

  lemma MinusOne(s: set<Bytes>, e: Bytes)
    ensures |s - {e}| == |s| - (if e in s then 1 else 0)
    ensures s - {} == s
  {
    if e in s {
      assert s - {e} + {e} == s;
    } else {
      assert s - {e} == s;
    }
  }

  // ----- Everybody at once -----

  lemma Entering(x: Index, c: Conn, n: Name)
    ensures forall d :: Subscribed(Enter(x, c, n), d) <==> d == c || Subscribed(x, d)
    ensures Tidy(x) ==> Tidy(Enter(x, c, n))
  {
    hide Enter, NamesOf, Tidy;
    EnterExactly(x, c, n, c);
    forall d
      ensures Subscribed(Enter(x, c, n), d) <==> d == c || Subscribed(x, d)
    {
      EnterExactly(x, c, n, d);
    }
  }

  lemma Leaving(x: Index, c: Conn, n: Name)
    ensures forall d :: d != c ==> (Subscribed(Leave(x, c, n), d) <==> Subscribed(x, d))
    ensures Subscribed(Leave(x, c, n), c) ==> Subscribed(x, c)
    ensures Tidy(x) ==> Tidy(Leave(x, c, n))
  {
    hide Leave, NamesOf, Tidy;
    LeaveExactly(x, c, n, c);
    forall d | d != c
      ensures Subscribed(Leave(x, c, n), d) <==> Subscribed(x, d)
    {
      LeaveExactly(x, c, n, d);
    }
  }

  lemma LeavingAll(x: Index, c: Conn)
    ensures forall d :: Subscribed(LeaveAll(x, c), d) <==> d != c && Subscribed(x, d)
    ensures Tidy(LeaveAll(x, c))
  {
    hide LeaveAll, NamesOf, Tidy;
    LeaveAllExactly(x, c, c);
    forall d
      ensures Subscribed(LeaveAll(x, c), d) <==> d != c && Subscribed(x, d)
    {
      LeaveAllExactly(x, c, d);
    }
  }

  // ----- Who needs a delivery channel -----

  /** No empty set is kept, and the owners of delivery channels are exactly the subscribed. */
  ghost predicate Served(x: Index, owners: set<Conn>) {
    Tidy(x) && forall c :: c in owners <==> Subscribed(x, c)
  }

  lemma ServedCount(x: Index, owners: set<Conn>, c: Conn)
    requires Served(x, owners)
    ensures c in owners <==> Count(x, c) > 0
  {
    hide Tidy, Count;
    CountTells(x, c);
  }

  lemma EnterServed(x: Index, owners: set<Conn>, c: Conn, n: Name)
    requires Served(x, owners)
    ensures Served(Enter(x, c, n), owners + {c})
  {
    hide Enter, Tidy, Subscribed;
    Entering(x, c, n);
  }

  lemma LeaveServed(x: Index, owners: set<Conn>, c: Conn, n: Name)
    requires Served(x, owners)
    ensures var y := Leave(x, c, n); Served(y, if Count(y, c) == 0 then owners - {c} else owners)
  {
    hide Leave, Tidy, Subscribed, Count;
    Leaving(x, c, n);
    CountTells(Leave(x, c, n), c);
  }

  lemma LeaveAllServed(x: Index, owners: set<Conn>, c: Conn)
    requires Served(x, owners)
    ensures Served(LeaveAll(x, c), owners - {c})
  {
    hide LeaveAll, Tidy, Subscribed;
    LeavingAll(x, c);
  }
}
