/** One publish: whom it addresses, what each delivery queue ends up holding, and the number it returns. */
module Publishing {
  import opened Base
  import opened Resp
  import opened LogFile
  import opened Subscriptions
  import opened PushFrames

  const CAPACITY: nat := 64

  /** What the open delivery channels hold, by owner. */
  type Queues = map<Conn, seq<Bytes>>

  /** Whether a pattern matches a channel; a malformed pattern matches none. */
  type Glob = (Bytes, Bytes) -> bool

  /** One delivery: as an exact subscriber, or through a pattern. */
  datatype Attempt = Attempt(conn: Conn, via: Option<Bytes>)

  datatype Message = Message(channel: Bytes, text: Bytes)

  predicate Exact(x: Index, m: Message, c: Conn) {
    c in Subscribers(x.channels, m.channel)
  }

  predicate Addressed(x: Index, glob: Glob, m: Message, a: Attempt) {
    match a.via
    case None => Exact(x, m, a.conn)
    case Some(p) => glob(p, m.channel) && a.conn in Subscribers(x.patterns, p)
  }

  /** The deliveries of one publish in some map iteration order: exact subscribers first, each delivery once. */
  ghost predicate Fanout(x: Index, glob: Glob, m: Message, todo: seq<Attempt>) {
    && (forall a :: a in todo <==> Addressed(x, glob, m, a))
    && Orderly(todo)
  }

  ghost predicate Orderly(todo: seq<Attempt>) {
    && (forall i, j :: 0 <= i < j < |todo| ==> todo[i] != todo[j])
    && (forall i, j :: 0 <= i < j < |todo| && todo[j].via.None? ==> todo[i].via.None?)
  }

  // ----- Delivering -----

  predicate Accepts(q: Queues, c: Conn) {
    c in q && |q[c]| < CAPACITY
  }

  function Offer(q: Queues, c: Conn, payload: Bytes): Queues {
    if Accepts(q, c) then q[c := q[c] + [payload]] else q
  }

  function Payload(a: Attempt, m: Message): Bytes {
    Frame(a.via, m.channel, m.text)
  }

  function After(q: Queues, todo: seq<Attempt>, m: Message): Queues {
    if todo == [] then q
    else
      var n := |todo| - 1;
      Offer(After(q, todo[..n], m), todo[n].conn, Payload(todo[n], m))
  }

  /** The counter of accepted deliveries; a connection already addressed exactly is not counted again. */
  function Received(q: Queues, x: Index, todo: seq<Attempt>, m: Message): nat {
    if todo == [] then 0
    else
      var n, a := |todo| - 1, todo[|todo| - 1];
      Received(q, x, todo[..n], m) +
      if Accepts(After(q, todo[..n], m), a.conn) && (a.via.None? || !Exact(x, m, a.conn)) then 1 else 0
  }

  /** The payloads addressed to one connection, in delivery order. */
  function PayloadsFor(todo: seq<Attempt>, m: Message, c: Conn): seq<Bytes> {
    if todo == [] then []
    else
      var n := |todo| - 1;
      PayloadsFor(todo[..n], m, c) + if todo[n].conn == c then [Payload(todo[n], m)] else []
  }

  function Min(a: nat, b: nat): nat {
    if a < b then a else b
  }

  function Room(q: Queues, c: Conn): (r: nat) {
    if c in q && |q[c]| < 64 then 64 - |q[c]| else 0
  }

  /** Each queue takes the payloads addressed to its owner, in order, until it is full. */
  lemma {:induction false} QueueAfter(q: Queues, todo: seq<Attempt>, m: Message, c: Conn)
    ensures After(q, todo, m).Keys == q.Keys
    ensures c in q ==>
      var mine := PayloadsFor(todo, m, c);
      After(q, todo, m)[c] == q[c] + mine[..Min(Room(q, c), |mine|)]
  {
    hide Payload;
    if todo == [] {
      assert c in q ==> q[c] + [] == q[c];
    } else {
      var n := |todo| - 1;
      QueueAfter(q, todo[..n], m, c);
      if c in q {
        var was, mine := PayloadsFor(todo[..n], m, c), PayloadsFor(todo, m, c);
        var room := Room(q, c);
        if todo[n].conn == c && |was| < room {
          assert (q[c] + was) + [Payload(todo[n], m)] == q[c] + (was + [Payload(todo[n], m)]);
          assert was[..|was|] == was && mine[..|mine|] == mine;
        } else {
          assert mine[..Min(room, |mine|)] == was[..Min(room, |was|)];
        }
      }
    }
  }

  // ----- Building up a fan-out, way by way -----

  /** The deliveries made so far are those by the ways in vias. */
  ghost predicate Covers(done: seq<Attempt>, x: Index, glob: Glob, m: Message, vias: set<Option<Bytes>>) {
    Orderly(done) && forall a :: a in done <==> a.via in vias && Addressed(x, glob, m, a)
  }

  /** And those by way v, but for the connections in rest. */
  ghost predicate Turned(done: seq<Attempt>, x: Index, glob: Glob, m: Message, vias: set<Option<Bytes>>, v: Option<Bytes>, rest: set<Conn>) {
    && Orderly(done)
    && forall a :: a in done <==> Addressed(x, glob, m, a) && (a.via in vias || (a.via == v && a.conn !in rest))
  }

  lemma TurnStarts(done: seq<Attempt>, x: Index, glob: Glob, m: Message, vias: set<Option<Bytes>>, v: Option<Bytes>, subs: set<Conn>)
    requires Covers(done, x, glob, m, vias) && forall c :: Addressed(x, glob, m, Attempt(c, v)) ==> c in subs
    ensures Turned(done, x, glob, m, vias, v, subs)
  {
    hide Orderly, Addressed;
    assert forall a: Attempt :: a == Attempt(a.conn, a.via);
  }

  lemma TurnOn(done: seq<Attempt>, x: Index, glob: Glob, m: Message, vias: set<Option<Bytes>>, v: Option<Bytes>, rest: set<Conn>, c: Conn)
    requires Turned(done, x, glob, m, vias, v, rest) && c in rest && Addressed(x, glob, m, Attempt(c, v))
    requires v !in vias && (v.None? ==> vias == {})
    ensures Turned(done + [Attempt(c, v)], x, glob, m, vias, v, rest - {c})
  {
    hide Addressed;
    var a := Attempt(c, v);
    assert a !in done;
    assert v.None? ==> forall i :: 0 <= i < |done| ==> done[i] in done && done[i].via.None?;
    assert Orderly(done + [a]);
    hide Orderly;
    forall b: Attempt
      ensures b in done + [a] <==> Addressed(x, glob, m, b) && (b.via in vias || (b.via == v && b.conn !in rest - {c}))
    {
    }
  }

  lemma TurnEnds(done: seq<Attempt>, x: Index, glob: Glob, m: Message, vias: set<Option<Bytes>>, v: Option<Bytes>)
    requires Turned(done, x, glob, m, vias, v, {})
    ensures Covers(done, x, glob, m, vias + {v})
  {
    hide Orderly, Addressed;
  }

  /** A pattern that does not match adds nothing. */
  lemma TurnSkipped(done: seq<Attempt>, x: Index, glob: Glob, m: Message, vias: set<Option<Bytes>>, v: Option<Bytes>)
    requires Covers(done, x, glob, m, vias) && forall c :: !Addressed(x, glob, m, Attempt(c, v))
    ensures Covers(done, x, glob, m, vias + {v})
  {
    TurnStarts(done, x, glob, m, vias, v, {});
    TurnEnds(done, x, glob, m, vias, v);
  }

  lemma AllTurned(done: seq<Attempt>, x: Index, glob: Glob, m: Message, vias: set<Option<Bytes>>)
    requires Covers(done, x, glob, m, vias) && None in vias && forall p :: p in x.patterns ==> Some(p) in vias
    ensures Fanout(x, glob, m, done)
  {
    hide Orderly;
  }

  // ----- How often a connection is addressed -----

  /** The ways a publish reaches one connection: its exact subscription and each matching pattern. */
  function Vias(x: Index, glob: Glob, m: Message, c: Conn): set<Option<Bytes>> {
    (if Exact(x, m, c) then {None} else {}) +
    set p | p in x.patterns && glob(p, m.channel) && c in x.patterns[p] :: Some(p)
  }

  function Seen(todo: seq<Attempt>, c: Conn): set<Option<Bytes>> {
    set a | a in todo && a.conn == c :: a.via
  }

  lemma {:induction false} HitsSeen(todo: seq<Attempt>, m: Message, c: Conn)
    requires forall i, j :: 0 <= i < j < |todo| ==> todo[i] != todo[j]
    ensures |PayloadsFor(todo, m, c)| == |Seen(todo, c)|
  {
    hide Payload;
    if todo != [] {
      var n := |todo| - 1;
      var a := todo[n];
      HitsSeen(todo[..n], m, c);
      assert todo == todo[..n] + [a];
      if a.conn == c {
        assert Seen(todo, c) == Seen(todo[..n], c) + {a.via};
        assert a !in todo[..n];
      } else {
        assert Seen(todo, c) == Seen(todo[..n], c);
      }
    }
  }

  lemma SeenAll(x: Index, glob: Glob, m: Message, todo: seq<Attempt>, c: Conn)
    requires Fanout(x, glob, m, todo)
    ensures Seen(todo, c) == Vias(x, glob, m, c)
  {
    forall via
      ensures via in Seen(todo, c) <==> via in Vias(x, glob, m, c)
    {
      var a := Attempt(c, via);
      assert a in todo <==> Addressed(x, glob, m, a);
      assert via in Seen(todo, c) <==> a in todo;
    }
  }

  /** How many payloads of one publish a queue takes: one for each way it is addressed, as far as there is room. */
  function Enqueued(q: Queues, x: Index, glob: Glob, m: Message, c: Conn): nat {
    Min(Room(q, c), |Vias(x, glob, m, c)|)
  }

  /** Whatever the iteration order, each queue grows by the same number of payloads. */
  lemma EnqueuedExactly(q: Queues, x: Index, glob: Glob, m: Message, todo: seq<Attempt>, c: Conn)
    requires Fanout(x, glob, m, todo) && c in q
    ensures c in After(q, todo, m)
    ensures |After(q, todo, m)[c]| == |q[c]| + Enqueued(q, x, glob, m, c)
  {
    QueueAfter(q, todo, m, c);
    HitsSeen(todo, m, c);
    SeenAll(x, glob, m, todo, c);
  }

  // ----- What arrives -----

  /** An exact subscriber's payload reads "message", channel, text; one through a pattern "pmessage", pattern, channel, text; and nothing more. */
  lemma PayloadReads(a: Attempt, m: Message, rest: Bytes)
    requires (a.via.Some? ==> |a.via.value| <= MAX_INT64 - 2) && |m.channel| <= MAX_INT64 - 2 && |m.text| <= MAX_INT64 - 2
    ensures match a.via
            case None =>
              ParseValue(Payload(a, m) + rest) ==
              Parsed(Array([BulkString([109, 101, 115, 115, 97, 103, 101]), BulkString(m.channel), BulkString(m.text)]), rest)
            case Some(pattern) =>
              ParseValue(Payload(a, m) + rest) ==
              Parsed(Array([BulkString([112, 109, 101, 115, 115, 97, 103, 101]), BulkString(pattern), BulkString(m.channel), BulkString(m.text)]), rest)
  {
    hide ParseValue, Encode;
    match a.via
    case None =>
      ThreeBulks([109, 101, 115, 115, 97, 103, 101], m.channel, m.text);
      EntryRoundTrip([MESSAGE, m.channel, m.text], rest);
    case Some(pattern) =>
      FourBulks([112, 109, 101, 115, 115, 97, 103, 101], pattern, m.channel, m.text);
      EntryRoundTrip([PMESSAGE, pattern, m.channel, m.text], rest);
  }

  lemma ThreeBulks(a: Bytes, b: Bytes, c: Bytes)
    ensures ToResp([a, b, c]) == Array([BulkString(a), BulkString(b), BulkString(c)])
  {
    BulkAt([a, b, c], 0);
    BulkAt([a, b, c], 1);
    BulkAt([a, b, c], 2);
    hide Bulks;
  }

  lemma FourBulks(a: Bytes, b: Bytes, c: Bytes, d: Bytes)
    ensures ToResp([a, b, c, d]) == Array([BulkString(a), BulkString(b), BulkString(c), BulkString(d)])
  {
    BulkAt([a, b, c, d], 0);
    BulkAt([a, b, c, d], 1);
    BulkAt([a, b, c, d], 2);
    BulkAt([a, b, c, d], 3);
    hide Bulks;
  }

  /** The ways a connection is addressed, in delivery order. */
  function WaysOf(todo: seq<Attempt>, c: Conn): seq<Option<Bytes>> {
    if todo == [] then []
    else
      var n := |todo| - 1;
      WaysOf(todo[..n], c) + if todo[n].conn == c then [todo[n].via] else []
  }

  lemma {:induction false} WaysPayloads(todo: seq<Attempt>, m: Message, c: Conn)
    ensures var ways, mine := WaysOf(todo, c), PayloadsFor(todo, m, c);
            |ways| == |mine| && forall j :: 0 <= j < |ways| ==> mine[j] == Payload(Attempt(c, ways[j]), m)
  {
    hide Payload;
    if todo != [] {
      var n := |todo| - 1;
      WaysPayloads(todo[..n], m, c);
      assert todo[n] == Attempt(todo[n].conn, todo[n].via);
    }
  }

  lemma {:induction false} WaysIn(todo: seq<Attempt>, c: Conn, v: Option<Bytes>)
    ensures v in WaysOf(todo, c) <==> Attempt(c, v) in todo
  {
    if todo != [] {
      var n := |todo| - 1;
      WaysIn(todo[..n], c, v);
      assert todo == todo[..n] + [todo[n]];
      assert todo[n] == Attempt(todo[n].conn, todo[n].via);
    }
  }

  /** Of two deliveries to one connection the later goes by another way, and through a pattern. */
  lemma LaterWay(todo: seq<Attempt>, i: nat, j: nat)
    requires Orderly(todo) && i < j < |todo| && todo[i].conn == todo[j].conn
    ensures todo[i].via != todo[j].via && todo[j].via != None
  {
    assert todo[i] != todo[j];
    assert todo[i] == Attempt(todo[i].conn, todo[i].via) && todo[j] == Attempt(todo[j].conn, todo[j].via);
  }

  /** No way twice, and the exact subscription only in front. */
  ghost predicate Differing(ways: seq<Option<Bytes>>) {
    forall i, j :: 0 <= i < j < |ways| ==> ways[i] != ways[j] && ways[j] != None
  }

  lemma DifferSnoc(ways: seq<Option<Bytes>>, v: Option<Bytes>)
    requires Differing(ways) && v !in ways && (ways != [] ==> v != None)
    ensures Differing(ways + [v])
  {
  }

  lemma {:induction false} WaysDiffer(todo: seq<Attempt>, c: Conn)
    requires Orderly(todo)
    ensures Differing(WaysOf(todo, c))
  {
    hide Differing;
    if todo == [] {
      NoWays();
    } else {
      var n := |todo| - 1;
      assert Orderly(todo[..n]);
      WaysDiffer(todo[..n], c);
      hide Orderly;
      var ways := WaysOf(todo[..n], c);
      if todo[n].conn == c {
        forall v | v in ways
          ensures v != todo[n].via && todo[n].via != None
        {
          WaysIn(todo[..n], c, v);
          var k :| 0 <= k < n && todo[k] == Attempt(c, v);
          LaterWay(todo, k, n);
        }
        assert ways != [] ==> ways[0] in ways;
        DifferSnoc(ways, todo[n].via);
      } else {
        assert ways + [] == ways;
      }
    }
  }

  lemma NoWays()
    ensures Differing([])
  {
  }

  /**
   A connection with room receives one payload for its subscription to the
   channel, if it has one, and that first, and one for each of its patterns that
   matches the channel, and nothing else.
   */
  lemma WhatArrives(q: Queues, x: Index, glob: Glob, m: Message, todo: seq<Attempt>, c: Conn)
    requires Fanout(x, glob, m, todo) && c in q && |q[c]| + |WaysOf(todo, c)| <= 64
    ensures var ways := WaysOf(todo, c);
            && c in After(q, todo, m) && |After(q, todo, m)[c]| == |q[c]| + |ways| && After(q, todo, m)[c][..|q[c]|] == q[c]
            && (forall j :: 0 <= j < |ways| ==> After(q, todo, m)[c][|q[c]| + j] == Payload(Attempt(c, ways[j]), m))
            && (None in ways <==> m.channel in x.channels && c in x.channels[m.channel])
            && (forall p :: Some(p) in ways <==> glob(p, m.channel) && p in x.patterns && c in x.patterns[p])
            && Differing(ways)
  {
    hide Payload;
    QueueAfter(q, todo, m, c);
    WaysPayloads(todo, m, c);
    WaysDiffer(todo, c);
    var mine := PayloadsFor(todo, m, c);
    assert mine[..|mine|] == mine;
    forall v
      ensures v in WaysOf(todo, c) <==> Addressed(x, glob, m, Attempt(c, v))
    {
      WaysIn(todo, c, v);
      assert Attempt(c, v) in todo <==> Addressed(x, glob, m, Attempt(c, v));
    }
  }

  // ----- Sums over connections -----

  ghost function SumOver(s: set<Conn>, f: Conn -> nat): nat {
    if s == {} then 0
    else
      var c :| c in s;
      f(c) + SumOver(s - {c}, f)
  }

  lemma {:induction false} SumPick(s: set<Conn>, f: Conn -> nat, c: Conn)
    requires c in s
    ensures SumOver(s, f) == f(c) + SumOver(s - {c}, f)
    decreases s
  {
    var d :| d in s && SumOver(s, f) == f(d) + SumOver(s - {d}, f);
    if c != d {
      SumPick(s - {d}, f, c);
      SumPick(s - {c}, f, d);
      assert s - {d} - {c} == s - {c} - {d};
    }
  }

  /** A smaller function has a smaller sum, and an equal sum only if it is equal. */
  lemma {:induction false} SumCompare(s: set<Conn>, f: Conn -> nat, g: Conn -> nat)
    requires forall c :: c in s ==> f(c) <= g(c)
    ensures SumOver(s, f) <= SumOver(s, g)
    ensures SumOver(s, f) == SumOver(s, g) <==> forall c :: c in s ==> f(c) == g(c)
    decreases s
  {
    if s != {} {
      var c :| c in s;
      SumPick(s, f, c);
      SumPick(s, g, c);
      SumCompare(s - {c}, f, g);
      assert forall d :: d in s ==> d == c || d in s - {c};
    }
  }

  lemma SumBump(s: set<Conn>, f: Conn -> nat, g: Conn -> nat, c: Conn)
    requires c in s && g(c) == f(c) + 1 && forall d :: d in s && d != c ==> g(d) == f(d)
    ensures SumOver(s, g) == SumOver(s, f) + 1
  {
    SumPick(s, f, c);
    SumPick(s, g, c);
    SumCompare(s - {c}, f, g);
  }

  lemma {:induction false} SumZero(s: set<Conn>, f: Conn -> nat)
    requires forall c :: c in s ==> f(c) == 0
    ensures SumOver(s, f) == 0
    decreases s
  {
    if s != {} {
      var c :| c in s;
      SumPick(s, f, c);
      SumZero(s - {c}, f);
    }
  }

  function OneIn(members: set<Conn>): Conn -> nat {
    c => if c in members then 1 else 0
  }

  lemma {:induction false} SumOfOnes(s: set<Conn>, members: set<Conn>)
    requires members <= s
    ensures SumOver(s, OneIn(members)) == |members|
    decreases s
  {
    hide SumOver;
    if s == {} {
      SumZero(s, OneIn(members));
    } else {
      var c :| c in s;
      SumPick(s, OneIn(members), c);
      SumOfOnes(s - {c}, members - {c});
      SumCompare(s - {c}, OneIn(members), OneIn(members - {c}));
      assert c in members ==> members == (members - {c}) + {c};
      assert c !in members ==> members - {c} == members;
    }
  }

  // ----- The number PUBLISH returns -----

  /** What a connection contributes after it was addressed a number of times. */
  function CreditAt(q: Queues, exact: bool, c: Conn, hits: nat): nat {
    Min(if exact then Min(1, Room(q, c)) else Room(q, c), hits)
  }

  /** An exact subscriber counts once if its queue had room; others count once for every payload enqueued. */
  function Credit(q: Queues, x: Index, glob: Glob, m: Message, c: Conn): nat {
    CreditAt(q, Exact(x, m, c), c, |Vias(x, glob, m, c)|)
  }

  /** Exact subscribers are addressed exactly before anything else. */
  ghost predicate ExactFirst(x: Index, m: Message, todo: seq<Attempt>) {
    forall j :: 0 <= j < |todo| ==>
      if todo[j].via.None? then Exact(x, m, todo[j].conn) && forall i :: 0 <= i < j ==> todo[i].conn != todo[j].conn
      else Exact(x, m, todo[j].conn) ==> exists i :: 0 <= i < j && todo[i].conn == todo[j].conn
  }

  lemma FanoutExactFirst(x: Index, glob: Glob, m: Message, todo: seq<Attempt>)
    requires Fanout(x, glob, m, todo)
    ensures ExactFirst(x, m, todo)
  {
    forall j | 0 <= j < |todo|
      ensures todo[j].via.None? ==> Exact(x, m, todo[j].conn) && forall i :: 0 <= i < j ==> todo[i].conn != todo[j].conn
      ensures todo[j].via.Some? && Exact(x, m, todo[j].conn) ==> exists i :: 0 <= i < j && todo[i].conn == todo[j].conn
    {
      var a := todo[j];
      assert a in todo;
      if a.via.None? {
        forall i | 0 <= i < j
          ensures todo[i].conn != a.conn
        {
          assert todo[i].via == None;
        }
      } else if Exact(x, m, a.conn) {
        var b := Attempt(a.conn, None);
        assert Addressed(x, glob, m, b);
        var i :| 0 <= i < |todo| && todo[i] == b;
        assert i < j;
      }
    }
  }

  lemma {:induction false} NoHits(todo: seq<Attempt>, m: Message, c: Conn)
    ensures PayloadsFor(todo, m, c) == [] <==> forall i :: 0 <= i < |todo| ==> todo[i].conn != c
  {
    if todo != [] {
      var n := |todo| - 1;
      NoHits(todo[..n], m, c);
    }
  }

  function PartialCredit(q: Queues, x: Index, todo: seq<Attempt>, m: Message): Conn -> nat {
    c => CreditAt(q, Exact(x, m, c), c, |PayloadsFor(todo, m, c)|)
  }

  lemma HitsGrow(todo: seq<Attempt>, m: Message)
    requires todo != []
    ensures var n := |todo| - 1; |PayloadsFor(todo, m, todo[n].conn)| == |PayloadsFor(todo[..n], m, todo[n].conn)| + 1
    ensures var n := |todo| - 1; forall c :: c != todo[n].conn ==> PayloadsFor(todo, m, c) == PayloadsFor(todo[..n], m, c)
  {
  }

  lemma AcceptsWhileRoom(q: Queues, todo: seq<Attempt>, m: Message, c: Conn)
    requires c in q
    ensures Accepts(After(q, todo, m), c) <==> |PayloadsFor(todo, m, c)| < Room(q, c)
  {
    hide PayloadsFor, After;
    QueueAfter(q, todo, m, c);
  }

  lemma OneMore(q: Queues, x: Index, todo: seq<Attempt>, m: Message)
    requires ExactFirst(x, m, todo) && todo != [] && todo[|todo| - 1].conn in q
    ensures var n := |todo| - 1;
            var a := todo[n];
            var counted := Accepts(After(q, todo[..n], m), a.conn) && (a.via.None? || !Exact(x, m, a.conn));
            PartialCredit(q, x, todo, m)(a.conn) == PartialCredit(q, x, todo[..n], m)(a.conn) + if counted then 1 else 0
  {
    var n := |todo| - 1;
    var c := todo[n].conn;
    assert Exact(x, m, c) ==> (todo[n].via.None? <==> forall i :: 0 <= i < n ==> todo[i].conn != c);
    assert todo[n].via.None? ==> Exact(x, m, c);
    assert forall i :: 0 <= i < n ==> todo[..n][i] == todo[i];
    hide Payload, Exact, PayloadsFor, After, Accepts, ExactFirst, Room;
    AcceptsWhileRoom(q, todo[..n], m, c);
    NoHits(todo[..n], m, c);
    HitsGrow(todo, m);
  }

  lemma {:induction false} ReceivedSoFar(q: Queues, x: Index, todo: seq<Attempt>, m: Message)
    requires ExactFirst(x, m, todo)
    ensures Received(q, x, todo, m) == SumOver(q.Keys, PartialCredit(q, x, todo, m))
  {
    hide Exact, PayloadsFor, After, Room, SumOver;
    var g := PartialCredit(q, x, todo, m);
    if todo == [] {
      NoHits(todo, m, 0);
      CreditNothing(q, x, m);
    } else {
      var n := |todo| - 1;
      var a, f := todo[n], PartialCredit(q, x, todo[..n], m);
      ReceivedSoFar(q, x, todo[..n], m);
      hide Received, ExactFirst, PartialCredit;
      ReceivedStep(q, x, todo, m);
      if a.conn in q && g(a.conn) == f(a.conn) + 1 {
        SumBump(q.Keys, f, g, a.conn);
      } else {
        SumCompare(q.Keys, f, g);
      }
    }
  }

  lemma CreditNothing(q: Queues, x: Index, m: Message)
    ensures SumOver(q.Keys, PartialCredit(q, x, [], m)) == 0
  {
    SumZero(q.Keys, PartialCredit(q, x, [], m));
  }

  /** One more attempt changes the counter and the credit of its connection alike, and nobody else's credit. */
  lemma ReceivedStep(q: Queues, x: Index, todo: seq<Attempt>, m: Message)
    requires ExactFirst(x, m, todo) && todo != []
    ensures var n := |todo| - 1;
            var c, f, g := todo[n].conn, PartialCredit(q, x, todo[..n], m), PartialCredit(q, x, todo, m);
            && (forall d :: d != c ==> g(d) == f(d))
            && (c in q ==> g(c) - f(c) == Received(q, x, todo, m) - Received(q, x, todo[..n], m) && f(c) <= g(c) <= f(c) + 1)
            && (c !in q ==> Received(q, x, todo, m) == Received(q, x, todo[..n], m))
  {
    hide Exact, PayloadsFor, After, Room, ExactFirst, Payload;
    var n := |todo| - 1;
    var c := todo[n].conn;
    HitsGrow(todo, m);
    QueueAfter(q, todo[..n], m, c);
    if c in q {
      OneMore(q, x, todo, m);
    }
  }

  /** PUBLISH returns the same number for every map iteration order: the sum of what each connection contributes. */
  lemma PublishCount(q: Queues, x: Index, glob: Glob, m: Message, todo: seq<Attempt>)
    requires Fanout(x, glob, m, todo)
    ensures Received(q, x, todo, m) == SumOver(q.Keys, c => Credit(q, x, glob, m, c))
  {
    FanoutExactFirst(x, glob, m, todo);
    ReceivedSoFar(q, x, todo, m);
    var f, g := PartialCredit(q, x, todo, m), (c: Conn) => Credit(q, x, glob, m, c);
    forall c | c in q.Keys
      ensures f(c) == g(c)
    {
      HitsSeen(todo, m, c);
      SeenAll(x, glob, m, todo, c);
    }
    SumCompare(q.Keys, f, g);
  }

  /** The connections whose queue takes at least one payload of a publish. */
  function Reached(q: Queues, x: Index, glob: Glob, m: Message): set<Conn> {
    set c | c in q && Enqueued(q, x, glob, m, c) > 0
  }

  lemma CreditBounds(q: Queues, x: Index, glob: Glob, m: Message, c: Conn)
    requires c in q
    ensures OneIn(Reached(q, x, glob, m))(c) <= Credit(q, x, glob, m, c) <= Enqueued(q, x, glob, m, c)
    ensures OneIn(Reached(q, x, glob, m))(c) == Credit(q, x, glob, m, c) <==> Exact(x, m, c) || Enqueued(q, x, glob, m, c) <= 1
  {
    hide Exact, Vias;
    if Exact(x, m, c) {
      ExactVia(x, glob, m, c);
    }
  }

  lemma ExactVia(x: Index, glob: Glob, m: Message, c: Conn)
    requires Exact(x, m, c)
    ensures |Vias(x, glob, m, c)| > 0
  {
    assert None in Vias(x, glob, m, c);
  }

  /**
   The number lies between the connections reached and the payloads enqueued; it
   is the former exactly when no connection took several payloads through patterns alone.
   */
  lemma PublishBounds(q: Queues, x: Index, glob: Glob, m: Message, todo: seq<Attempt>)
    requires Fanout(x, glob, m, todo)
    ensures var n := Received(q, x, todo, m);
            && |Reached(q, x, glob, m)| <= n <= SumOver(q.Keys, c => Enqueued(q, x, glob, m, c))
            && (n == |Reached(q, x, glob, m)| <==>
                forall c :: c in q && !Exact(x, m, c) ==> Enqueued(q, x, glob, m, c) <= 1)
  {
    var reached := Reached(q, x, glob, m);
    assert reached <= q.Keys;
    hide Exact, Credit, Enqueued, Fanout, Received, SumOver, Reached, OneIn;
    PublishCount(q, x, glob, m, todo);
    var mid, high := (c: Conn) => Credit(q, x, glob, m, c), (c: Conn) => Enqueued(q, x, glob, m, c);
    forall c | c in q.Keys
      ensures OneIn(reached)(c) <= mid(c) <= high(c)
      ensures OneIn(reached)(c) == mid(c) <==> Exact(x, m, c) || high(c) <= 1
    {
      CreditBounds(q, x, glob, m, c);
    }
    SumOfOnes(q.Keys, reached);
    SumCompare(q.Keys, OneIn(reached), mid);
    SumCompare(q.Keys, mid, high);
  }
}
