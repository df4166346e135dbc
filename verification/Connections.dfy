/**
 Connections, their modes and delivery queues as a step system. A command is a
 script of steps that other connections' steps interleave with; a publisher holds
 the broker's read lock from its first delivery to its last.
 */
module Connections {
  import opened Base
  import opened Subscriptions
  import opened Publishing

  datatype Mode = Normal | Subscriber

  datatype Micro =
    | Sub(name: Name)
    | Unsub(name: Name)
    | UnsubAll
    | Flip(mode: Mode)
    | Begin(message: Message)
    | Give(attempt: Attempt, message: Message)
    | Hangup

  /**
   What a connection's handler still has to do before it reads the next command,
   and the number its latest PUBLISH has come to.
   */
  datatype Client = Client(mode: Mode, pending: seq<Micro>, received: nat)

  /** A connection's delivery channel: what waits in it, what its writer has written, how many writers were started. */
  datatype Queue = Queue(conn: Conn, waiting: seq<Bytes>, written: seq<Bytes>, closed: bool, writers: nat)

  function Fresh(c: Conn): Queue {
    Queue(c, [], [], false, 0)
  }

  /** A panic is a send on, or a second close of, a closed channel. */
  datatype Sys = Sys(index: Index, owner: map<Conn, nat>, queues: seq<Queue>, clients: map<Conn, Client>, panicked: bool)

  const START: Sys := Sys(NOBODY, map[], [], map[], false)

  datatype Command =
    | Subscribe(texts: seq<Bytes>, pattern: bool)
    | Unsubscribe(texts: seq<Bytes>, pattern: bool)
    | Publish(message: Message)
    | Disconnect

  datatype Event =
    | Connect(c: Conn)
    | Issue(c: Conn, command: Command)
    | Advance(c: Conn, order: seq<Attempt>)
    | Write(ch: nat)

  // ----- Scripts -----

  function NameOf(text: Bytes, pattern: bool): Name {
    if pattern then Pattern(text) else Channel(text)
  }

  function Subs(texts: seq<Bytes>, pattern: bool): (r: seq<Micro>)
    ensures |r| == |texts| && forall i :: 0 <= i < |r| ==> r[i].Sub?
  {
    seq(|texts|, i requires 0 <= i < |texts| => Sub(NameOf(texts[i], pattern)))
  }

  function Unsubs(texts: seq<Bytes>, pattern: bool): (r: seq<Micro>)
    ensures |r| == |texts| && forall i :: 0 <= i < |r| ==> r[i].Unsub?
  {
    seq(|texts|, i requires 0 <= i < |texts| => Unsub(NameOf(texts[i], pattern)))
  }

  function Gives(order: seq<Attempt>, m: Message): (r: seq<Micro>)
    ensures |r| == |order| && forall i :: 0 <= i < |r| ==> r[i] == Give(order[i], m)
  {
    seq(|order|, i requires 0 <= i < |order| => Give(order[i], m))
  }

  /** In subscriber mode PUBLISH is refused; SUBSCRIBE without arguments is an error in either mode. */
  function Script(k: Client, command: Command): seq<Micro> {
    match command
    case Subscribe(texts, pattern) => if texts == [] then [] else Subs(texts, pattern) + [Flip(Subscriber)]
    case Unsubscribe(texts, pattern) => if texts == [] then [UnsubAll, Flip(Normal)] else Unsubs(texts, pattern)
    case Publish(m) => if k.mode == Subscriber then [] else [Begin(m)]
    case Disconnect => [UnsubAll, Hangup]
  }

  // ----- Steps -----

  /** The connection has a delivery channel; the number an owner holds is always that of a channel. */
  predicate Owns(s: Sys, c: Conn) {
    c in s.owner && s.owner[c] < |s.queues|
  }

  function Open(s: Sys, c: Conn): Sys {
    if c in s.owner then s else s.(owner := s.owner[c := |s.queues|], queues := s.queues + [Fresh(c)])
  }

  function Close(s: Sys, c: Conn): Sys {
    if !Owns(s, c) then s
    else
      var ch := s.owner[c];
      s.(owner := s.owner - {c}, queues := s.queues[ch := s.queues[ch].(closed := true)],
         panicked := s.panicked || s.queues[ch].closed)
  }

  function Attach(s: Sys, c: Conn): Sys {
    if !Owns(s, c) then s
    else
      var ch := s.owner[c];
      s.(queues := s.queues[ch := s.queues[ch].(writers := s.queues[ch].writers + 1)])
  }

  /** A payload that finds the queue full is dropped. */
  function Offered(q: Queue, payload: Bytes): Queue {
    if |q.waiting| < CAPACITY then q.(waiting := q.waiting + [payload]) else q
  }

  function Deliver(s: Sys, c: Conn, payload: Bytes): Sys {
    if !Owns(s, c) then s
    else
      var ch := s.owner[c];
      s.(queues := s.queues[ch := Offered(s.queues[ch], payload)], panicked := s.panicked || s.queues[ch].closed)
  }

  function Remaining(s: Sys, c: Conn, k: Client): Sys {
    s.(clients := s.clients[c := k])
  }

  /** The broker's Subscribe and PSubscribe. */
  function Join(s: Sys, c: Conn, n: Name): Sys {
    var o := Open(s, c);
    o.(index := Enter(o.index, c, n))
  }

  /** The broker's Unsubscribe and PUnsubscribe. */
  function Part(s: Sys, c: Conn, n: Name): Sys {
    var t := s.(index := Leave(s.index, c, n));
    if Count(t.index, c) == 0 then Close(t, c) else t
  }

  function PartAll(s: Sys, c: Conn): Sys {
    Close(s.(index := LeaveAll(s.index, c)), c)
  }

  /** A delivery counts if it is enqueued, unless it goes through a pattern to an exact subscriber. */
  function Tally(s: Sys, a: Attempt, m: Message): nat {
    if Owns(s, a.conn) && |s.queues[s.owner[a.conn]].waiting| < CAPACITY && (a.via.None? || !Exact(s.index, m, a.conn))
    then 1 else 0
  }

  /** The first pending step of a connection. */
  function Do(s: Sys, c: Conn, order: seq<Attempt>): Sys
    requires c in s.clients && s.clients[c].pending != []
  {
    var k := s.clients[c];
    var rest := k.pending[1..];
    match k.pending[0]
    case Sub(n) => Remaining(Join(s, c, n), c, k.(pending := rest))
    case Unsub(n) =>
      var t := Part(s, c, n);
      Remaining(t, c, k.(pending := if Count(t.index, c) == 0 then [Flip(Normal)] + rest else rest))
    case UnsubAll => Remaining(PartAll(s, c), c, k.(pending := rest))
    case Flip(mode) =>
      if mode == Normal then Remaining(s, c, k.(mode := Normal, pending := rest))
      else if k.mode == Normal && c in s.owner then Remaining(Attach(s, c), c, k.(mode := Subscriber, pending := rest))
      else Remaining(s, c, k.(pending := rest))
    case Begin(m) => Remaining(s, c, k.(pending := Gives(order, m) + rest, received := 0))
    case Give(a, m) =>
      Remaining(Deliver(s, a.conn, Payload(a, m)), c, k.(pending := rest, received := k.received + Tally(s, a, m)))
    case Hangup => s.(clients := s.clients - {c})
  }

  function Step(s: Sys, e: Event): Sys {
    match e
    case Connect(c) => s.(clients := s.clients[c := Client(Normal, [], 0)])
    case Issue(c, command) =>
      if c in s.clients then Remaining(s, c, s.clients[c].(pending := Script(s.clients[c], command))) else s
    case Advance(c, order) =>
      if c in s.clients && s.clients[c].pending != [] then Do(s, c, order) else s
    case Write(ch) =>
      if ch < |s.queues| && s.queues[ch].waiting != [] then
        var q := s.queues[ch];
        s.(queues := s.queues[ch := q.(waiting := q.waiting[1..], written := q.written + [q.waiting[0]])])
      else s
  }

  /** Some publisher is in the middle of its deliveries. */
  predicate Locked(s: Sys) {
    exists c :: c in s.clients && s.clients[c].pending != [] && s.clients[c].pending[0].Give?
  }

  ghost predicate Enabled(s: Sys, e: Event, glob: Glob) {
    match e
    case Connect(c) => c !in s.clients
    case Issue(c, _) => c in s.clients && s.clients[c].pending == []
    case Advance(c, order) =>
      && c in s.clients && s.clients[c].pending != []
      && (match s.clients[c].pending[0]
          case Sub(_) => !Locked(s)
          case Unsub(_) => !Locked(s)
          case UnsubAll => !Locked(s)
          case Begin(m) => Fanout(s.index, glob, m, order)
          case _ => true)
    case Write(ch) => ch < |s.queues| && s.queues[ch].writers > 0 && s.queues[ch].waiting != []
  }

  // ----- Invariant -----

  ghost predicate IndexOk(s: Sys) {
    && Served(s.index, s.owner.Keys)
    && (forall c :: c in s.owner ==> c in s.clients)
  }

  /** A channel is open exactly while its connection owns it, and each connection owns at most one. */
  ghost predicate QueuesOk(owner: map<Conn, nat>, queues: seq<Queue>) {
    && (forall c :: c in owner ==> owner[c] < |queues| && queues[owner[c]].conn == c && !queues[owner[c]].closed)
    && (forall ch :: 0 <= ch < |queues| ==> QueueOk(queues[ch]))
    && (forall ch :: 0 <= ch < |queues| && !queues[ch].closed ==> queues[ch].conn in owner && owner[queues[ch].conn] == ch)
  }

  predicate QueueOk(q: Queue) {
    && |q.waiting| <= CAPACITY
    && q.writers <= 1
    && (q.closed ==> q.writers == 1)
  }

  predicate AllUnsubs(p: seq<Micro>) {
    forall i :: 0 <= i < |p| ==> p[i].Unsub?
  }

  predicate SubsThenFlip(p: seq<Micro>) {
    && p != [] && p[|p| - 1] == Flip(Subscriber)
    && forall i :: 0 <= i < |p| - 1 ==> p[i].Sub?
  }

  predicate AllGives(p: seq<Micro>) {
    forall i :: 0 <= i < |p| ==> p[i].Give?
  }

  /** How a connection's mode and its delivery channel relate at each point of each script. */
  predicate Coherent(k: Client, owns: bool) {
    var p := k.pending;
    if p == [] then k.mode == Subscriber <==> owns
    else
      match p[0]
      case Sub(_) => SubsThenFlip(p) && (k.mode == Subscriber ==> owns)
      case Flip(mode) => if mode == Subscriber then |p| == 1 && owns else AllUnsubs(p[1..]) && !owns
      case Unsub(_) => AllUnsubs(p) && (k.mode == Subscriber <==> owns)
      case UnsubAll => |p| == 2 && (p[1] == Flip(Normal) || p[1] == Hangup) && (k.mode == Subscriber <==> owns)
      case Begin(_) => |p| == 1 && k.mode == Normal && !owns
      case Give(_, _) => AllGives(p) && k.mode == Normal && !owns
      case Hangup => |p| == 1 && !owns
  }

  ghost predicate ClientOk(s: Sys, c: Conn)
    requires c in s.clients
  {
    && Coherent(s.clients[c], c in s.owner)
    && (Owns(s, c) ==> s.queues[s.owner[c]].writers == if s.clients[c].mode == Subscriber then 1 else 0)
    && forall i :: 0 <= i < |s.clients[c].pending| && s.clients[c].pending[i].Give? ==>
         s.clients[c].pending[i].attempt.conn in s.owner
  }

  ghost predicate ClientsOk(s: Sys) {
    forall c :: c in s.clients ==> ClientOk(s, c)
  }

  ghost predicate Inv(s: Sys) {
    !s.panicked && IndexOk(s) && QueuesOk(s.owner, s.queues) && ClientsOk(s)
  }

  // ----- What the broker's operations keep -----

  /** The broker on its own: no panic, tidy indexes, and a delivery channel for exactly the subscribed. */
  ghost predicate BrokerOk(s: Sys) {
    !s.panicked && Served(s.index, s.owner.Keys) && QueuesOk(s.owner, s.queues)
  }

  /** Nothing about other connections changed. */
  ghost predicate OnlyTouches(s: Sys, t: Sys, c: Conn) {
    && t.clients == s.clients
    && (forall d :: d != c ==> (d in t.owner <==> d in s.owner))
    && (forall d :: d != c ==> (Owns(t, d) <==> Owns(s, d)))
    && (forall d :: d != c && Owns(s, d) ==> t.queues[t.owner[d]] == s.queues[s.owner[d]])
  }

  lemma OpenKeeps(s: Sys, c: Conn)
    requires QueuesOk(s.owner, s.queues)
    ensures var t := Open(s, c); QueuesOk(t.owner, t.queues)
  {
  }

  lemma OpenTouches(s: Sys, c: Conn)
    requires QueuesOk(s.owner, s.queues)
    ensures var t := Open(s, c);
            && OnlyTouches(s, t, c) && Owns(t, c) && t.panicked == s.panicked && t.index == s.index
            && t.owner.Keys == s.owner.Keys + {c}
            && t.queues[t.owner[c]].writers == (if c in s.owner then s.queues[s.owner[c]].writers else 0)
  {
  }

  lemma CloseKeeps(s: Sys, c: Conn)
    requires QueuesOk(s.owner, s.queues) && (Owns(s, c) ==> s.queues[s.owner[c]].writers == 1)
    ensures var t := Close(s, c); QueuesOk(t.owner, t.queues)
  {
  }

  lemma CloseTouches(s: Sys, c: Conn)
    requires QueuesOk(s.owner, s.queues)
    ensures var t := Close(s, c);
            && OnlyTouches(s, t, c) && t.owner.Keys == s.owner.Keys - {c} && t.panicked == s.panicked && t.index == s.index
  {
  }

  /** Replacing one queue, opened or closed as before. */
  lemma ReplaceKeeps(s: Sys, ch: nat, q: Queue)
    requires QueuesOk(s.owner, s.queues) && ch < |s.queues|
    requires q.closed == s.queues[ch].closed && q.conn == s.queues[ch].conn && QueueOk(q)
    ensures QueuesOk(s.owner, s.queues[ch := q])
  {
  }

  lemma JoinKeeps(s: Sys, c: Conn, n: Name)
    requires BrokerOk(s)
    ensures var t := Join(s, c, n);
            && BrokerOk(t) && OnlyTouches(s, t, c) && Owns(t, c)
            && t.queues[t.owner[c]].writers == (if c in s.owner then s.queues[s.owner[c]].writers else 0)
  {
    hide Open, Enter, Served, QueuesOk;
    OpenKeeps(s, c);
    OpenTouches(s, c);
    EnterServed(s.index, s.owner.Keys, c, n);
  }

  lemma PartKeeps(s: Sys, c: Conn, n: Name)
    requires BrokerOk(s) && (Owns(s, c) ==> s.queues[s.owner[c]].writers == 1)
    ensures var t := Part(s, c, n);
            && BrokerOk(t) && OnlyTouches(s, t, c) && (c in t.owner <==> Count(t.index, c) > 0)
            && (c in t.owner ==> c in s.owner && t.owner == s.owner && t.queues == s.queues)
  {
    hide Leave, Served, QueuesOk, Count, Close;
    var x := Leave(s.index, c, n);
    LeaveServed(s.index, s.owner.Keys, c, n);
    CloseKeeps(s.(index := x), c);
    CloseTouches(s.(index := x), c);
    ServedCount(Part(s, c, n).index, Part(s, c, n).owner.Keys, c);
  }

  lemma PartAllKeeps(s: Sys, c: Conn)
    requires BrokerOk(s) && (Owns(s, c) ==> s.queues[s.owner[c]].writers == 1)
    ensures var t := PartAll(s, c); BrokerOk(t) && OnlyTouches(s, t, c) && c !in t.owner
  {
    hide LeaveAll, Served, QueuesOk, Close;
    LeaveAllServed(s.index, s.owner.Keys, c);
    CloseKeeps(s.(index := LeaveAll(s.index, c)), c);
    CloseTouches(s.(index := LeaveAll(s.index, c)), c);
  }

  lemma DeliverKeeps(s: Sys, c: Conn, payload: Bytes)
    requires BrokerOk(s) && c in s.owner
    ensures var t := Deliver(s, c, payload);
            && BrokerOk(t) && t.owner == s.owner && t.clients == s.clients && t.index == s.index && |t.queues| == |s.queues|
            && forall d :: Owns(s, d) ==> t.queues[s.owner[d]].writers == s.queues[s.owner[d]].writers
  {
    ReplaceKeeps(s, s.owner[c], Offered(s.queues[s.owner[c]], payload));
    hide Served;
  }

  // ----- Every step keeps the invariant -----

  /** Deliveries are pending only while the lock is held. */
  lemma UnlockedHasNoGives(s: Sys, c: Conn, i: nat)
    requires ClientsOk(s) && !Locked(s) && c in s.clients && i < |s.clients[c].pending|
    ensures !s.clients[c].pending[i].Give?
  {
    assert ClientOk(s, c);
    var k := s.clients[c];
    assert !k.pending[0].Give?;
  }

  /** A step of one connection leaves the others coherent if it does not take channels from pending deliveries. */
  lemma OthersKept(s: Sys, t: Sys, c: Conn, k: Client)
    requires ClientsOk(s) && OnlyTouches(s, t, c) && c in s.clients
    requires !Locked(s) || s.owner.Keys <= t.owner.Keys
    requires ClientOk(Remaining(t, c, k), c)
    ensures ClientsOk(Remaining(t, c, k))
  {
    var u := Remaining(t, c, k);
    forall d | d in u.clients
      ensures ClientOk(u, d)
    {
      if d != c {
        assert ClientOk(s, d);
        forall i | 0 <= i < |u.clients[d].pending| && u.clients[d].pending[i].Give?
          ensures u.clients[d].pending[i].attempt.conn in u.owner
        {
          if !Locked(s) {
            UnlockedHasNoGives(s, d, i);
          }
        }
      }
    }
  }

  lemma Reassemble(s: Sys, t: Sys, c: Conn, k: Client)
    requires Inv(s) && BrokerOk(t) && OnlyTouches(s, t, c) && c in s.clients
    requires !Locked(s) || s.owner.Keys <= t.owner.Keys
    requires ClientOk(Remaining(t, c, k), c)
    ensures Inv(Remaining(t, c, k))
  {
    OthersKept(s, t, c, k);
    hide QueuesOk, Served, ClientsOk, ClientOk;
  }

  lemma InvBroker(s: Sys, c: Conn)
    requires Inv(s) && c in s.clients
    ensures BrokerOk(s) && ClientOk(s, c)
  {
  }

  lemma KeepsSub(s: Sys, c: Conn, order: seq<Attempt>)
    requires Inv(s) && c in s.clients && s.clients[c].pending != [] && s.clients[c].pending[0].Sub?
    ensures Inv(Do(s, c, order))
  {
    hide Join, BrokerOk, Inv;
    var k := s.clients[c];
    InvBroker(s, c);
    JoinKeeps(s, c, k.pending[0].name);
    var t, j := Join(s, c, k.pending[0].name), k.(pending := k.pending[1..]);
    BrokerOwns(s, c);
    assert ClientOk(Remaining(t, c, j), c);
    hide Coherent, ClientOk;
    GrownKeys(s, t, c);
    Reassemble(s, t, c, j);
  }

  lemma BrokerOwns(s: Sys, c: Conn)
    requires BrokerOk(s)
    ensures c in s.owner <==> Owns(s, c)
  {
  }

  lemma GrownKeys(s: Sys, t: Sys, c: Conn)
    requires OnlyTouches(s, t, c) && (c in s.owner ==> c in t.owner)
    ensures s.owner.Keys <= t.owner.Keys
  {
  }

  lemma KeepsUnsub(s: Sys, c: Conn, order: seq<Attempt>)
    requires Inv(s) && c in s.clients && s.clients[c].pending != [] && s.clients[c].pending[0].Unsub? && !Locked(s)
    ensures Inv(Do(s, c, order))
  {
    hide Part, BrokerOk, Inv, Locked, Count;
    var k := s.clients[c];
    var rest := k.pending[1..];
    InvBroker(s, c);
    BrokerOwns(s, c);
    var t := Part(s, c, k.pending[0].name);
    PartKeeps(s, c, k.pending[0].name);
    var j := k.(pending := if Count(t.index, c) == 0 then [Flip(Normal)] + rest else rest);
    assert Count(t.index, c) == 0 ==> j.pending[1..] == rest;
    assert ClientOk(Remaining(t, c, j), c);
    hide Coherent, ClientOk;
    Reassemble(s, t, c, j);
  }

  lemma KeepsUnsubAll(s: Sys, c: Conn, order: seq<Attempt>)
    requires Inv(s) && c in s.clients && s.clients[c].pending != [] && s.clients[c].pending[0].UnsubAll? && !Locked(s)
    ensures Inv(Do(s, c, order))
  {
    hide PartAll, BrokerOk, Inv, Locked;
    var k := s.clients[c];
    InvBroker(s, c);
    BrokerOwns(s, c);
    PartAllKeeps(s, c);
    var t, j := PartAll(s, c), k.(pending := k.pending[1..]);
    assert ClientOk(Remaining(t, c, j), c);
    hide Coherent, ClientOk;
    Reassemble(s, t, c, j);
  }

  lemma TouchesNothing(s: Sys, c: Conn)
    ensures OnlyTouches(s, s, c)
  {
  }

  lemma AttachKeeps(s: Sys, c: Conn)
    requires BrokerOk(s) && (Owns(s, c) ==> s.queues[s.owner[c]].writers == 0)
    ensures var t := Attach(s, c);
            && BrokerOk(t) && OnlyTouches(s, t, c) && t.owner == s.owner
            && (Owns(s, c) ==> Owns(t, c) && t.queues[t.owner[c]].writers == 1)
  {
    hide Served;
    if Owns(s, c) {
      var q := s.queues[s.owner[c]];
      ReplaceKeeps(s, s.owner[c], q.(writers := 1));
    }
  }

  lemma KeepsFlip(s: Sys, c: Conn, order: seq<Attempt>)
    requires Inv(s) && c in s.clients && s.clients[c].pending != [] && s.clients[c].pending[0].Flip?
    ensures Inv(Do(s, c, order))
  {
    hide Attach, BrokerOk, Inv;
    var k := s.clients[c];
    var rest := k.pending[1..];
    InvBroker(s, c);
    BrokerOwns(s, c);
    TouchesNothing(s, c);
    var attach := k.pending[0].mode == Subscriber && k.mode == Normal;
    var t := if attach then Attach(s, c) else s;
    if attach {
      AttachKeeps(s, c);
    }
    var j := k.(mode := k.pending[0].mode, pending := rest);
    BrokerOwns(t, c);
    assert ClientOk(Remaining(t, c, j), c);
    hide Coherent, ClientOk;
    GrownKeys(s, t, c);
    Reassemble(s, t, c, j);
  }

  lemma KeepsBegin(s: Sys, c: Conn, order: seq<Attempt>, glob: Glob)
    requires Inv(s) && c in s.clients && s.clients[c].pending != [] && s.clients[c].pending[0].Begin?
    requires Fanout(s.index, glob, s.clients[c].pending[0].message, order)
    ensures Inv(Do(s, c, order))
  {
    hide BrokerOk, Inv;
    var k := s.clients[c];
    var m := k.pending[0].message;
    InvBroker(s, c);
    BrokerOwns(s, c);
    TouchesNothing(s, c);
    var j := k.(pending := Gives(order, m) + k.pending[1..], received := 0);
    assert k.pending[1..] == [] && j.pending == Gives(order, m);
    forall i | 0 <= i < |j.pending|
      ensures j.pending[i].Give? && j.pending[i].attempt.conn in s.owner
    {
      assert order[i] in order;
      AddressedOwns(s, glob, m, order[i]);
    }
    assert ClientOk(Remaining(s, c, j), c);
    hide Coherent, ClientOk;
    Reassemble(s, s, c, j);
  }

  /** Whoever a publish addresses has a delivery channel. */
  lemma AddressedOwns(s: Sys, glob: Glob, m: Message, a: Attempt)
    requires BrokerOk(s) && Addressed(s.index, glob, m, a)
    ensures a.conn in s.owner
  {
    hide QueuesOk, Tidy;
    assert Subscribed(s.index, a.conn) by {
      if a.via.None? {
        assert m.channel in NamesOf(s.index.channels, a.conn);
      } else {
        assert a.via.value in NamesOf(s.index.patterns, a.conn);
      }
    }
  }

  /** The other clients are as they were, and so are the channels and their writers. */
  lemma ClientsCarried(s: Sys, u: Sys, c: Conn)
    requires ClientsOk(s) && u.owner == s.owner && |u.queues| == |s.queues|
    requires forall d :: Owns(s, d) ==> u.queues[s.owner[d]].writers == s.queues[s.owner[d]].writers
    requires forall d :: d in u.clients && d != c ==> d in s.clients && u.clients[d] == s.clients[d]
    requires c in u.clients ==> ClientOk(u, c)
    ensures ClientsOk(u)
  {
    forall d | d in u.clients
      ensures ClientOk(u, d)
    {
      if d != c {
        assert ClientOk(s, d);
      }
    }
  }

  lemma SplitBroker(t: Sys, u: Sys)
    requires BrokerOk(t) && ClientsOk(u) && u.index == t.index && u.owner == t.owner && u.queues == t.queues && u.panicked == t.panicked
    requires forall d :: d in t.owner ==> d in u.clients
    ensures Inv(u)
  {
    hide ClientsOk, QueuesOk, Served;
  }

  lemma OwnersAreClients(s: Sys)
    requires Inv(s)
    ensures forall d :: d in s.owner ==> d in s.clients
  {
  }

  lemma KeepsGive(s: Sys, c: Conn, order: seq<Attempt>)
    requires Inv(s) && c in s.clients && s.clients[c].pending != [] && s.clients[c].pending[0].Give?
    ensures Inv(Do(s, c, order))
  {
    hide BrokerOk, Deliver, Payload, IndexOk, QueuesOk, ClientsOk;
    var k := s.clients[c];
    var a, m := k.pending[0].attempt, k.pending[0].message;
    InvBroker(s, c);
    OwnersAreClients(s);
    var t, j := Deliver(s, a.conn, Payload(a, m)), k.(pending := k.pending[1..], received := k.received + Tally(s, a, m));
    assert a.conn in s.owner;
    DeliverKeeps(s, a.conn, Payload(a, m));
    var u := Remaining(t, c, j);
    assert ClientOk(u, c);
    hide Coherent, ClientOk;
    ClientsCarried(s, u, c);
    SplitBroker(t, u);
  }

  lemma KeepsHangup(s: Sys, c: Conn, order: seq<Attempt>)
    requires Inv(s) && c in s.clients && s.clients[c].pending != [] && s.clients[c].pending[0].Hangup?
    ensures Inv(Do(s, c, order))
  {
    hide BrokerOk, IndexOk, QueuesOk, ClientsOk;
    InvBroker(s, c);
    OwnersAreClients(s);
    var u := s.(clients := s.clients - {c});
    ClientsCarried(s, u, c);
    assert c !in s.owner;
    SplitBroker(s, u);
  }

  lemma KeepsConnect(s: Sys, c: Conn)
    requires Inv(s) && c !in s.clients
    ensures Inv(Step(s, Connect(c)))
  {
    hide IndexOk, QueuesOk, ClientsOk;
    OwnersAreClients(s);
    assert BrokerOk(s) by { InvParts(s); }
    hide BrokerOk;
    var u := Step(s, Connect(c));
    assert c !in s.owner;
    ClientsCarried(s, u, c);
    SplitBroker(s, u);
  }

  lemma InvParts(s: Sys)
    requires Inv(s)
    ensures BrokerOk(s)
  {
  }

  lemma ScriptCoherent(k: Client, command: Command, owns: bool)
    requires k.pending == [] && (k.mode == Subscriber <==> owns)
    ensures Coherent(k.(pending := Script(k, command)), owns)
    ensures forall i :: 0 <= i < |Script(k, command)| ==> !Script(k, command)[i].Give?
  {
    var p := Script(k, command);
    if command.Subscribe? && command.texts != [] {
      assert p[0].Sub? && p[|p| - 1] == Flip(Subscriber);
    }
  }

  lemma KeepsIssue(s: Sys, c: Conn, command: Command)
    requires Inv(s) && c in s.clients && s.clients[c].pending == []
    ensures Inv(Step(s, Issue(c, command)))
  {
    hide BrokerOk, IndexOk, QueuesOk, ClientsOk, Script;
    InvBroker(s, c);
    OwnersAreClients(s);
    var k := s.clients[c];
    ScriptCoherent(k, command, c in s.owner);
    var u := Step(s, Issue(c, command));
    assert ClientOk(u, c) by { hide Coherent; }
    hide Coherent, ClientOk;
    ClientsCarried(s, u, c);
    SplitBroker(s, u);
  }

  lemma KeepsWrite(s: Sys, ch: nat)
    requires Inv(s)
    ensures Inv(Step(s, Write(ch)))
  {
    if ch < |s.queues| && s.queues[ch].waiting != [] {
      hide IndexOk, ClientsOk;
      InvParts(s);
      OwnersAreClients(s);
      var q := s.queues[ch];
      var p := q.(waiting := q.waiting[1..], written := q.written + [q.waiting[0]]);
      var u := s.(queues := s.queues[ch := p]);
      ReplaceKeeps(s, ch, p);
      hide QueuesOk, Served;
      assert BrokerOk(u);
      hide BrokerOk;
      forall d | d in s.clients
        ensures ClientOk(u, d)
      {
        assert ClientOk(s, d) by { assert ClientsOk(s); AllClients(s, d); }
      }
      EachClient(u);
      SplitBroker(u, u);
    }
  }

  lemma AllClients(s: Sys, c: Conn)
    requires ClientsOk(s) && c in s.clients
    ensures ClientOk(s, c)
  {
  }

  lemma EachClient(s: Sys)
    requires forall c :: c in s.clients ==> ClientOk(s, c)
    ensures ClientsOk(s)
  {
  }

  /** Every enabled step keeps the invariant. */
  lemma StepKeeps(s: Sys, e: Event, glob: Glob)
    requires Inv(s) && Enabled(s, e, glob)
    ensures Inv(Step(s, e))
  {
    hide Inv, Do, Locked, Fanout;
    match e
    case Connect(c) => KeepsConnect(s, c);
    case Issue(c, command) => KeepsIssue(s, c, command);
    case Write(ch) => KeepsWrite(s, ch);
    case Advance(c, order) =>
      match s.clients[c].pending[0]
      case Sub(_) => KeepsSub(s, c, order);
      case Unsub(_) => KeepsUnsub(s, c, order);
      case UnsubAll => KeepsUnsubAll(s, c, order);
      case Flip(_) => KeepsFlip(s, c, order);
      case Begin(_) => KeepsBegin(s, c, order, glob);
      case Give(_, _) => KeepsGive(s, c, order);
      case Hangup => KeepsHangup(s, c, order);
  }
}
