/** What a finished command has done, whatever other connections did meanwhile, and that some step is always possible. */
module ConnectionCommands {
  import opened Base
  import opened Subscriptions
  import opened Publishing
  import opened Connections
  import opened ConnectionRuns

  // ----- Subscriptions after a command -----

  /** What one connection is subscribed to. */
  datatype Names = Names(channels: set<Bytes>, patterns: set<Bytes>)

  function NamesIn(x: Index, c: Conn): Names {
    Names(NamesOf(x.channels, c), NamesOf(x.patterns, c))
  }

  function With(n: Names, names: set<Bytes>, pattern: bool): Names {
    if pattern then n.(patterns := n.patterns + names) else n.(channels := n.channels + names)
  }

  function Without(n: Names, names: set<Bytes>, pattern: bool): Names {
    if pattern then n.(patterns := n.patterns - names) else n.(channels := n.channels - names)
  }

  function SetOf(texts: seq<Bytes>): set<Bytes> {
    set t | t in texts
  }

  /** What a command promises to do to the subscriptions of its connection. */
  function Effect(n: Names, command: Command): Names {
    match command
    case Subscribe(texts, pattern) => With(n, SetOf(texts), pattern)
    case Unsubscribe(texts, pattern) => if texts == [] then Names({}, {}) else Without(n, SetOf(texts), pattern)
    case Publish(_) => n
    case Disconnect => Names({}, {})
  }

  function AfterMicro(n: Names, m: Micro): Names {
    match m
    case Sub(name) => With(n, {name.text}, name.Pattern?)
    case Unsub(name) => Without(n, {name.text}, name.Pattern?)
    case UnsubAll => Names({}, {})
    case _ => n
  }

  /** The subscriptions once all pending steps are done. */
  function Will(n: Names, p: seq<Micro>): Names
    decreases |p|
  {
    if p == [] then n else Will(AfterMicro(n, p[0]), p[1..])
  }

  lemma {:induction false} WillSubs(n: Names, texts: seq<Bytes>, pattern: bool)
    ensures Will(n, Subs(texts, pattern) + [Flip(Subscriber)]) == With(n, SetOf(texts), pattern)
    decreases |texts|
  {
    var p := Subs(texts, pattern) + [Flip(Subscriber)];
    if texts == [] {
      assert p[1..] == [];
    } else {
      assert p[1..] == Subs(texts[1..], pattern) + [Flip(Subscriber)];
      WillSubs(With(n, {texts[0]}, pattern), texts[1..], pattern);
      assert SetOf(texts) == {texts[0]} + SetOf(texts[1..]);
    }
  }

  lemma {:induction false} WillUnsubs(n: Names, texts: seq<Bytes>, pattern: bool)
    ensures Will(n, Unsubs(texts, pattern)) == Without(n, SetOf(texts), pattern)
    decreases |texts|
  {
    if texts != [] {
      assert Unsubs(texts, pattern)[1..] == Unsubs(texts[1..], pattern);
      WillUnsubs(Without(n, {texts[0]}, pattern), texts[1..], pattern);
      assert SetOf(texts) == {texts[0]} + SetOf(texts[1..]);
    }
  }

  lemma WillNothing(n: Names, last: Micro)
    requires last.Flip? || last.Hangup?
    ensures Will(n, [UnsubAll, last]) == Names({}, {})
  {
    var p := [UnsubAll, last];
    assert p[1..] == [last] && [last][1..] == [];
    assert Will(Names({}, {}), [last]) == Names({}, {});
  }

  lemma WillScript(n: Names, k: Client, command: Command)
    ensures Will(n, Script(k, command)) == Effect(n, command)
  {
    match command
    case Subscribe(texts, pattern) =>
      if texts == [] {
        assert With(n, SetOf(texts), pattern) == n;
      } else {
        WillSubs(n, texts, pattern);
      }
    case Unsubscribe(texts, pattern) =>
      if texts == [] {
        WillNothing(n, Flip(Normal));
      } else {
        WillUnsubs(n, texts, pattern);
      }
    case Publish(m) =>
      assert [Begin(m)][1..] == [];
    case Disconnect => WillNothing(n, Hangup);
  }

  lemma MicroNames(s: Sys, c: Conn, d: Conn, order: seq<Attempt>)
    requires c in s.clients && s.clients[c].pending != []
    ensures var x := Do(s, c, order).index;
            NamesIn(x, d) == if d == c then AfterMicro(NamesIn(s.index, c), s.clients[c].pending[0]) else NamesIn(s.index, d)
  {
    hide NamesOf, Enter, Leave, LeaveAll, Count, Payload, Tidy;
    match s.clients[c].pending[0]
    case Sub(n) => EnterExactly(s.index, c, n, d);
    case Unsub(n) => LeaveExactly(s.index, c, n, d);
    case UnsubAll => LeaveAllExactly(s.index, c, d);
    case _ =>
  }

  lemma WillFlip(n: Names, p: seq<Micro>)
    ensures Will(n, [Flip(Normal)] + p) == Will(n, p)
  {
    assert ([Flip(Normal)] + p)[1..] == p;
  }

  lemma {:induction false} WillGives(n: Names, order: seq<Attempt>, m: Message)
    ensures Will(n, Gives(order, m)) == n
    decreases |order|
  {
    if order != [] {
      assert Gives(order, m)[1..] == Gives(order[1..], m);
      WillGives(n, order[1..], m);
    }
  }

  ghost predicate Undisturbed(e: Event, c: Conn) {
    !(e.Issue? && e.c == c) && !(e.Connect? && e.c == c)
  }

  /** A connection's subscriptions after its pending steps are decided: no step of anyone changes them. */
  lemma WillKept(s: Sys, e: Event, c: Conn)
    requires Inv(s) && c in s.clients && Undisturbed(e, c) && c in Step(s, e).clients
    ensures var t := Step(s, e);
            Will(NamesIn(t.index, c), t.clients[c].pending) == Will(NamesIn(s.index, c), s.clients[c].pending)
  {
    hide IndexOk, QueuesOk, NamesIn, Do;
    if e.Advance? && e.c in s.clients && s.clients[e.c].pending != [] {
      MicroNames(s, e.c, c, e.order);
      PendingAfter(s, e.c, e.order);
      if e.c == c {
        var k := s.clients[c];
        assert ClientOk(s, c);
        WillFlip(NamesIn(Step(s, e).index, c), k.pending[1..]);
        if k.pending[0].Begin? {
          assert k.pending[1..] == [];
          assert Gives(e.order, k.pending[0].message) + [] == Gives(e.order, k.pending[0].message);
          WillGives(NamesIn(s.index, c), e.order, k.pending[0].message);
        }
      }
    }
  }

  /** The pending steps after a step: the first is gone, an emptied subscription list adds the flip, a publish its deliveries. */
  lemma PendingAfter(s: Sys, c: Conn, order: seq<Attempt>)
    requires c in s.clients && s.clients[c].pending != []
    ensures var k, t := s.clients[c], Do(s, c, order);
            && (forall d :: d != c ==> (d in t.clients <==> d in s.clients) && (d in s.clients ==> t.clients[d] == s.clients[d]))
            && (c in t.clients ==>
                  var p := t.clients[c].pending;
                  match k.pending[0]
                  case Begin(m) => p == Gives(order, m) + k.pending[1..]
                  case Unsub(_) => p == k.pending[1..] || p == [Flip(Normal)] + k.pending[1..]
                  case _ => p == k.pending[1..])
  {
    hide Enter, Leave, LeaveAll, Count, Payload;
  }

  lemma {:induction false} GoneStaysGone(s: Sys, es: seq<Event>, c: Conn)
    requires c !in s.clients && forall e :: e in es ==> Undisturbed(e, c)
    ensures c !in Play(s, es).clients
    decreases |es|
  {
    hide Do;
    if es != [] {
      var e := es[0];
      assert e in es;
      if e.Advance? && e.c in s.clients && s.clients[e.c].pending != [] {
        PendingAfter(s, e.c, e.order);
      }
      GoneStaysGone(Step(s, e), es[1..], c);
    }
  }

  lemma {:induction false} WillOverRun(s: Sys, es: seq<Event>, c: Conn, glob: Glob)
    requires Inv(s) && Possible(s, es, glob) && c in s.clients
    requires forall e :: e in es ==> Undisturbed(e, c)
    requires c in Play(s, es).clients
    ensures var t := Play(s, es);
            Will(NamesIn(t.index, c), t.clients[c].pending) == Will(NamesIn(s.index, c), s.clients[c].pending)
    decreases |es|
  {
    hide Inv, Step, Enabled, Will, NamesIn;
    if es != [] {
      var t := Step(s, es[0]);
      if c !in t.clients {
        GoneStaysGone(t, es[1..], c);
      }
      StepKeeps(s, es[0], glob);
      WillKept(s, es[0], c);
      WillOverRun(t, es[1..], c, glob);
    }
  }

  /** Once a command has finished, its connection is subscribed to exactly what the command promises, however others interleaved. */
  lemma CommandEffect(s: Sys, command: Command, es: seq<Event>, c: Conn, glob: Glob)
    requires Inv(s) && c in s.clients && s.clients[c].pending == []
    requires Possible(s, [Issue(c, command)] + es, glob) && forall e :: e in es ==> Undisturbed(e, c)
    requires var t := Play(s, [Issue(c, command)] + es); c in t.clients && t.clients[c].pending == []
    ensures var t := Play(s, [Issue(c, command)] + es); NamesIn(t.index, c) == Effect(NamesIn(s.index, c), command)
  {
    hide Inv, Script, NamesIn, Effect;
    var run := [Issue(c, command)] + es;
    assert run[1..] == es;
    var u := Step(s, Issue(c, command));
    StepKeeps(s, Issue(c, command), glob);
    WillScript(NamesIn(s.index, c), s.clients[c], command);
    WillOverRun(u, es, c, glob);
  }

  /** The same name by name: SUBSCRIBE and PSUBSCRIBE add theirs, UNSUBSCRIBE and PUNSUBSCRIBE take theirs or, without any, everything. */
  lemma SubscriptionsAfter(s: Sys, command: Command, es: seq<Event>, c: Conn, glob: Glob, t: Bytes)
    requires Inv(s) && c in s.clients && s.clients[c].pending == []
    requires Possible(s, [Issue(c, command)] + es, glob) && forall e :: e in es ==> Undisturbed(e, c)
    requires var u := Play(s, [Issue(c, command)] + es); c in u.clients && u.clients[c].pending == []
    ensures var u := Play(s, [Issue(c, command)] + es);
            var exact, exact', matched, matched' := t in NamesOf(s.index.channels, c), t in NamesOf(u.index.channels, c),
                                                    t in NamesOf(s.index.patterns, c), t in NamesOf(u.index.patterns, c);
            match command
            case Subscribe(texts, false) => exact' == (exact || t in texts) && matched' == matched
            case Subscribe(texts, true) => exact' == exact && matched' == (matched || t in texts)
            case Unsubscribe(texts, false) =>
              if texts == [] then !exact' && !matched' else exact' == (exact && t !in texts) && matched' == matched
            case Unsubscribe(texts, true) =>
              if texts == [] then !exact' && !matched' else exact' == exact && matched' == (matched && t !in texts)
            case Publish(_) => exact' == exact && matched' == matched
            case Disconnect => !exact' && !matched'
  {
    hide Inv, Possible, Play, NamesOf;
    CommandEffect(s, command, es, c, glob);
  }

  /** A connection that hangs up first leaves every channel and pattern, then the server; two steps of its handler do it. */
  lemma DisconnectEnds(s: Sys, c: Conn, order: seq<Attempt>)
    requires c in s.clients && s.clients[c].pending == []
    ensures var u := Step(s, Issue(c, Disconnect));
            var v := Step(u, Advance(c, order));
            var w := Step(v, Advance(c, order));
            && c in v.clients && NamesOf(v.index.channels, c) == {} && NamesOf(v.index.patterns, c) == {}
            && c !in w.clients && w.index == v.index
  {
    hide NamesOf, LeaveAll, Tidy;
    var u := Step(s, Issue(c, Disconnect));
    LeaveAllExactly(u.index, c, c);
    assert [UnsubAll, Hangup][1..] == [Hangup];
  }

  // ----- A publish -----

  /** While a publisher delivers, nobody subscribes or unsubscribes. */
  lemma LockFreezes(s: Sys, e: Event, glob: Glob)
    requires Locked(s) && Enabled(s, e, glob)
    ensures Step(s, e).index == s.index && Step(s, e).owner == s.owner
  {
    hide Locked, Payload, Fanout;
  }

  /** The delivery, if any, that a step of a connection makes. */
  function GivenIn(s: Sys, e: Event, c: Conn): seq<Micro> {
    if e.Advance? && e.c == c && c in s.clients && s.clients[c].pending != [] && s.clients[c].pending[0].Give?
    then [s.clients[c].pending[0]] else []
  }

  /** The deliveries one connection makes in a run, as a publisher. */
  ghost function GivenBy(s: Sys, es: seq<Event>, c: Conn): seq<Micro>
    decreases |es|
  {
    if es == [] then [] else GivenIn(s, es[0], c) + GivenBy(Step(s, es[0]), es[1..], c)
  }

  lemma GivenStep(s: Sys, e: Event, c: Conn)
    requires c in s.clients && AllGives(s.clients[c].pending) && Undisturbed(e, c)
    ensures var t := Step(s, e);
            && c in t.clients && AllGives(t.clients[c].pending)
            && GivenIn(s, e, c) + t.clients[c].pending == s.clients[c].pending
  {
    hide Do, Payload;
    if e.Advance? && e.c in s.clients && s.clients[e.c].pending != [] {
      PendingAfter(s, e.c, e.order);
      if e.c == c {
        GiverStays(s, c, e.order);
      }
    }
  }

  /** A publisher makes each delivery of its fan-out once and in order, however others interleave. */
  lemma {:induction false} PublishGivesAll(s: Sys, es: seq<Event>, c: Conn)
    requires c in s.clients && AllGives(s.clients[c].pending)
    requires forall e :: e in es ==> Undisturbed(e, c)
    ensures c in Play(s, es).clients
    ensures GivenBy(s, es, c) + Play(s, es).clients[c].pending == s.clients[c].pending
    decreases |es|
  {
    hide Step, GivenIn, AllGives;
    if es != [] {
      assert es[0] in es;
      GivenStep(s, es[0], c);
      PublishGivesAll(Step(s, es[0]), es[1..], c);
    }
  }

  /**
   A publish that begins makes its deliveries, and no others, to those subscribed
   when it took the lock: what it has delivered, then what it still has to deliver, is one fan-out.
   */
  lemma PublishReachesAll(s: Sys, es: seq<Event>, c: Conn, m: Message, order: seq<Attempt>, glob: Glob)
    requires Inv(s) && c in s.clients && s.clients[c].pending == [Begin(m)]
    requires Enabled(s, Advance(c, order), glob)
    requires forall e :: e in es ==> Undisturbed(e, c)
    ensures var b := Step(s, Advance(c, order));
            && Fanout(s.index, glob, m, order) && c in Play(b, es).clients
            && GivenBy(b, es, c) + Play(b, es).clients[c].pending == Gives(order, m)
  {
    hide Fanout, Inv;
    var b := Step(s, Advance(c, order));
    assert [Begin(m)][1..] == [];
    assert b.clients[c].pending == Gives(order, m) + [];
    hide Step;
    PublishGivesAll(b, es, c);
  }

  // ----- The number a publish returns -----

  /** What a step adds to the number: one for a payload accepted from this publisher that x says is to be counted. */
  function Credited(x: Index, s: Sys, e: Event, c: Conn): nat {
    if GivenIn(s, e, c) == [] then 0
    else
      var g := GivenIn(s, e, c)[0];
      var d := g.attempt.conn;
      if Owns(s, d) && (g.attempt.via.None? || !Exact(x, g.message, d)) then |Accepted(OfferOf(s, e, s.owner[d]))| else 0
  }

  ghost function CreditedBy(x: Index, s: Sys, es: seq<Event>, c: Conn): nat
    decreases |es|
  {
    if es == [] then 0 else Credited(x, s, es[0], c) + CreditedBy(x, Step(s, es[0]), es[1..], c)
  }

  lemma ReceivedInStep(s: Sys, e: Event, c: Conn)
    requires c in s.clients && AllGives(s.clients[c].pending) && Undisturbed(e, c)
    ensures var t := Step(s, e);
            c in t.clients && t.clients[c].received == s.clients[c].received + Credited(s.index, s, e, c)
  {
    hide Payload, Deliver, Exact, Accepted;
    if e.Advance? && e.c in s.clients && s.clients[e.c].pending != [] {
      if e.c == c {
        var g := s.clients[c].pending[0];
        if Owns(s, g.attempt.conn) {
          AcceptedOne(Offer(Post(g.attempt.via, g.message), |s.queues[s.owner[g.attempt.conn]].waiting|));
        }
      } else {
        PendingAfter(s, e.c, e.order);
      }
    }
  }

  lemma NoneToGive(x: Index, s: Sys, e: Event, c: Conn)
    requires c in s.clients && s.clients[c].pending == []
    ensures Credited(x, s, e, c) == 0
  {
  }

  lemma {:induction false} ReceivedOverRun(x: Index, s: Sys, es: seq<Event>, c: Conn, glob: Glob)
    requires c in s.clients && AllGives(s.clients[c].pending) && (s.clients[c].pending != [] ==> s.index == x)
    requires Possible(s, es, glob) && forall e :: e in es ==> Undisturbed(e, c)
    ensures c in Play(s, es).clients
    ensures Play(s, es).clients[c].received == s.clients[c].received + CreditedBy(x, s, es, c)
    decreases |es|
  {
    hide Step, Enabled, Credited, GivenIn, Locked;
    if es != [] {
      var e := es[0];
      assert e in es;
      GivenStep(s, e, c);
      ReceivedInStep(s, e, c);
      if s.clients[c].pending == [] {
        NoneToGive(x, s, e, c);
        NoneToGive(s.index, s, e, c);
      } else {
        GiverLocks(s, c);
        LockFreezes(s, e, glob);
      }
      ReceivedOverRun(x, Step(s, e), es[1..], c, glob);
    }
  }

  lemma GiverLocks(s: Sys, c: Conn)
    requires c in s.clients && AllGives(s.clients[c].pending) && s.clients[c].pending != []
    ensures Locked(s)
  {
  }

  /**
   However writers, other publishers and everyone else interleave, the number a
   publish comes to is that of its payloads that were enqueued by exact
   subscription, or through a pattern to a connection that had none when the
   publisher took the lock.
   */
  lemma PublishReturns(s: Sys, es: seq<Event>, c: Conn, m: Message, order: seq<Attempt>, glob: Glob)
    requires Inv(s) && c in s.clients && s.clients[c].pending == [Begin(m)]
    requires Enabled(s, Advance(c, order), glob) && Possible(Step(s, Advance(c, order)), es, glob)
    requires forall e :: e in es ==> Undisturbed(e, c)
    ensures var b := Step(s, Advance(c, order));
            && c in Play(b, es).clients
            && Play(b, es).clients[c].received == CreditedBy(s.index, b, es, c)
  {
    hide Fanout, Inv;
    var b := Step(s, Advance(c, order));
    assert [Begin(m)][1..] == [];
    assert b.clients[c].pending == Gives(order, m) + [];
    hide Step;
    ReceivedOverRun(s.index, b, es, c, glob);
  }

  lemma GiverStays(s: Sys, c: Conn, order: seq<Attempt>)
    requires c in s.clients && s.clients[c].pending != [] && s.clients[c].pending[0].Give?
    ensures c in Do(s, c, order).clients
  {
    hide Payload;
  }

  /** Every way of addressing a connection can be put in an order: a publish can always begin. */
  lemma FanoutExists(x: Index, glob: Glob, m: Message)
    ensures exists order :: Fanout(x, glob, m, order)
  {
    var exact := set c | c in Subscribers(x.channels, m.channel) :: Attempt(c, None);
    var matched := set p, c | p in x.patterns && c in x.patterns[p] && glob(p, m.channel) :: Attempt(c, Some(p));
    var first := Listed(exact);
    var second := Listed(matched);
    var order := first + second;
    forall a
      ensures a in order <==> Addressed(x, glob, m, a)
    {
      assert a in order <==> a in first || a in second;
      assert a.via.None? ==> (Addressed(x, glob, m, a) <==> a in exact);
      assert a.via.Some? ==> (Addressed(x, glob, m, a) <==> a in matched);
    }
    forall i, j | 0 <= i < j < |order|
      ensures order[i] != order[j] && (order[j].via.None? ==> order[i].via.None?)
    {
      assert order[i] == if i < |first| then first[i] else second[i - |first|];
      assert order[j] == if j < |first| then first[j] else second[j - |first|];
      assert i < |first| ==> order[i] in exact;
      assert i >= |first| ==> order[i] in matched;
      assert j >= |first| ==> order[j] in matched;
    }
    assert Fanout(x, glob, m, order);
  }

  lemma {:induction false} Listed(s: set<Attempt>) returns (r: seq<Attempt>)
    ensures forall a :: a in r <==> a in s
    ensures forall i, j :: 0 <= i < j < |r| ==> r[i] != r[j]
    decreases s
  {
    if s == {} {
      r := [];
    } else {
      var a :| a in s;
      var rest := Listed(s - {a});
      r := [a] + rest;
    }
  }

  /** A connection that is not there can connect, and one that is idle can issue any command. */
  lemma EventsOpen(s: Sys, c: Conn, command: Command, glob: Glob)
    ensures c !in s.clients ==> Enabled(s, Connect(c), glob)
    ensures c in s.clients && s.clients[c].pending == [] ==> Enabled(s, Issue(c, command), glob)
    ensures Step(s, Connect(c)).clients == s.clients[c := Client(Normal, [], 0)]
  {
  }

  /** No deadlock: while any handler has steps left, some handler can take its next one. */
  lemma AlwaysProgress(s: Sys, c: Conn, glob: Glob)
    requires c in s.clients && s.clients[c].pending != []
    ensures exists e: Event :: e.Advance? && Enabled(s, e, glob)
  {
    hide Fanout;
    if Locked(s) {
      var d :| d in s.clients && s.clients[d].pending != [] && s.clients[d].pending[0].Give?;
      assert Enabled(s, Advance(d, []), glob);
    } else {
      var order: seq<Attempt> := [];
      if s.clients[c].pending[0].Begin? {
        FanoutExists(s.index, glob, s.clients[c].pending[0].message);
        order :| Fanout(s.index, glob, s.clients[c].pending[0].message, order);
      }
      assert Enabled(s, Advance(c, order), glob);
    }
  }

  // ----- From the command to its deliveries -----

  /** A step in which a connection's handler has no part. */
  ghost predicate Elsewhere(e: Event, c: Conn) {
    Undisturbed(e, c) && !(e.Advance? && e.c == c)
  }

  lemma {:induction false} StaysPut(s: Sys, es: seq<Event>, c: Conn)
    requires c in s.clients && forall e :: e in es ==> Elsewhere(e, c)
    ensures c in Play(s, es).clients && Play(s, es).clients[c] == s.clients[c]
    decreases |es|
  {
    hide Do;
    if es != [] {
      var e := es[0];
      assert e in es;
      if e.Advance? && e.c in s.clients && s.clients[e.c].pending != [] {
        PendingAfter(s, e.c, e.order);
      }
      StaysPut(Step(s, e), es[1..], c);
    }
  }

  /**
   PUBLISH by a connection that is not in subscriber mode: it waits its turn, then
   makes each delivery of one fan-out of its own message, and comes to the number
   of those that count.
   */
  lemma PublishFromIssue(s: Sys, before: seq<Event>, es: seq<Event>, c: Conn, m: Message, order: seq<Attempt>, glob: Glob)
    requires Inv(s) && c in s.clients && s.clients[c].pending == [] && s.clients[c].mode == Normal
    requires Possible(s, [Issue(c, Publish(m))] + before, glob) && forall e :: e in before ==> Elsewhere(e, c)
    requires var u := Play(s, [Issue(c, Publish(m))] + before);
             Enabled(u, Advance(c, order), glob) && Possible(Step(u, Advance(c, order)), es, glob)
    requires forall e :: e in es ==> Undisturbed(e, c)
    ensures var u := Play(s, [Issue(c, Publish(m))] + before);
            var b := Step(u, Advance(c, order));
            && c in u.clients && Fanout(u.index, glob, m, order) && c in Play(b, es).clients
            && GivenBy(b, es, c) + Play(b, es).clients[c].pending == Gives(order, m)
            && Play(b, es).clients[c].received == CreditedBy(u.index, b, es, c)
  {
    hide Fanout, Inv, Enabled, GivenBy, CreditedBy, Gives;
    var run := [Issue(c, Publish(m))] + before;
    assert run[1..] == before;
    RunKeeps(s, run, glob);
    Issued(s, c, m);
    var first := Step(s, Issue(c, Publish(m)));
    hide Step;
    StaysPut(first, before, c);
    var u := Play(s, run);
    assert u == Play(first, before);
    PublishReachesAll(u, es, c, m, order, glob);
    PublishReturns(u, es, c, m, order, glob);
  }

  lemma Issued(s: Sys, c: Conn, m: Message)
    requires c in s.clients && s.clients[c].mode == Normal
    ensures var u := Step(s, Issue(c, Publish(m))); c in u.clients && u.clients[c].pending == [Begin(m)]
  {
  }

  /** In subscriber mode PUBLISH is refused and nothing happens. */
  lemma PublishRefused(s: Sys, c: Conn, m: Message)
    requires c in s.clients && s.clients[c].pending == [] && s.clients[c].mode == Subscriber
    ensures Step(s, Issue(c, Publish(m))) == s
  {
    assert s.clients[c := s.clients[c]] == s.clients;
  }

  // ----- Releasing the lock -----

  /** The publishers in the middle of their deliveries. */
  function Holders(s: Sys): (r: set<Conn>)
    ensures Locked(s) <==> r != {}
  {
    var r := set c | c in s.clients && s.clients[c].pending != [] && s.clients[c].pending[0].Give?;
    assert Locked(s) ==> r != {} by {
      if Locked(s) {
        var c :| c in s.clients && s.clients[c].pending != [] && s.clients[c].pending[0].Give?;
        assert c in r;
      }
    }
    r
  }

  /** One delivery of a publisher: possible at any time, and nothing but that publisher's script and the queues change. */
  lemma GiveOnce(s: Sys, c: Conn, glob: Glob)
    requires c in s.clients && s.clients[c].pending != [] && s.clients[c].pending[0].Give?
    ensures var k := s.clients[c];
            && Enabled(s, Advance(c, []), glob)
            && Step(s, Advance(c, [])).clients.Keys == s.clients.Keys
            && Step(s, Advance(c, [])).clients[c].pending == k.pending[1..]
            && (forall d :: d in s.clients && d != c ==> Step(s, Advance(c, [])).clients[d] == s.clients[d])
            && Step(s, Advance(c, [])).index == s.index
  {
    hide Payload, Fanout;
  }

  lemma {:induction false} FinishGives(s: Sys, c: Conn, glob: Glob) returns (es: seq<Event>)
    requires c in s.clients && AllGives(s.clients[c].pending)
    ensures Possible(s, es, glob) && forall e :: e in es ==> e == Advance(c, [])
    ensures Play(s, es).clients.Keys == s.clients.Keys && Play(s, es).clients[c].pending == [] && Play(s, es).index == s.index
    ensures forall d :: d in s.clients && d != c ==> Play(s, es).clients[d] == s.clients[d]
    ensures |es| == |s.clients[c].pending|
    decreases |s.clients[c].pending|
  {
    hide Step, Enabled;
    var k := s.clients[c];
    if k.pending == [] {
      es := [];
    } else {
      GiveOnce(s, c, glob);
      var t := Step(s, Advance(c, []));
      var rest := FinishGives(t, c, glob);
      es := [Advance(c, [])] + rest;
      assert es[1..] == rest;
    }
  }

  lemma {:induction false} PlayAppend(s: Sys, a: seq<Event>, b: seq<Event>, glob: Glob)
    ensures Play(s, a + b) == Play(Play(s, a), b)
    ensures Possible(s, a + b, glob) <==> Possible(s, a, glob) && Possible(Play(s, a), b, glob)
    decreases |a|
  {
    hide Step, Enabled;
    if a == [] {
      assert a + b == b;
    } else {
      assert (a + b)[1..] == a[1..] + b;
      PlayAppend(Step(s, a[0]), a[1..], b, glob);
    }
  }

  /** Publishers with only deliveries left can finish them, after which nobody holds the lock and nobody else has moved. */
  lemma {:induction false} LockReleases(s: Sys, glob: Glob) returns (es: seq<Event>)
    requires forall c :: c in Holders(s) ==> AllGives(s.clients[c].pending)
    ensures Possible(s, es, glob) && forall e :: e in es ==> e.Advance? && e.c in Holders(s)
    ensures var t := Play(s, es);
            && !Locked(t) && t.index == s.index && t.clients.Keys == s.clients.Keys
            && forall c :: c in s.clients && c !in Holders(s) ==> t.clients[c] == s.clients[c]
    decreases Holders(s)
  {
    hide Locked, AllGives;
    if Holders(s) == {} {
      es := [];
    } else {
      var c :| c in Holders(s);
      var first := FinishGives(s, c, glob);
      var t := Play(s, first);
      assert t.clients[c].pending == [];
      assert Holders(t) == Holders(s) - {c};
      var rest := LockReleases(t, glob);
      es := first + rest;
      PlayAppend(s, first, rest, glob);
    }
  }

  lemma HoldersOnlyGive(s: Sys, c: Conn)
    requires Inv(s) && c in Holders(s)
    ensures AllGives(s.clients[c].pending)
  {
    assert ClientOk(s, c);
  }

  /** A handler that waits for the lock can have its turn: finitely many deliveries of the publishers that hold it enable its step. */
  lemma WaitingGetsTurn(s: Sys, w: Conn, glob: Glob) returns (es: seq<Event>)
    requires Inv(s) && w in s.clients && s.clients[w].pending != []
    requires var m := s.clients[w].pending[0]; m.Sub? || m.Unsub? || m.UnsubAll?
    ensures Possible(s, es, glob) && forall e :: e in es ==> e.Advance? && e.c in Holders(s)
    ensures Enabled(Play(s, es), Advance(w, []), glob)
  {
    hide Inv, Locked, AllGives, Possible, Play;
    forall c | c in Holders(s)
      ensures AllGives(s.clients[c].pending)
    {
      HoldersOnlyGive(s, c);
    }
    es := LockReleases(s, glob);
    assert Play(s, es).clients[w] == s.clients[w];
  }
}
