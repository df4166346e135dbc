/** The broker as an object: two maps of subscriber sets and a delivery channel per connection, updated in place. */
module PubSub {
  import opened Base
  import opened Subscriptions
  import opened PushFrames
  import opened Publishing

  /** A buffered channel of capacity 64. */
  class DeliveryChan {
    var buffer: seq<Bytes>
    var closed: bool

    constructor ()
      ensures buffer == [] && !closed
    {
      buffer, closed := [], false;
    }

    /** select with a default branch: never blocks; a send on a closed channel would panic. */
    method TrySend(payload: Bytes) returns (sent: bool)
      requires !closed
      modifies this
      ensures sent == (|old(buffer)| < 64)
      ensures buffer == (if sent then old(buffer) + [payload] else old(buffer)) && !closed
    {
      sent := |buffer| < CAPACITY;
      if sent {
        buffer := buffer + [payload];
      }
    }

    /** A second close would panic. */
    method Close()
      requires !closed
      modifies this
      ensures closed && buffer == old(buffer)
    {
      closed := true;
    }
  }

  class PubSubBroker {
    var channels: Table
    var patterns: Table
    var connChans: map<Conn, DeliveryChan>

    ghost function Subs(): Index
      reads this`channels, this`patterns
    {
      Index(channels, patterns)
    }

    /** Every channel in the map is open, within capacity, and belongs to one connection. */
    ghost predicate ChansOk()
      reads this`connChans, connChans.Values
    {
      && (forall c :: c in connChans ==> !connChans[c].closed && |connChans[c].buffer| <= 64)
      && (forall c, d :: c in connChans && d in connChans && c != d ==> connChans[c] != connChans[d])
    }

    /** A channel for exactly the connections found in some set, and no empty set. */
    ghost predicate Valid()
      reads this, connChans.Values
    {
      ChansOk() && Served(Subs(), connChans.Keys)
    }

    ghost function View(): Queues
      reads this`connChans, connChans.Values
    {
      map c | c in connChans :: connChans[c].buffer
    }

    constructor ()
      ensures Valid() && Subs() == NOBODY && connChans == map[]
    {
      channels, patterns, connChans := map[], map[], map[];
    }

    method GetOrCreateChan(conn: Conn) returns (ch: DeliveryChan)
      requires ChansOk()
      modifies this`connChans
      ensures ChansOk() && conn in connChans && connChans[conn] == ch
      ensures conn in old(connChans) ==> connChans == old(connChans)
      ensures conn !in old(connChans) ==> connChans == old(connChans)[conn := ch] && fresh(ch) && ch.buffer == []
      ensures View() == if conn in old(connChans) then old(View()) else old(View())[conn := []]
    {
      if conn in connChans {
        ch := connChans[conn];
      } else {
        ch := new DeliveryChan();
        connChans := connChans[conn := ch];
      }
    }

    method CloseAndRemoveConnChan(conn: Conn)
      requires ChansOk()
      modifies this`connChans, connChans.Values
      ensures ChansOk() && connChans == old(connChans) - {conn}
      ensures View() == old(View()) - {conn}
      ensures conn in old(connChans) ==> old(connChans[conn]).closed
    {
      if conn in connChans {
        connChans[conn].Close();
        connChans := connChans - {conn};
      }
    }

    /** The loop over one table, in any order. */
    method CountIn(t: Table, conn: Conn) returns (count: nat)
      ensures count == |NamesOf(t, conn)|
    {
      count := 0;
      var rest := t.Keys;
      ghost var found: set<Bytes> := {};
      NoneCounted(t, conn);
      hide NamesOf;
      while rest != {}
        invariant rest <= t.Keys && found == NamesOf(t, conn) - rest && count == |found|
        decreases |rest|
      {
        var name :| name in rest;
        NameCounted(t, conn, rest, name);
        if conn in t[name] {
          count := count + 1;
          found := found + {name};
        }
        rest := rest - {name};
      }
      assert NamesOf(t, conn) - {} == NamesOf(t, conn);
    }

    method CountSubscriptions(conn: Conn) returns (count: nat)
      ensures count == Count(Subs(), conn)
    {
      var exact := CountIn(channels, conn);
      var matched := CountIn(patterns, conn);
      count := exact + matched;
    }

    // ----- Subscribing and unsubscribing -----

    /** Makes the set on the first subscriber, then adds to it. */
    method AddTo(t: Table, name: Bytes, conn: Conn) returns (r: Table)
      ensures r == Added(t, name, conn)
    {
      r := t;
      if name !in r {
        r := r[name := {}];
      }
      r := r[name := r[name] + {conn}];
    }

    /** Takes from the set and removes it when that empties it. */
    method RemoveFrom(t: Table, name: Bytes, conn: Conn) returns (r: Table)
      ensures r == Dropped(t, name, conn)
    {
      r := t;
      if name in r {
        r := r[name := r[name] - {conn}];
        if r[name] == {} {
          r := r - {name};
        }
      }
    }

    method Subscribe(conn: Conn, channel: Bytes) returns (count: nat)
      requires Valid()
      modifies this`channels, this`connChans
      ensures Valid() && Subs() == Enter(old(Subs()), conn, Channel(channel)) && count == Count(Subs(), conn)
      ensures View() == if conn in old(connChans) then old(View()) else old(View())[conn := []]
      ensures forall c :: c in old(connChans) ==> c in connChans && connChans[c] == old(connChans[c])
    {
      hide Enter, Served, Count, ChansOk, View;
      var ch := GetOrCreateChan(conn);
      channels := AddTo(channels, channel, conn);
      EnterChannel(old(Subs()), conn, channel);
      EnterServed(old(Subs()), old(connChans).Keys, conn, Channel(channel));
      assert connChans.Keys == old(connChans).Keys + {conn};
      count := CountSubscriptions(conn);
    }

    method PSubscribe(conn: Conn, pattern: Bytes) returns (count: nat)
      requires Valid()
      modifies this`patterns, this`connChans
      ensures Valid() && Subs() == Enter(old(Subs()), conn, Pattern(pattern)) && count == Count(Subs(), conn)
      ensures View() == if conn in old(connChans) then old(View()) else old(View())[conn := []]
      ensures forall c :: c in old(connChans) ==> c in connChans && connChans[c] == old(connChans[c])
    {
      hide Enter, Served, Count, ChansOk, View;
      var ch := GetOrCreateChan(conn);
      patterns := AddTo(patterns, pattern, conn);
      EnterPattern(old(Subs()), conn, pattern);
      EnterServed(old(Subs()), old(connChans).Keys, conn, Pattern(pattern));
      assert connChans.Keys == old(connChans).Keys + {conn};
      count := CountSubscriptions(conn);
    }

    method Unsubscribe(conn: Conn, channel: Bytes) returns (remaining: nat)
      requires Valid()
      modifies this`channels, this`connChans, connChans.Values
      ensures Valid() && Subs() == Leave(old(Subs()), conn, Channel(channel)) && remaining == Count(Subs(), conn)
      ensures connChans == if remaining == 0 then old(connChans) - {conn} else old(connChans)
      ensures View() == if remaining == 0 then old(View()) - {conn} else old(View())
      ensures remaining == 0 && conn in old(connChans) ==> old(connChans[conn]).closed
    {
      hide Leave, Served, Count, ChansOk, View;
      channels := RemoveFrom(channels, channel, conn);
      LeaveChannel(old(Subs()), conn, channel);
      LeaveServed(old(Subs()), old(connChans).Keys, conn, Channel(channel));
      remaining := CountSubscriptions(conn);
      if remaining == 0 {
        CloseAndRemoveConnChan(conn);
        assert connChans.Keys == old(connChans).Keys - {conn};
      }
    }

    method PUnsubscribe(conn: Conn, pattern: Bytes) returns (remaining: nat)
      requires Valid()
      modifies this`patterns, this`connChans, connChans.Values
      ensures Valid() && Subs() == Leave(old(Subs()), conn, Pattern(pattern)) && remaining == Count(Subs(), conn)
      ensures connChans == if remaining == 0 then old(connChans) - {conn} else old(connChans)
      ensures View() == if remaining == 0 then old(View()) - {conn} else old(View())
      ensures remaining == 0 && conn in old(connChans) ==> old(connChans[conn]).closed
    {
      hide Leave, Served, Count, ChansOk, View;
      patterns := RemoveFrom(patterns, pattern, conn);
      LeavePattern(old(Subs()), conn, pattern);
      LeaveServed(old(Subs()), old(connChans).Keys, conn, Pattern(pattern));
      remaining := CountSubscriptions(conn);
      if remaining == 0 {
        CloseAndRemoveConnChan(conn);
        assert connChans.Keys == old(connChans).Keys - {conn};
      }
    }

    /** The loop over one table that deletes as it goes, in any order. */
    method RemoveEverywhere(t: Table, conn: Conn) returns (r: Table)
      ensures r == DroppedEverywhere(t, conn)
    {
      r := t;
      var rest := t.Keys;
      while rest != {}
        invariant rest <= t.Keys
        invariant forall name :: name in rest ==> name in r && r[name] == t[name]
        invariant forall name :: name !in rest ==> (name in r <==> name in DroppedEverywhere(t, conn))
        invariant forall name :: name !in rest && name in r ==> r[name] == DroppedEverywhere(t, conn)[name]
        decreases |rest|
      {
        var name :| name in rest;
        r := RemoveFrom(r, name, conn);
        rest := rest - {name};
      }
    }

    method UnsubscribeAll(conn: Conn)
      requires Valid()
      modifies this`channels, this`patterns, this`connChans, connChans.Values
      ensures Valid() && Subs() == LeaveAll(old(Subs()), conn)
      ensures connChans == old(connChans) - {conn} && View() == old(View()) - {conn}
      ensures conn in old(connChans) ==> old(connChans[conn]).closed
    {
      hide Served, DroppedEverywhere, ChansOk, View;
      channels := RemoveEverywhere(channels, conn);
      patterns := RemoveEverywhere(patterns, conn);
      LeaveAllServed(old(Subs()), old(connChans).Keys, conn);
      CloseAndRemoveConnChan(conn);
      assert connChans.Keys == old(connChans).Keys - {conn};
    }

    // ----- Publishing -----

    method Deliver(conn: Conn, payload: Bytes) returns (sent: bool)
      requires ChansOk()
      modifies connChans.Values
      ensures ChansOk() && View() == Offer(old(View()), conn, payload) && sent == Accepts(old(View()), conn)
    {
      if conn in connChans {
        sent := connChans[conn].TrySend(payload);
      } else {
        sent := false;
      }
    }

    /** The deliveries made since the queues were q: the state, and the counter. */
    ghost predicate Progress(q: Queues, done: seq<Attempt>, m: Message, received: nat)
      reads this, connChans.Values
    {
      ChansOk() && View() == After(q, done, m) && received == Received(q, Subs(), done, m)
    }

    /** One turn of either loop. */
    method DeliverNext(a: Attempt, m: Message, payload: Bytes, ghost q: Queues, ghost done: seq<Attempt>, received: nat) returns (n: nat)
      requires Progress(q, done, m, received) && payload == Payload(a, m)
      modifies connChans.Values
      ensures Progress(q, done + [a], m, n)
    {
      hide ChansOk, View, After, Offer, Accepts, Received, Exact, Payload;
      var sent := Deliver(a.conn, payload);
      n := if sent && (a.via.None? || !Exact(Index(channels, patterns), m, a.conn)) then received + 1 else received;
      OneStep(q, Subs(), done, a, m);
    }

    /** The loop over the subscribers of one name, in any order. */
    method DeliverAll(v: Option<Bytes>, subs: set<Conn>, m: Message, payload: Bytes, glob: Glob, ghost q: Queues,
                      ghost vias: set<Option<Bytes>>, ghost start: seq<Attempt>, before: nat) returns (received: nat, ghost done: seq<Attempt>)
      requires Progress(q, start, m, before) && Covers(start, Subs(), glob, m, vias)
      requires v !in vias && (v.None? ==> vias == {}) && payload == Frame(v, m.channel, m.text)
      requires forall c :: c in subs <==> Addressed(Subs(), glob, m, Attempt(c, v))
      modifies connChans.Values
      ensures Progress(q, done, m, received) && Covers(done, Subs(), glob, m, vias + {v})
    {
      hide Progress, Covers, Turned, Addressed, Frame;
      received, done := before, start;
      TurnStarts(start, Subs(), glob, m, vias, v, subs);
      var rest := subs;
      while rest != {}
        invariant rest <= subs && Progress(q, done, m, received) && Turned(done, Subs(), glob, m, vias, v, rest)
        decreases |rest|
      {
        var conn :| conn in rest;
        TurnOn(done, Subs(), glob, m, vias, v, rest, conn);
        received := DeliverNext(Attempt(conn, v), m, payload, q, done, received);
        done := done + [Attempt(conn, v)];
        rest := rest - {conn};
      }
      TurnEnds(done, Subs(), glob, m, vias, v);
    }

    /** The loop over the patterns, in any order. */
    method DeliverPatterns(m: Message, glob: Glob, ghost q: Queues, ghost start: seq<Attempt>, before: nat) returns (received: nat, ghost done: seq<Attempt>)
      requires Progress(q, start, m, before) && Covers(start, Subs(), glob, m, {None})
      requires |m.channel| <= MAX_INT64 && |m.text| <= MAX_INT64 && forall p :: p in patterns ==> |p| <= MAX_INT64
      modifies connChans.Values
      ensures Progress(q, done, m, received) && Fanout(Subs(), glob, m, done)
    {
      hide Progress, Covers, Frame, Fanout;
      received, done := before, start;
      var rest := patterns.Keys;
      ghost var vias: set<Option<Bytes>> := {None};
      while rest != {}
        invariant rest <= patterns.Keys && Progress(q, done, m, received) && Covers(done, Subs(), glob, m, vias)
        invariant None in vias && forall p :: p in patterns ==> (Some(p) in vias <==> p !in rest)
        decreases |rest|
      {
        var p :| p in rest;
        if glob(p, m.channel) {
          var payload := EncodePMessage(p, m.channel, m.text);
          received, done := DeliverAll(Some(p), patterns[p], m, payload, glob, q, vias, done, received);
        } else {
          TurnSkipped(done, Subs(), glob, m, vias, Some(p));
        }
        vias := vias + {Some(p)};
        rest := rest - {p};
      }
      AllTurned(done, Subs(), glob, m, vias);
    }

    /** Some fan-out of the message is delivered; the queues and the number returned are what that fan-out makes of them. */
    method Publish(m: Message, glob: Glob) returns (received: nat, ghost done: seq<Attempt>)
      requires Valid()
      requires |m.channel| <= MAX_INT64 && |m.text| <= MAX_INT64 && forall p :: p in patterns ==> |p| <= MAX_INT64
      modifies connChans.Values
      ensures Valid() && Fanout(Subs(), glob, m, done)
      ensures View() == After(old(View()), done, m) && received == Received(old(View()), Subs(), done, m)
    {
      hide Covers, Frame, Fanout, Served, ChansOk;
      ghost var q := View();
      received, done := 0, [];
      ghost var none: set<Option<Bytes>> := {};
      assert none + {None} == {None};
      CoversNothing(Subs(), glob, m);
      assert Progress(q, done, m, received);
      hide Progress, View;
      if m.channel in channels {
        var payload := EncodeMessage(m.channel, m.text);
        received, done := DeliverAll(None, channels[m.channel], m, payload, glob, q, none, done, received);
      } else {
        TurnSkipped(done, Subs(), glob, m, none, None);
      }
      received, done := DeliverPatterns(m, glob, q, done, received);
      assert Progress(q, done, m, received);
      Finished(q, done, m, received);
    }

    lemma Finished(q: Queues, done: seq<Attempt>, m: Message, received: nat)
      requires Progress(q, done, m, received)
      ensures ChansOk() && View() == After(q, done, m) && received == Received(q, Subs(), done, m)
    {
    }
  }

  lemma NoneCounted(t: Table, conn: Conn)
    ensures NamesOf(t, conn) - t.Keys == {}
  {
  }

  lemma NameCounted(t: Table, conn: Conn, rest: set<Bytes>, name: Bytes)
    requires name in rest && rest <= t.Keys
    ensures var was := NamesOf(t, conn) - rest;
            && NamesOf(t, conn) - (rest - {name}) == (if conn in t[name] then was + {name} else was)
            && |was + {name}| == |was| + 1
  {
    assert name !in NamesOf(t, conn) - rest;
  }

  /** What one more attempt adds to the queues and to the counter. */
  lemma OneStep(q: Queues, x: Index, done: seq<Attempt>, a: Attempt, m: Message)
    ensures After(q, done + [a], m) == Offer(After(q, done, m), a.conn, Payload(a, m))
    ensures Received(q, x, done + [a], m) ==
            Received(q, x, done, m) + if Accepts(After(q, done, m), a.conn) && (a.via.None? || !Exact(x, m, a.conn)) then 1 else 0
  {
    hide Payload, Exact, Offer, Accepts;
    assert (done + [a])[..|done|] == done;
  }

  lemma CoversNothing(x: Index, glob: Glob, m: Message)
    ensures Covers([], x, glob, m, {})
  {
  }

  lemma EnterChannel(x: Index, c: Conn, text: Bytes)
    ensures Enter(x, c, Channel(text)) == Index(Added(x.channels, text, c), x.patterns)
  {
  }

  lemma EnterPattern(x: Index, c: Conn, text: Bytes)
    ensures Enter(x, c, Pattern(text)) == Index(x.channels, Added(x.patterns, text, c))
  {
  }

  lemma LeaveChannel(x: Index, c: Conn, text: Bytes)
    ensures Leave(x, c, Channel(text)) == Index(Dropped(x.channels, text, c), x.patterns)
  {
  }

  lemma LeavePattern(x: Index, c: Conn, text: Bytes)
    ensures Leave(x, c, Pattern(text)) == Index(x.channels, Dropped(x.patterns, text, c))
  {
  }
}
