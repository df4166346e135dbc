/** What holds over every run of the subscriber machine. */
module ConnectionRuns {
  import opened Base
  import opened Subscriptions
  import opened Resp
  import opened LogFile
  import opened PushFrames
  import opened Publishing
  import opened Connections

  // ----- Runs -----

  ghost function Play(s: Sys, es: seq<Event>): Sys
    decreases |es|
  {
    if es == [] then s else Play(Step(s, es[0]), es[1..])
  }

  ghost predicate Possible(s: Sys, es: seq<Event>, glob: Glob)
    decreases |es|
  {
    es != [] ==> Enabled(s, es[0], glob) && Possible(Step(s, es[0]), es[1..], glob)
  }

  lemma {:induction false} RunKeeps(s: Sys, es: seq<Event>, glob: Glob)
    requires Inv(s) && Possible(s, es, glob)
    ensures Inv(Play(s, es))
    decreases |es|
  {
    hide Inv, Step, Enabled;
    if es != [] {
      StepKeeps(s, es[0], glob);
      RunKeeps(Step(s, es[0]), es[1..], glob);
    }
  }

  lemma StartOk()
    ensures Inv(START)
  {
  }

  // ----- Modes, subscriptions and writers -----

  /** Between commands: subscriber mode, at least one subscription and an open channel with one writer go together. */
  lemma ModeAgrees(es: seq<Event>, c: Conn, glob: Glob)
    requires Possible(START, es, glob)
    requires var s := Play(START, es); c in s.clients && s.clients[c].pending == []
    ensures var s := Play(START, es);
            var sub := s.clients[c].mode == Subscriber;
            && (sub <==> Count(s.index, c) > 0)
            && (sub <==> Owns(s, c))
            && (sub ==> !s.queues[s.owner[c]].closed && s.queues[s.owner[c]].writers == 1)
  {
    hide Play, Possible, Tidy, Subscribed;
    StartOk();
    RunKeeps(START, es, glob);
    var s := Play(START, es);
    CountTells(s.index, c);
    assert ClientOk(s, c);
  }

  /** At any point of any run: no panic, at most one writer a channel, at most 64 payloads waiting. */
  lemma ChannelsSafe(es: seq<Event>, ch: nat, glob: Glob)
    requires Possible(START, es, glob) && ch < |Play(START, es).queues|
    ensures var s := Play(START, es);
            && !s.panicked && s.queues[ch].writers <= 1 && |s.queues[ch].waiting| <= 64
            && (s.queues[ch].closed ==> s.queues[ch].writers == 1)
            && (!s.queues[ch].closed <==> exists c :: c in s.owner && s.owner[c] == ch)
  {
    hide Play, Possible, Tidy, Subscribed, ClientsOk;
    StartOk();
    RunKeeps(START, es, glob);
  }

  /** A connection that is gone has left nothing behind: no subscription, no channel; and no set is kept for nobody. */
  lemma NoTrace(es: seq<Event>, c: Conn, glob: Glob)
    requires Possible(START, es, glob) && c !in Play(START, es).clients
    ensures var s := Play(START, es);
            && c !in s.owner && Tidy(s.index)
            && (forall name :: name in s.index.channels ==> c !in s.index.channels[name])
            && (forall name :: name in s.index.patterns ==> c !in s.index.patterns[name])
  {
    hide Play, Possible, Tidy, ClientsOk, QueuesOk;
    StartOk();
    RunKeeps(START, es, glob);
    var s := Play(START, es);
    assert !Subscribed(s.index, c);
    forall name | name in s.index.channels
      ensures c !in s.index.channels[name]
    {
      assert name !in NamesOf(s.index.channels, c);
    }
    forall name | name in s.index.patterns
      ensures c !in s.index.patterns[name]
    {
      assert name !in NamesOf(s.index.patterns, c);
    }
  }

  // ----- Delivery -----

  /** What one delivery is about. */
  datatype Post = Post(via: Option<Bytes>, message: Message)

  function FrameOf(p: Post): Bytes {
    Frame(p.via, p.message.channel, p.message.text)
  }

  function Frames(posts: seq<Post>): (r: seq<Bytes>)
    ensures |r| == |posts|
  {
    if posts == [] then [] else [FrameOf(posts[0])] + Frames(posts[1..])
  }

  lemma {:induction false} FramesAppend(a: seq<Post>, b: seq<Post>)
    ensures Frames(a + b) == Frames(a) + Frames(b)
  {
    hide FrameOf;
    if a == [] {
      assert a + b == b;
    } else {
      assert (a + b)[1..] == a[1..] + b;
      FramesAppend(a[1..], b);
    }
  }

  /** A delivery offered to a channel, and how many payloads were waiting in it at that moment. */
  datatype Offer = Offer(post: Post, depth: nat)

  /** The delivery, if any, that a step makes to a channel. */
  function OfferOf(s: Sys, e: Event, ch: nat): seq<Offer> {
    if e.Advance? && e.c in s.clients && s.clients[e.c].pending != [] && s.clients[e.c].pending[0].Give? then
      var g := s.clients[e.c].pending[0];
      if Owns(s, g.attempt.conn) && s.owner[g.attempt.conn] == ch
      then [Offer(Post(g.attempt.via, g.message), |s.queues[ch].waiting|)] else []
    else []
  }

  ghost function OffersTo(s: Sys, es: seq<Event>, ch: nat): seq<Offer>
    decreases |es|
  {
    if es == [] then [] else OfferOf(s, es[0], ch) + OffersTo(Step(s, es[0]), es[1..], ch)
  }

  /** What was offered while there was room. */
  function Accepted(offers: seq<Offer>): seq<Post> {
    if offers == [] then []
    else (if offers[0].depth < 64 then [offers[0].post] else []) + Accepted(offers[1..])
  }

  lemma {:induction false} AcceptedAppend(a: seq<Offer>, b: seq<Offer>)
    ensures Accepted(a + b) == Accepted(a) + Accepted(b)
  {
    if a == [] {
      assert a + b == b;
    } else {
      assert (a + b)[1..] == a[1..] + b;
      AcceptedAppend(a[1..], b);
    }
  }

  /** Everything a channel ever took: what its writer has written, then what waits. */
  function Taken(s: Sys, ch: nat): seq<Bytes> {
    if ch < |s.queues| then s.queues[ch].written + s.queues[ch].waiting else []
  }

  lemma WriteTakes(s: Sys, w: nat, ch: nat)
    ensures Taken(Step(s, Write(w)), ch) == Taken(s, ch)
  {
    if w < |s.queues| && s.queues[w].waiting != [] && w == ch {
      var q := s.queues[ch];
      assert (q.written + [q.waiting[0]]) + q.waiting[1..] == q.written + q.waiting;
    }
  }

  lemma AcceptedOne(o: Offer)
    ensures Accepted([o]) == (if o.depth < 64 then [o.post] else [])
    ensures Frames(Accepted([o])) == (if o.depth < 64 then [FrameOf(o.post)] else [])
  {
    hide FrameOf;
    assert [o][1..] == [] && Accepted([o][1..]) == [] && [o.post][1..] == [];
    assert Frames([o.post]) == [FrameOf(o.post)] + Frames([o.post][1..]);
  }

  lemma GiveTakes(s: Sys, c: Conn, order: seq<Attempt>, ch: nat)
    requires c in s.clients && s.clients[c].pending != [] && s.clients[c].pending[0].Give?
    ensures Taken(Do(s, c, order), ch) == Taken(s, ch) + Frames(Accepted(OfferOf(s, Advance(c, order), ch)))
  {
    hide Frame;
    var offers := OfferOf(s, Advance(c, order), ch);
    if offers != [] {
      var q, payload := s.queues[ch], FrameOf(offers[0].post);
      AcceptedOne(offers[0]);
      assert q.written + (q.waiting + [payload]) == (q.written + q.waiting) + [payload];
    }
  }

  lemma DoTakesNothing(s: Sys, c: Conn, order: seq<Attempt>, ch: nat)
    requires c in s.clients && s.clients[c].pending != [] && !s.clients[c].pending[0].Give?
    ensures Taken(Do(s, c, order), ch) == Taken(s, ch)
  {
    hide Enter, Leave, LeaveAll, Count;
    match s.clients[c].pending[0]
    case Sub(n) =>
      assert Taken(Open(s, c), ch) == Taken(s, ch);
    case Unsub(n) =>
    case UnsubAll =>
    case Flip(_) =>
    case Begin(_) =>
    case Hangup =>
  }

  lemma StepTakes(s: Sys, e: Event, ch: nat)
    ensures Taken(Step(s, e), ch) == Taken(s, ch) + Frames(Accepted(OfferOf(s, e, ch)))
  {
    hide Do, FrameOf;
    match e
    case Connect(_) =>
    case Issue(_, _) =>
    case Write(w) => WriteTakes(s, w, ch);
    case Advance(c, order) =>
      if c in s.clients && s.clients[c].pending != [] {
        if s.clients[c].pending[0].Give? {
          GiveTakes(s, c, order, ch);
        } else {
          DoTakesNothing(s, c, order, ch);
        }
      }
  }

  lemma NothingAccepted()
    ensures Accepted([]) == [] && Frames([]) == []
  {
  }

  lemma {:induction false} RunTakes(s: Sys, es: seq<Event>, ch: nat)
    ensures Taken(Play(s, es), ch) == Taken(s, ch) + Frames(Accepted(OffersTo(s, es, ch)))
    decreases |es|
  {
    hide Step, OfferOf, Taken, Accepted, Frames;
    if es == [] {
      NothingAccepted();
    } else {
      var first, later := OfferOf(s, es[0], ch), OffersTo(Step(s, es[0]), es[1..], ch);
      StepTakes(s, es[0], ch);
      RunTakes(Step(s, es[0]), es[1..], ch);
      AcceptedAppend(first, later);
      FramesAppend(Accepted(first), Accepted(later));
    }
  }

  /** Over any run: what a channel's writer wrote, then what waits, is what was offered to it in order, less exactly what found 64 waiting. */
  lemma DeliveredInOrder(es: seq<Event>, ch: nat, glob: Glob)
    requires Possible(START, es, glob) && ch < |Play(START, es).queues|
    ensures var q := Play(START, es).queues[ch];
            q.written + q.waiting == Frames(Accepted(OffersTo(START, es, ch))) && |q.waiting| <= 64
  {
    hide Frames;
    RunTakes(START, es, ch);
    ChannelsSafe(es, ch, glob);
  }

  // ----- What the other end of the connection reads -----

  /** Lengths that Go's int can hold. */
  predicate Sized(p: Post) {
    (p.via.Some? ==> |p.via.value| <= MAX_INT64 - 2) && |p.message.channel| <= MAX_INT64 - 2 && |p.message.text| <= MAX_INT64 - 2
  }

  function PartsOf(p: Post): (parts: seq<Bytes>)
    ensures parts != []
  {
    match p.via
    case None => [MESSAGE, p.message.channel, p.message.text]
    case Some(pattern) => [PMESSAGE, pattern, p.message.channel, p.message.text]
  }

  function AllParts(posts: seq<Post>): (r: seq<seq<Bytes>>)
    ensures |r| == |posts| && forall j :: 0 <= j < |r| ==> r[j] == PartsOf(posts[j])
  {
    seq(|posts|, j requires 0 <= j < |posts| => PartsOf(posts[j]))
  }

  /** The bytes of several writes. */
  function Stream(chunks: seq<Bytes>): Bytes {
    if chunks == [] then [] else chunks[0] + Stream(chunks[1..])
  }

  lemma {:induction false} StreamOfFrames(posts: seq<Post>)
    ensures Stream(Frames(posts)) == EncodeLog(AllParts(posts))
  {
    hide Encode, ToResp;
    if posts != [] {
      assert Frames(posts)[1..] == Frames(posts[1..]) && AllParts(posts)[1..] == AllParts(posts[1..]);
      StreamOfFrames(posts[1..]);
      FrameIsParts(posts[0]);
    }
  }

  lemma FrameIsParts(p: Post)
    ensures FrameOf(p) == Encode(ToResp(PartsOf(p)))
  {
    hide Encode, ToResp;
  }

  lemma {:induction false} FramesPrefix(posts: seq<Post>, k: nat)
    requires k <= |posts|
    ensures Frames(posts)[..k] == Frames(posts[..k])
  {
    assert posts == posts[..k] + posts[k..];
    FramesAppend(posts[..k], posts[k..]);
  }

  lemma StorableParts(posts: seq<Post>)
    requires forall p :: p in posts ==> Sized(p)
    ensures StorableLog(AllParts(posts))
  {
    forall e | e in AllParts(posts)
      ensures Storable(e)
    {
      var j :| 0 <= j < |posts| && AllParts(posts)[j] == e;
      assert posts[j] in posts;
    }
  }

  /** An array of bulk strings with the parts written out. */
  lemma PartsRead(p: Post)
    ensures match p.via
            case None =>
              ToResp(PartsOf(p)) == Array([BulkString([109, 101, 115, 115, 97, 103, 101]), BulkString(p.message.channel), BulkString(p.message.text)])
            case Some(pattern) =>
              ToResp(PartsOf(p)) == Array([BulkString([112, 109, 101, 115, 115, 97, 103, 101]), BulkString(pattern),
                                           BulkString(p.message.channel), BulkString(p.message.text)])
  {
    var parts := PartsOf(p);
    BulkAt(parts, 0);
    BulkAt(parts, 1);
    BulkAt(parts, 2);
    if p.via.Some? {
      BulkAt(parts, 3);
    }
    hide Bulks;
    assert |Bulks(parts)| == |parts|;
  }

  /** Everything a writer wrote reads back as one array for each accepted delivery, in order: "message", channel and text, or "pmessage", pattern, channel and text. */
  lemma WrittenReads(es: seq<Event>, ch: nat, glob: Glob, j: nat)
    requires Possible(START, es, glob) && ch < |Play(START, es).queues| && j < |Play(START, es).queues[ch].written|
    requires forall p :: p in Accepted(OffersTo(START, es, ch)) ==> Sized(p)
    ensures var posts, written := Accepted(OffersTo(START, es, ch)), Play(START, es).queues[ch].written;
            var read := ParseStream(Stream(written));
            && |read| == |written| <= |posts|
            && match posts[j].via
               case None =>
                 read[j] == Array([BulkString([109, 101, 115, 115, 97, 103, 101]),
                                   BulkString(posts[j].message.channel), BulkString(posts[j].message.text)])
               case Some(pattern) =>
                 read[j] == Array([BulkString([112, 109, 101, 115, 115, 97, 103, 101]), BulkString(pattern),
                                   BulkString(posts[j].message.channel), BulkString(posts[j].message.text)])
  {
    hide Play, Possible, OffersTo, Accepted, Frames, Stream, ParseStream, ToResp, EncodeLog, Sized;
    DeliveredInOrder(es, ch, glob);
    var posts, q := Accepted(OffersTo(START, es, ch)), Play(START, es).queues[ch];
    var k := |q.written|;
    assert q.written == (q.written + q.waiting)[..k];
    FramesPrefix(posts, k);
    StreamOfFrames(posts[..k]);
    StorableParts(posts[..k]);
    FramesParse(AllParts(posts[..k]));
    PartsRead(posts[j]);
  }

  /** A closed channel stays closed and is offered nothing more. */
  lemma ClosedForGood(s: Sys, e: Event, ch: nat)
    requires Inv(s) && ch < |s.queues| && s.queues[ch].closed
    ensures var t := Step(s, e); ch < |t.queues| && t.queues[ch].closed && OfferOf(s, e, ch) == []
  {
    hide IndexOk, ClientsOk, Enter, Leave, LeaveAll, Count, Payload;
  }

  /** Over any run a channel that is closed stays closed, is offered nothing, and what it took is what it had taken. */
  lemma {:induction false} ClosedOverRun(s: Sys, es: seq<Event>, ch: nat, glob: Glob)
    requires Inv(s) && Possible(s, es, glob) && ch < |s.queues| && s.queues[ch].closed
    ensures var t := Play(s, es);
            && ch < |t.queues| && t.queues[ch].closed
            && OffersTo(s, es, ch) == [] && Taken(t, ch) == Taken(s, ch)
    decreases |es|
  {
    hide Inv, Step, Enabled, OfferOf, Taken;
    if es != [] {
      ClosedForGood(s, es[0], ch);
      StepTakes(s, es[0], ch);
      StepKeeps(s, es[0], glob);
      ClosedOverRun(Step(s, es[0]), es[1..], ch, glob);
      assert Taken(s, ch) + [] == Taken(s, ch);
    }
  }

  /** A delivery under way always finds an open channel; it is lost only if 64 payloads wait there. */
  lemma LostOnlyToOverflow(s: Sys, c: Conn)
    requires Inv(s) && c in s.clients && s.clients[c].pending != [] && s.clients[c].pending[0].Give?
    ensures var g := s.clients[c].pending[0];
            var d := g.attempt.conn;
            && Owns(s, d) && !s.queues[s.owner[d]].closed
            && OfferOf(s, Advance(c, []), s.owner[d]) == [Offer(Post(g.attempt.via, g.message), |s.queues[s.owner[d]].waiting|)]
  {
    hide IndexOk, Payload;
    assert ClientOk(s, c);
  }

  /** The writer of a channel can always empty it, closed or not; then everything taken has been written. */
  lemma {:induction false} Drains(s: Sys, ch: nat, glob: Glob)
    requires ch < |s.queues| && s.queues[ch].writers > 0
    ensures var es := seq(|s.queues[ch].waiting|, _ => Write(ch));
            && Possible(s, es, glob) && ch < |Play(s, es).queues|
            && Play(s, es).queues[ch].waiting == [] && Play(s, es).queues[ch].written == Taken(s, ch)
    decreases |s.queues[ch].waiting|
  {
    var q := s.queues[ch];
    var es := seq(|q.waiting|, _ => Write(ch));
    if q.waiting != [] {
      var t := Step(s, Write(ch));
      Drains(t, ch, glob);
      assert es[1..] == seq(|t.queues[ch].waiting|, _ => Write(ch));
      WriteTakes(s, ch, ch);
    }
  }
}
