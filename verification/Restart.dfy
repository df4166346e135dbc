/**
 Starting again from a log file. Replaying sends every entry into the same
 channel the live store uses, before anything drains it, and the writer later
 appends to the same file.
 */
module Restart {
  import opened Base
  import opened Decimal
  import opened Entries
  import opened Keyspace
  import opened Replay
  import opened Simulation
  import opened Recovery
  import opened LogFile
  import opened Durability

  // ----- Recovery with a bounded channel and no writer -----

  /** Stuck stands for a send on a full channel that nobody empties. */
  datatype Boot = Started(state: State, channel: seq<Command>) | Stuck | Crashed

  function BootFrom(log: seq<Command>, s: State, now: int, channel: seq<Command>): Boot {
    if log == [] then Started(s, channel)
    else
      match Dispatch(log[0], s, now)
      case Panicked => Crashed
      case Ran(s', l) =>
        if |channel| + |l| > SLOTS then Stuck else BootFrom(log[1..], s', now, channel + l)
  }

  lemma {:induction false} BootWithRoom(log: seq<Command>, s: State, now: int, channel: seq<Command>)
    requires |channel| <= SLOTS && ReplayAll(log, s, now).Ran?
    ensures var out := ReplayAll(log, s, now);
            BootFrom(log, s, now, channel) ==
            if |channel| + |out.log| <= SLOTS then Started(out.state, channel + out.log) else Stuck
  {
    hide Dispatch;
    if log == [] {
      assert channel + [] == channel;
    } else {
      var step := Dispatch(log[0], s, now);
      var rest := ReplayAll(log[1..], step.state, now);
      if |channel| + |step.log| <= SLOTS {
        BootWithRoom(log[1..], step.state, now, channel + step.log);
        assert channel + step.log + rest.log == channel + (step.log + rest.log);
      }
    }
  }

  /** Recovery completes exactly when the log has no more entries than the channel has slots. */
  lemma BootsExactly(run: seq<Timed>, at: int)
    requires GoodRun(run)
    ensures BootFrom(Logged(run), EMPTY, at, []).Started? <==> |Logged(run)| <= 100
  {
    hide BootFrom, ReplayAll, Final, Logged, GoodRun;
    RebuildAny(run, at);
    BootWithRoom(Logged(run), EMPTY, at, []);
  }

  lemma RebuildAny(run: seq<Timed>, at: int)
    requires GoodRun(run)
    ensures var out := ReplayAll(Logged(run), EMPTY, at); out.Ran? && |out.log| == |Logged(run)|
  {
    hide ReplayAll, Logged;
    Rebuild(run, if run == [] then 0 else run[|run| - 1].now, at);
  }

  /**
   A restart that completes has restored the data and leaves as many entries
   again for the writer to append; the file then holds the log twice exactly
   when every time to live in it fits a duration.
   */
  lemma RestartDoublesFile(run: seq<Timed>, at: int)
    requires GoodRun(run) && |Logged(run)| <= 100
    ensures var boot := BootFrom(Logged(run), EMPTY, at, []);
            && boot.Started?
            && SimilarAll(Final(run), boot.state)
            && |boot.channel| == |Logged(run)|
            && (Logged(run) + boot.channel == Logged(run) + Logged(run) <==> ExactTtls(run))
            && (ExactTtls(run) ==> EncodeLog(Logged(run)) + EncodeLog(boot.channel) == EncodeLog(Logged(run) + Logged(run)))
  {
    hide BootFrom, ReplayAll, Final, Logged, GoodRun, EncodeLog, SimilarAll;
    LogRestoresData(run, at);
    ReplayRepeatsLog(run, at);
    BootWithRoom(Logged(run), EMPTY, at, []);
    var log := ReplayAll(Logged(run), EMPTY, at).log;
    assert [] + log == log;
    SameParts(Logged(run), log, Logged(run), Logged(run));
    EncodeLogAppend(Logged(run), Logged(run));
  }

  /** An EXPIRE entry is written back unchanged exactly when its seconds fit a duration. */
  lemma ExpireEntryStable(db: Db, i: DbIndex, key: Bytes, seconds: int, now: int)
    requires InInt64(seconds) && key in db
    ensures RunExpire(db, i, key, Wrap64(seconds * SECOND), now).log == [Entry(EXPIRE, i, [key, Itoa(seconds)])]
            <==> -MAX_SECONDS <= seconds <= MAX_SECONDS
  {
    hide Itoa, Atoi;
    var back := WholeSeconds(Wrap64(seconds * SECOND));
    AtoiItoa(seconds);
    AtoiItoa(back);
    var a, b := Entry(EXPIRE, i, [key, Itoa(back)]), Entry(EXPIRE, i, [key, Itoa(seconds)]);
    assert a == b ==> a[3] == b[3];
    if -MAX_SECONDS <= seconds <= MAX_SECONDS {
      assert InInt64(seconds * SECOND);
    } else {
      assert -MAX_SECONDS - 1 < back <= MAX_SECONDS;
    }
  }
}
