/** The objects together: a live store, the file its log is written to, and a second store rebuilt from what a crash left. */
module EndToEnd {
  import opened Entries
  import opened Keyspace
  import opened Replay
  import opened Recovery
  import opened RespCodec
  import opened LogFile
  import opened Durability
  import opened StoreHeap
  import opened AofFile

  /** One operation on the store object. */
  method Operate(s: Store, t: Timed)
    requires s.Valid()
    modifies s.Repr
    ensures s.Valid() && fresh(s.Repr - old(s.Repr))
    ensures s.model == After(old(s.model), t.op, t.now) && s.aof == old(s.aof) + LogOf(old(s.model), t.op, t.now)
  {
    hide Run, Spelling;
    match t.op
    case On(i, op) => AofFile.Perform(s, i, op, t.now);
    case FlushAll => s.FlushEverything();
  }

  lemma OneMore(run: seq<Timed>, n: nat)
    requires n < |run|
    ensures Final(run[..n + 1]) == After(Final(run[..n]), run[n].op, run[n].now)
    ensures Logged(run[..n + 1]) == Logged(run[..n]) + LogOf(Final(run[..n]), run[n].op, run[n].now)
  {
    hide After, LogOf;
    assert run[..n + 1][..n] == run[..n];
  }

  /** Over any run of operations the objects hold what the plain model of the run holds, and have sent its log. */
  method Serve(run: seq<Timed>) returns (s: Store)
    ensures fresh(s) && fresh(s.Repr) && s.Valid() && s.model == Final(run) && s.aof == Logged(run)
  {
    hide Final, Logged, After, LogOf;
    s := new Store();
    NoRun();
    assert run[..0] == [];
    for n := 0 to |run|
      invariant fresh(s) && fresh(s.Repr) && s.Valid()
      invariant s.model == Final(run[..n]) && s.aof == Logged(run[..n])
    {
      OneMore(run, n);
      Operate(s, run[n]);
    }
    assert run[..|run|] == run;
  }

  lemma NoRun()
    ensures Final([]) == EMPTY && Logged([]) == []
  {
  }

  /** What any prefix of the file of a good run is read back into. */
  lemma CutFile(run: seq<Timed>, k: nat, at: int) returns (n: nat, half: bool)
    requires GoodRun(run) && StorableLog(Logged(run)) && k <= |EncodeLog(Logged(run))|
    ensures n <= |run| && (half ==> n < |run|)
    ensures var out := ReplayFile(EncodeLog(Logged(run))[..k], EMPTY, at);
            && out.Ran?
            && SimilarAll(Final(Survivors(run, n, half)), out.state)
            && (k == |EncodeLog(Logged(run))| ==> SimilarAll(Final(run), out.state))
  {
    hide GoodRun, StorableLog, Logged, Final, EncodeLog, ReplayFile, ReplayAll, SimilarAll, LogOf;
    var log := Logged(run);
    var m := Whole(log, k);
    TornFile(log, k, EMPTY, at);
    n, half := CutLog(run, m);
    if half {
      HalfIsGood(run, n);
    } else {
      PrefixIsGood(run, n);
    }
    LogRestoresData(Survivors(run, n, half), at);
    if k == |EncodeLog(log)| {
      FileRestoresData(run, at);
      assert EncodeLog(log)[..k] == EncodeLog(log);
    }
  }

  /**
   A store serves a run, its log is written to a file, a crash leaves the first k
   bytes, and a new store is rebuilt from them: the new store holds the data of
   the first n operations, or of those and the next SET before its EXPIRE.
   */
  method CrashAndRecover(run: seq<Timed>, k: nat, at: int) returns (live: Store, rebuilt: Store, ghost n: nat, ghost half: bool)
    requires GoodRun(run) && StorableLog(Logged(run)) && k <= |EncodeLog(Logged(run))|
    ensures live.Valid() && rebuilt.Valid() && live.model == Final(run)
    ensures n <= |run| && (half ==> n < |run|)
    ensures SimilarAll(Final(Survivors(run, n, half)), rebuilt.model)
    ensures k == |EncodeLog(Logged(run))| ==> SimilarAll(live.model, rebuilt.model)
  {
    hide GoodRun, StorableLog, Logged, Final, EncodeLog, ReplayFile, SimilarAll, Survivors;
    n, half := CutFile(run, k, at);
    live := Serve(run);
    var w := new Writer();
    WriteEntries(w, live.aof);
    assert [] + EncodeLog(Logged(run)) == EncodeLog(Logged(run));
    rebuilt := new Store();
    var ok := RebuildStore(rebuilt, w.out[..k], at);
  }
}
