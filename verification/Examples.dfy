/** Runs that show why the theorems about logs and replicas say what they say. */
module Examples {
  import opened Text
  import opened Keyspace
  import opened Commands
  import opened Transactions
  import opened Aof
  import opened Replay
  import opened Orderly
  import opened Replication

  const SET_K := Request("set", ["k", "v"])
  const PUSH_K := Request("rpush", ["k", "a"])
  const SET_LOGGED := ["SET", "k", "v"]
  const PUSH_LOGGED := ["RPUSH", "k", "a"]
  const HELD := Entry(Str("v"), None)

  lemma RunOneMore(s: Server, ls: seq<Label>, l: Label)
    requires Enabled(Run(s, ls).server, l)
    ensures Run(s, ls + [l]).server == Step(Run(s, ls).server, l).server
  {
    assert (ls + [l])[..|ls|] == ls;
  }

  // ---------------------------------------------------------------------------------------
  // Single steps of client 1
  // ---------------------------------------------------------------------------------------

  /** Client 1 is there, in the given mode, and the store and the log are these. */
  ghost predicate At(s: Server, mode: Mode, data: Data, log: seq<seq<string>>) {
    1 in s.clients && s.clients[1].mode == mode && s.data == data && s.log == log
  }

  lemma Connected()
    ensures At(Run(Start(map[]), [Connect]).server, Normal, map[], [])
  {
    assert [Connect][..0] == [];
  }

  lemma LoggedNames()
    ensures LogOf(SET_K) == SET_LOGGED && LogOf(PUSH_K) == PUSH_LOGGED
  {
    assert ToUpper("set") == "SET" && ToUpper("rpush") == "RPUSH";
  }

  lemma MultiRuns(s: Server, env: Env, data: Data, log: seq<seq<string>>)
    requires At(s, Normal, data, log)
    ensures At(Step(s, Command(1, Request("multi", []), env)).server, Transaction, data, log)
  {
  }

  lemma DiscardRuns(s: Server, env: Env, data: Data, log: seq<seq<string>>)
    requires At(s, Transaction, data, log)
    ensures At(Step(s, Command(1, Request("discard", []), env)).server, Normal, data, log)
  {
  }

  lemma SetQueues(s: Server, env: Env, data: Data, log: seq<seq<string>>)
    requires At(s, Transaction, data, log)
    ensures At(Step(s, Command(1, SET_K, env)).server, Transaction, data, log + [SET_LOGGED])
    ensures Pending(Step(s, Command(1, SET_K, env)).server, 1) != []
  {
    LoggedNames();
    QueuedOneMore(s.clients[1].queue, SET_K);
  }

  lemma SetHandled(data: Data, env: Env)
    ensures Handle(SET, ["k", "v"], env, data) == Done(data["k" := HELD], Status("OK"))
  {
    assert ["k", "v"][2..] == [];
  }

  lemma SetRuns(s: Server, env: Env, data: Data, log: seq<seq<string>>)
    requires At(s, Normal, data, log)
    ensures At(Step(s, Command(1, SET_K, env)).server, Normal, data["k" := HELD], log + [SET_LOGGED])
  {
    LoggedNames();
    SetHandled(data, env);
  }

  lemma PushHandled(data: Data, env: Env)
    requires "k" in data && data["k"].value.Str?
    ensures Handle(RPUSH, ["k", "a"], env, data) == Failed
  {
  }

  lemma PushFails(s: Server, env: Env, data: Data, log: seq<seq<string>>)
    requires At(s, Normal, data, log) && "k" in data && data["k"].value.Str?
    ensures At(Step(s, Command(1, PUSH_K, env)).server, Normal, data, log + [PUSH_LOGGED])
  {
    LoggedNames();
    PushHandled(data, env);
  }

  // ---------------------------------------------------------------------------------------
  // Replaying them
  // ---------------------------------------------------------------------------------------

  lemma SetReplays(data: Data, env: Env)
    ensures ReplayCommand(data, SET_LOGGED, env) == Some(data["k" := HELD])
  {
    LoggedNames();
    LoggedReadsBack(SET_K);
    SetHandled(data, env);
    ReplayOnStore(data, SET_LOGGED, env, SET);
  }

  lemma PushFailsAgain(data: Data, env: Env)
    requires "k" in data && data["k"].value.Str?
    ensures ReplayCommand(data, PUSH_LOGGED, env) == None
  {
    LoggedNames();
    LoggedReadsBack(PUSH_K);
    PushHandled(data, env);
    ReplayOnStore(data, PUSH_LOGGED, env, RPUSH);
  }

  lemma OneReplays(c: seq<string>, data: Data, env: Env)
    ensures Replayed([c], data, env) == ReplayCommand(data, c, env)
  {
    ReplayedFromFront([c], data, env);
  }

  lemma TwoReplay(c: seq<string>, d: seq<string>, data: Data, env: Env)
    ensures Replayed([c, d], data, env) ==
            match ReplayCommand(data, c, env) case None => None case Some(made) => ReplayCommand(made, d, env)
  {
    ReplayedFromFront([c, d], data, env);
    assert [c, d][1..] == [d];
    if ReplayCommand(data, c, env).Some? {
      OneReplays(d, ReplayCommand(data, c, env).value, env);
    }
  }

  // ---------------------------------------------------------------------------------------
  // A discarded write comes back
  // ---------------------------------------------------------------------------------------

  /** A write that was only queued, and then discarded, is in the log: replay brings it back. */
  lemma DiscardedWriteComesBack(env: Env) returns (ls: seq<Label>)
    ensures var s := Run(Start(map[]), ls).server;
            && s.data == map[]
            && LoadFrom(Resp.Commands(s.log), map[], Replayer(env)) == Loaded(map["k" := HELD], NoError)
  {
    var l1 := [Connect] + [Command(1, Request("multi", []), env)];
    var l2 := l1 + [Command(1, SET_K, env)];
    ls := l2 + [Command(1, Request("discard", []), env)];
    Connected();
    RunOneMore(Start(map[]), [Connect], Command(1, Request("multi", []), env));
    MultiRuns(Run(Start(map[]), [Connect]).server, env, map[], []);
    RunOneMore(Start(map[]), l1, Command(1, SET_K, env));
    SetQueues(Run(Start(map[]), l1).server, env, map[], []);
    RunOneMore(Start(map[]), l2, Command(1, Request("discard", []), env));
    DiscardRuns(Run(Start(map[]), l2).server, env, map[], [] + [SET_LOGGED]);
    assert [] + [SET_LOGGED] == [SET_LOGGED];
    SetReplays(map[], env);
    OneReplays(SET_LOGGED, map[], env);
    assert Loadable([SET_LOGGED]);
    LoadOfLog([SET_LOGGED], map[], env);
  }

  // ---------------------------------------------------------------------------------------
  // A failed write stops a replica and a start-up load
  // ---------------------------------------------------------------------------------------

  lemma FailedRun(env: Env) returns (ls: seq<Label>)
    ensures At(Run(Start(map[]), ls).server, Normal, map["k" := HELD], [SET_LOGGED, PUSH_LOGGED])
  {
    var l1 := [Connect] + [Command(1, SET_K, env)];
    ls := l1 + [Command(1, PUSH_K, env)];
    Connected();
    RunOneMore(Start(map[]), [Connect], Command(1, SET_K, env));
    SetRuns(Run(Start(map[]), [Connect]).server, env, map[], []);
    assert map[]["k" := HELD] == map["k" := HELD];
    RunOneMore(Start(map[]), l1, Command(1, PUSH_K, env));
    PushFails(Run(Start(map[]), l1).server, env, map["k" := HELD], [] + [SET_LOGGED]);
    assert ([] + [SET_LOGGED]) + [PUSH_LOGGED] == [SET_LOGGED, PUSH_LOGGED];
  }

  /** SET k v and then RPUSH k a, which fails and is logged all the same: loading the log is an error, and
      a replica does not get past it. */
  lemma FailedWriteStops(env: Env) returns (ls: seq<Label>)
    ensures var s := Run(Start(map[]), ls).server;
            && s.data == map["k" := HELD]
            && LoadFrom(Resp.Commands(s.log), map[], Replayer(env)).error == ReplayError
            && Completed(s.log, NewReplica(map[]), env) < |s.log|
  {
    ls := FailedRun(env);
    var log := [SET_LOGGED, PUSH_LOGGED];
    SetReplays(map[], env);
    PushFailsAgain(map[]["k" := HELD], env);
    TwoReplay(SET_LOGGED, PUSH_LOGGED, map[], env);
    FailedLog();
    LoadOfLog(log, map[], env);
    ReplicaIsReplay(log, NewReplica(map[]), env);
  }

  lemma FailedLog()
    ensures var log := [SET_LOGGED, PUSH_LOGGED];
            Loadable(log) && AllCanonical(log) && NoMulti(log) && Writes(log) == log
  {
    var log := [SET_LOGGED, PUSH_LOGGED];
    assert Canonical(SET_LOGGED) && Canonical(PUSH_LOGGED);
    assert log[..1] == [SET_LOGGED];
    WritesOfOne(SET_LOGGED);
    assert ToLower(SET_LOGGED[0])[0] == 's' && ToLower(PUSH_LOGGED[0])[0] == 'r';
  }

  // ---------------------------------------------------------------------------------------
  // A run out of order may rebuild its store
  // ---------------------------------------------------------------------------------------

  lemma SetAndMulti(env: Env) returns (ls: seq<Label>)
    ensures At(Run(Start(map[]), ls).server, Transaction, map["k" := HELD], [SET_LOGGED])
  {
    var l1 := [Connect] + [Command(1, SET_K, env)];
    ls := l1 + [Command(1, Request("multi", []), env)];
    Connected();
    RunOneMore(Start(map[]), [Connect], Command(1, SET_K, env));
    SetRuns(Run(Start(map[]), [Connect]).server, env, map[], []);
    assert map[]["k" := HELD] == map["k" := HELD] && [] + [SET_LOGGED] == [SET_LOGGED];
    RunOneMore(Start(map[]), l1, Command(1, Request("multi", []), env));
    MultiRuns(Run(Start(map[]), l1).server, env, map["k" := HELD], [SET_LOGGED]);
  }

  lemma SetTwiceReplays(env: Env)
    ensures LoadFrom(Resp.Commands([SET_LOGGED, SET_LOGGED]), map[], Replayer(env)) == Loaded(map["k" := HELD], NoError)
  {
    SetReplays(map[], env);
    SetReplays(map[]["k" := HELD], env);
    TwoReplay(SET_LOGGED, SET_LOGGED, map[], env);
    assert map[]["k" := HELD]["k" := HELD] == map["k" := HELD];
    assert Loadable([SET_LOGGED, SET_LOGGED]);
    LoadOfLog([SET_LOGGED, SET_LOGGED], map[], env);
  }

  /** A discarded SET that would have written what its key held: the run is not tidy, and its log
      rebuilds the store. */
  lemma OutOfOrderMayRebuild(env: Env) returns (ls: seq<Label>)
    ensures var s := Run(Start(map[]), ls).server;
            && !TidyRun(Start(map[]), ls)
            && LoadFrom(Resp.Commands(s.log), map[], Replayer(env)) == Loaded(s.data, NoError)
  {
    var start := SetAndMulti(env);
    var queued := start + [Command(1, SET_K, env)];
    var discard := Command(1, Request("discard", []), env);
    ls := queued + [discard];
    RunOneMore(Start(map[]), start, Command(1, SET_K, env));
    SetQueues(Run(Start(map[]), start).server, env, map["k" := HELD], [SET_LOGGED]);
    RunOneMore(Start(map[]), queued, discard);
    DiscardRuns(Run(Start(map[]), queued).server, env, map["k" := HELD], [SET_LOGGED] + [SET_LOGGED]);
    DiscardIsUntidy(queued, discard, ls);
    assert [SET_LOGGED] + [SET_LOGGED] == [SET_LOGGED, SET_LOGGED];
    SetTwiceReplays(env);
  }

  lemma DiscardIsUntidy(before: seq<Label>, l: Label, ls: seq<Label>)
    requires ls == before + [l] && l.Command? && l.id == 1 && l.req.command == "discard"
    requires var s := Run(Start(map[]), before).server; 1 in s.clients && s.clients[1].mode == Transaction
    requires Pending(Run(Start(map[]), before).server, 1) != []
    ensures !TidyRun(Start(map[]), ls)
  {
    assert ls[..|ls| - 1] == before;
  }
}
