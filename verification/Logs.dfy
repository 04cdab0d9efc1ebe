/** The log of any run, transactions included: what it holds, what the store was made of, and when the
    one rebuilds the other. */
module Logs {
  import opened Text
  import opened Keyspace
  import opened Commands
  import opened Transactions
  import opened Isolation
  import opened History
  import opened Replay
  import opened Aof

  // ---------------------------------------------------------------------------------------
  // The log is what arrived
  // ---------------------------------------------------------------------------------------

  /** The command of a label is given to `Execute`. */
  predicate Reaches(s: Server, l: Label)
    requires Enabled(s, l)
  {
    && l.Command? && l.req.command != "exec"
    && (s.clients[l.id].mode == Subscribed ==> SubscribedMayRun(l.req.command))
  }

  /** The write a step brings, whether it then runs, fails or is queued. */
  function Arrived(s: Server, l: Label): seq<seq<string>>
    requires Enabled(s, l)
  {
    if Reaches(s, l) && IsWriteRequest(l.req) then [LogOf(l.req)] else []
  }

  function Arrivals(s: Server, ls: seq<Label>): seq<seq<string>> {
    if ls == [] then [] else
      var before := Run(s, ls[..|ls| - 1]).server;
      Arrivals(s, ls[..|ls| - 1]) + if Enabled(before, ls[|ls| - 1]) then Arrived(before, ls[|ls| - 1]) else []
  }

  lemma {:induction false} WatchKeysLog(s: Server, id: int, keys: seq<string>)
    requires id in s.clients
    ensures WatchKeys(s, id, keys).log == s.log
  {
    if keys != [] {
      WatchKeysLog(s, id, keys[..|keys| - 1]);
    }
  }

  lemma RunSessionLog(s: Server, id: int, c: Cmd, args: seq<string>, env: Env, r: Answered)
    requires id in s.clients && ArityOk(c, |args|) && OnSession(c) && r == RunHandler(s, id, c, args, env)
    ensures r.server.log == s.log
  {
    match c {
      case WATCH => WatchKeysLog(s, id, args);
      case _ =>
    }
  }

  lemma ExecuteLog(s: Server, id: int, req: Request, env: Env, r: Answered)
    requires id in s.clients && r == Execute(s, id, req, env)
    ensures r.server.log == s.log
  {
    var entry := Lookup(req.command);
    if entry.Some? && ArityOk(entry.value, |req.args|) && (Transactional(entry.value) || s.clients[id].mode != Transaction) {
      if OnSession(entry.value) {
        RunSessionLog(s, id, entry.value, req.args, env, r);
      } else {
        OnStoreLog(s, entry.value, req.args, env, r);
      }
    }
  }

  lemma OnStoreLog(s: Server, c: Cmd, args: seq<string>, env: Env, r: Answered)
    requires ArityOk(c, |args|) && r == RunOnStore(s, c, args, env)
    ensures r.server.log == s.log
  {
  }

  lemma {:induction false} RunQueueLog(s: Server, id: int, queue: seq<Request>, env: Env)
    requires id in s.clients
    ensures RunQueue(s, id, queue, env).server.log == s.log
  {
    if queue != [] {
      var before, last := queue[..|queue| - 1], queue[|queue| - 1];
      RunQueueLog(s, id, before, env);
      var t := RunQueue(s, id, before, env).server;
      ExecuteLog(t, id, last, env, Execute(t, id, last, env));
    }
  }

  lemma StepLog(s: Server, l: Label, t: Server)
    requires Enabled(s, l) && t == Step(s, l).server
    ensures t.log == s.log + Arrived(s, l)
  {
    if l.Command? {
      if s.clients[l.id].mode == Subscribed && !SubscribedMayRun(l.req.command) {
      } else if l.req.command == "exec" {
        RunQueueLog(Reset(s, l.id), l.id, s.clients[l.id].queue, l.env);
      } else {
        ExecuteLog(s, l.id, l.req, l.env, Execute(s, l.id, l.req, l.env));
      }
    }
  }

  /** The log of any run is the write requests that reached `Execute`, in the order they arrived:
      those that ran, those that failed, and those that were only queued. */
  lemma {:induction false} LogIsArrivals(s: Server, ls: seq<Label>)
    ensures Run(s, ls).server.log == s.log + Arrivals(s, ls)
  {
    if ls != [] {
      LogIsArrivals(s, ls[..|ls| - 1]);
      var before := Run(s, ls[..|ls| - 1]).server;
      if Enabled(before, ls[|ls| - 1]) {
        StepLog(before, ls[|ls| - 1], Step(before, ls[|ls| - 1]).server);
      }
    }
  }

  // ---------------------------------------------------------------------------------------
  // The store is what ran
  // ---------------------------------------------------------------------------------------

  /** The writes among the calls, as they would be logged. */
  function WritesOf(h: seq<Call>): seq<seq<string>> {
    if h == [] then [] else
      WritesOf(h[..|h| - 1]) + if IsWrite(h[|h| - 1].c) then [LogOf(h[|h| - 1].req)] else []
  }

  lemma {:induction false} WritesOfConcat(a: seq<Call>, b: seq<Call>)
    ensures WritesOf(a + b) == WritesOf(a) + WritesOf(b)
    decreases |b|
  {
    if b == [] {
      assert a + b == a;
    } else {
      WritesOfConcat(a, b[..|b| - 1]);
      assert (a + b)[..|a + b| - 1] == a + b[..|b| - 1];
    }
  }

  ghost predicate SteadyCall(call: Call, env: Env) {
    SteadyRequest(call.req) && SameConversions(call.env, env)
  }

  lemma CallReplays(call: Call, env: Env)
    requires CallOk(call) && SteadyCall(call, env) && NoExpiry(call.before)
    ensures NoExpiry(call.after)
    ensures IsWrite(call.c) ==> ReplayCommand(call.before, LogOf(call.req), env) == Some(call.after)
    ensures !IsWrite(call.c) ==> call.after == call.before
  {
    Names(call.req.command, call.c);
    KeepsNoExpiry(call.c, call.req.args, call.env, call.before);
    if IsWrite(call.c) {
      WriteReplays(call.before, call.req, env, call.env, call.c);
    } else {
      ReadsChangeNothing(call.c, call.req.args, call.env, call.before);
    }
  }

  /** Calls without expiries leave what their writes make in order. */
  lemma {:induction false} HistoryReplays(h: seq<Call>, from: Data, end: Data, env: Env)
    requires Chained(h, from, end) && NoExpiry(from) && forall call :: call in h ==> SteadyCall(call, env)
    ensures NoExpiry(end) && Replayed(WritesOf(h), from, env) == Some(end)
  {
    if h != [] {
      var before, last := h[..|h| - 1], h[|h| - 1];
      HistoryReplays(before, from, last.before, env);
      CallReplays(last, env);
      if IsWrite(last.c) {
        ReplayedAppend(WritesOf(before), LogOf(last.req), from, env);
      } else {
        assert WritesOf(before) + [] == WritesOf(before);
      }
    }
  }

  ghost predicate QueuesSteady(s: Server) {
    forall id, i :: id in s.clients && 0 <= i < |s.clients[id].queue| ==> SteadyRequest(s.clients[id].queue[i])
  }

  lemma ExecuteSteady(s: Server, id: int, req: Request, env: Env, r: Answered)
    requires id in s.clients && QueuesSteady(s) && SteadyRequest(req) && r == Execute(s, id, req, env)
    ensures QueuesSteady(r.server)
  {
    var entry := Lookup(req.command);
    if entry.Some? && ArityOk(entry.value, |req.args|) && (Transactional(entry.value) || s.clients[id].mode != Transaction) {
      forall i | i in s.clients
        ensures r.server.clients[i].queue == s.clients[i].queue || r.server.clients[i].queue == []
      {
        RunHandlerModes(s, id, entry.value, req.args, env, i, r);
      }
    }
  }

  lemma {:induction false} QueueSteady(s: Server, id: int, queue: seq<Request>, env: Env, e: Env)
    requires id in s.clients && QueuesSteady(s) && forall i :: 0 <= i < |queue| ==> SteadyRequest(queue[i])
    requires SameConversions(env, e)
    ensures QueuesSteady(RunQueue(s, id, queue, env).server)
    ensures forall call :: call in QueueCalls(s, id, queue, env) ==> SteadyCall(call, e)
  {
    if queue != [] {
      var before, last := queue[..|queue| - 1], queue[|queue| - 1];
      QueueSteady(s, id, before, env, e);
      var t := RunQueue(s, id, before, env).server;
      ExecuteSteady(t, id, last, env, Execute(t, id, last, env));
    }
  }

  lemma StepSteady(s: Server, l: Label, env: Env, t: Server)
    requires Enabled(s, l) && QueuesSteady(s) && SteadyLabel(l, env) && t == Step(s, l).server
    ensures QueuesSteady(t) && forall call :: call in StepCalls(s, l) ==> SteadyCall(call, env)
  {
    if l.Command? {
      if s.clients[l.id].mode == Subscribed && !SubscribedMayRun(l.req.command) {
      } else if l.req.command == "exec" {
        assert QueuesSteady(Reset(s, l.id));
        QueueSteady(Reset(s, l.id), l.id, s.clients[l.id].queue, l.env, env);
      } else {
        ExecuteSteady(s, l.id, l.req, l.env, Execute(s, l.id, l.req, l.env));
      }
    }
  }

  lemma {:induction false} RunSteady(data: Data, ls: seq<Label>, env: Env)
    requires Steady(ls, env)
    ensures QueuesSteady(Run(Start(data), ls).server)
    ensures forall call :: call in RunCalls(Start(data), ls) ==> SteadyCall(call, env)
  {
    if ls != [] {
      RunSteady(data, ls[..|ls| - 1], env);
      var before := Run(Start(data), ls[..|ls| - 1]).server;
      if Enabled(before, ls[|ls| - 1]) {
        StepSteady(before, ls[|ls| - 1], env, Step(before, ls[|ls| - 1]).server);
      }
    }
  }

  /** The store of any run without expiries, transactions included, is what the writes that succeeded
      make in the order they were executed. */
  lemma StoreIsExecutedWrites(data: Data, ls: seq<Label>, env: Env)
    requires NoExpiry(data) && Steady(ls, env)
    ensures Replayed(WritesOf(RunCalls(Start(data), ls)), data, env) == Some(Run(Start(data), ls).server.data)
  {
    RunKeepsNoExpiry(data, ls, env);
  }

  lemma RunKeepsNoExpiry(data: Data, ls: seq<Label>, env: Env)
    requires NoExpiry(data) && Steady(ls, env)
    ensures NoExpiry(Run(Start(data), ls).server.data)
    ensures Replayed(WritesOf(RunCalls(Start(data), ls)), data, env) == Some(Run(Start(data), ls).server.data)
  {
    RunSteady(data, ls, env);
    RunChained(Start(data), ls);
    HistoryReplays(RunCalls(Start(data), ls), data, Run(Start(data), ls).server.data, env);
  }

  /** When the writes arrived in the order they were executed, and all were, the log rebuilds the
      store. */
  lemma LogInOrderRebuilds(data: Data, ls: seq<Label>, env: Env)
    requires NoExpiry(data) && Steady(ls, env) && Loadable(Run(Start(data), ls).server.log)
    requires Arrivals(Start(data), ls) == WritesOf(RunCalls(Start(data), ls))
    ensures var s := Run(Start(data), ls).server;
            LoadFrom(Resp.Commands(s.log), data, Replayer(env)) == Loaded(s.data, NoError)
  {
    LogIsArrivals(Start(data), ls);
    StoreIsExecutedWrites(data, ls, env);
    assert [] + Arrivals(Start(data), ls) == Arrivals(Start(data), ls);
    LoadOfLog(Run(Start(data), ls).server.log, data, env);
  }

  /** In general the log rebuilds the store exactly when the writes that arrived make the same store as
      the writes that were executed. */
  lemma LogRebuildsExactly(data: Data, ls: seq<Label>, env: Env)
    requires NoExpiry(data) && Steady(ls, env) && Loadable(Run(Start(data), ls).server.log)
    ensures var s := Run(Start(data), ls).server;
            LoadFrom(Resp.Commands(s.log), data, Replayer(env)) == Loaded(s.data, NoError) <==>
            Replayed(Arrivals(Start(data), ls), data, env) == Replayed(WritesOf(RunCalls(Start(data), ls)), data, env)
  {
    LogIsArrivals(Start(data), ls);
    StoreIsExecutedWrites(data, ls, env);
    assert [] + Arrivals(Start(data), ls) == Arrivals(Start(data), ls);
    LoadOfLog(Run(Start(data), ls).server.log, data, env);
  }
}
