/** When the log of a run with transactions is in execution order: a condition on the commands. */
module Orderly {
  import opened Text
  import opened Keyspace
  import opened Commands
  import opened Transactions
  import opened Isolation
  import opened History
  import opened Replay
  import opened Logs
  import opened Aof

  /** The writes of a queue, as they were logged when they arrived. */
  function QueuedWrites(queue: seq<Request>): seq<seq<string>> {
    if queue == [] then [] else
      QueuedWrites(queue[..|queue| - 1]) + if IsWriteRequest(queue[|queue| - 1]) then [LogOf(queue[|queue| - 1])] else []
  }

  /** The writes a client has queued and not executed. */
  function Pending(s: Server, id: int): seq<seq<string>> {
    if id in s.clients then QueuedWrites(s.clients[id].queue) else []
  }

  /** Nobody but `id` has writes pending. */
  ghost predicate OnlyPending(s: Server, id: int) {
    forall i :: i != id ==> Pending(s, i) == []
  }

  /** Every write of a queue succeeds when EXEC runs it. */
  ghost predicate QueueSucceeds(s: Server, id: int, queue: seq<Request>, env: Env)
    requires id in s.clients
  {
    forall i :: 0 <= i < |queue| && IsWriteRequest(queue[i]) ==> RunQueue(s, id, queue, env).replies[i] != None
  }

  /** A step that keeps writes in order: no transaction with queued writes is discarded, aborted or left
      behind by its client, and no write arrives while another client has writes queued. */
  ghost predicate Tidy(s: Server, l: Label)
    requires Enabled(s, l)
  {
    match l
    case Connect => true
    case Close(id) => Pending(s, id) == []
    case Command(id, req, env) =>
      var c := s.clients[id];
      if c.mode == Subscribed && !SubscribedMayRun(req.command) then true
      else if req.command == "exec" then c.mode == Transaction && c.dirty ==> Pending(s, id) == []
      else
        && (req.command == "discard" ==> Pending(s, id) == [])
        && (IsWriteRequest(req) ==> OnlyPending(s, id))
  }

  /** A step in which a write fails, given directly or run by an EXEC. */
  ghost predicate WriteFails(s: Server, l: Label)
    requires Enabled(s, l)
  {
    && l.Command?
    && var c := s.clients[l.id];
       if c.mode == Subscribed && !SubscribedMayRun(l.req.command) then false
       else if l.req.command == "exec" then
         c.mode == Transaction && !c.dirty && !QueueSucceeds(Reset(s, l.id), l.id, c.queue, l.env)
       else IsWriteRequest(l.req) && Execute(s, l.id, l.req, l.env).reply == None
  }

  ghost predicate AllTidy(s: Server, ls: seq<Label>) {
    ls != [] ==>
      var before := Run(s, ls[..|ls| - 1]).server;
      AllTidy(s, ls[..|ls| - 1]) && (Enabled(before, ls[|ls| - 1]) ==> Tidy(before, ls[|ls| - 1]))
  }

  /** A run that is tidy, and at whose end no transaction with queued writes is open. */
  ghost predicate TidyRun(s: Server, ls: seq<Label>) {
    AllTidy(s, ls) && forall id :: Pending(Run(s, ls).server, id) == []
  }

  ghost predicate NoWriteFails(s: Server, ls: seq<Label>) {
    ls != [] ==>
      var before := Run(s, ls[..|ls| - 1]).server;
      NoWriteFails(s, ls[..|ls| - 1]) && (Enabled(before, ls[|ls| - 1]) ==> !WriteFails(before, ls[|ls| - 1]))
  }

  /** A run whose log is in execution order. */
  ghost predicate InOrder(s: Server, ls: seq<Label>) { TidyRun(s, ls) && NoWriteFails(s, ls) }

  // ---------------------------------------------------------------------------------------
  // EXEC executes what was queued
  // ---------------------------------------------------------------------------------------

  /** One command outside a transaction: a write that does not fail is one call, another command makes
      no write. */
  lemma ExecutedWrite(s: Server, id: int, req: Request, env: Env)
    requires id in s.clients && s.clients[id].mode != Transaction
    requires IsWriteRequest(req) ==> Execute(s, id, req, env).reply != None
    ensures WritesOf(CallsOf(s, id, req, env)) == if IsWriteRequest(req) then [LogOf(req)] else []
  {
    var entry := Lookup(req.command);
    if entry.Some? && ArityOk(entry.value, |req.args|) && !OnSession(entry.value) {
      ExecuteOnStore(s, id, req, env, entry.value);
      OnStoreReplies(s, entry.value, req.args, env, Execute(s, id, req, env));
      var h := CallsOf(s, id, req, env);
      if h != [] {
        assert h[..0] == [];
      }
    }
  }

  lemma {:induction false} RepliesPrefix(s: Server, id: int, queue: seq<Request>, env: Env)
    requires id in s.clients && queue != []
    ensures var n := |queue| - 1;
            RunQueue(s, id, queue, env).replies[..n] == RunQueue(s, id, queue[..n], env).replies
  {
  }

  lemma QueueSucceedsPrefix(s: Server, id: int, queue: seq<Request>, env: Env)
    requires id in s.clients && queue != [] && QueueSucceeds(s, id, queue, env)
    ensures QueueSucceeds(s, id, queue[..|queue| - 1], env)
  {
    RepliesPrefix(s, id, queue, env);
    var n := |queue| - 1;
    forall i | 0 <= i < n && IsWriteRequest(queue[i])
      ensures RunQueue(s, id, queue[..n], env).replies[i] != None
    {
      assert RunQueue(s, id, queue, env).replies[..n][i] == RunQueue(s, id, queue, env).replies[i];
    }
  }

  lemma LastReply(s: Server, id: int, queue: seq<Request>, env: Env)
    requires id in s.clients && queue != [] && QueueSucceeds(s, id, queue, env)
    ensures var t := RunQueue(s, id, queue[..|queue| - 1], env).server;
            IsWriteRequest(queue[|queue| - 1]) ==> Execute(t, id, queue[|queue| - 1], env).reply != None
  {
    var n := |queue| - 1;
    assert RunQueue(s, id, queue, env).replies[n] ==
           Execute(RunQueue(s, id, queue[..n], env).server, id, queue[n], env).reply;
  }

  lemma {:induction false} QueueRuns(s: Server, id: int, queue: seq<Request>, env: Env)
    requires id in s.clients && s.clients[id].mode != Transaction && QueueSucceeds(s, id, queue, env)
    requires forall i :: 0 <= i < |queue| ==> Queueable(queue[i])
    ensures WritesOf(QueueCalls(s, id, queue, env)) == QueuedWrites(queue)
  {
    if queue != [] {
      var before, last := queue[..|queue| - 1], queue[|queue| - 1];
      QueueSucceedsPrefix(s, id, queue, env);
      QueueRuns(s, id, before, env);
      RunQueueIsFold(s, id, before, env);
      LastReply(s, id, queue, env);
      var t := RunQueue(s, id, before, env).server;
      ExecutedWrite(t, id, last, env);
      WritesOfConcat(QueueCalls(s, id, before, env), CallsOf(t, id, last, env));
    }
  }

  // ---------------------------------------------------------------------------------------
  // The log is what was executed, and then what is pending
  // ---------------------------------------------------------------------------------------

  /** Only `id` may have writes pending, and they are the end of the log. */
  ghost predicate LogOk(s: Server, h: seq<Call>, id: int) {
    OnlyPending(s, id) && s.log == WritesOf(h) + Pending(s, id)
  }

  lemma QueuedOneMore(queue: seq<Request>, req: Request)
    ensures QueuedWrites(queue + [req]) == QueuedWrites(queue) + if IsWriteRequest(req) then [LogOf(req)] else []
  {
    assert (queue + [req])[..|queue|] == queue;
  }

  /** What `Execute` does to pending writes: a write given in a transaction is one more. */
  lemma ExecutePending(s: Server, who: int, req: Request, env: Env, r: Answered, i: int)
    requires who in s.clients && r == Execute(s, who, req, env)
    requires req.command == "discard" ==> Pending(s, who) == []
    requires IsWriteRequest(req) ==> r.reply != None
    ensures Pending(r.server, i) ==
            if i == who && s.clients[who].mode == Transaction && IsWriteRequest(req) then Pending(s, i) + [LogOf(req)]
            else Pending(s, i)
  {
    var entry := Lookup(req.command);
    if i in s.clients && entry.Some? && ArityOk(entry.value, |req.args|) {
      if !Transactional(entry.value) && s.clients[who].mode == Transaction {
        QueuedOneMore(s.clients[who].queue, req);
      } else {
        HandlerPending(s, who, req, entry.value, env, r, i);
      }
    }
  }

  lemma HandlerPending(s: Server, who: int, req: Request, c: Cmd, env: Env, r: Answered, i: int)
    requires who in s.clients && i in s.clients && Lookup(req.command) == Some(c) && ArityOk(c, |req.args|)
    requires r == RunHandler(s, who, c, req.args, env)
    requires req.command == "discard" ==> Pending(s, who) == []
    ensures Pending(r.server, i) == Pending(s, i)
  {
    RunHandlerModes(s, who, c, req.args, env, i, r);
    Names(req.command, c);
  }

  lemma {:induction false} RunQueueOthers(s: Server, who: int, queue: seq<Request>, env: Env, i: int)
    requires who in s.clients && i != who
    ensures Pending(RunQueue(s, who, queue, env).server, i) == Pending(s, i)
  {
    if queue != [] {
      var before, last := queue[..|queue| - 1], queue[|queue| - 1];
      RunQueueOthers(s, who, before, env, i);
      var t := RunQueue(s, who, before, env).server;
      ExecuteOthers(t, who, last, env, Execute(t, who, last, env), i);
    }
  }

  lemma ExecuteOthers(s: Server, who: int, req: Request, env: Env, r: Answered, i: int)
    requires who in s.clients && i != who && r == Execute(s, who, req, env)
    ensures Pending(r.server, i) == Pending(s, i)
  {
    var entry := Lookup(req.command);
    if i in s.clients && entry.Some? && ArityOk(entry.value, |req.args|) &&
       (Transactional(entry.value) || s.clients[who].mode != Transaction) {
      RunHandlerModes(s, who, entry.value, req.args, env, i, r);
    }
  }

  /** When nobody but `who` has writes pending, `who` can be the one named. */
  lemma MovePending(s: Server, h: seq<Call>, id: int, who: int)
    requires LogOk(s, h, id) && OnlyPending(s, who)
    ensures LogOk(s, h, who)
  {
    if id != who {
      assert Pending(s, id) == [] && Pending(s, who) == [];
    }
  }

  /** A step that logs `w` and either executes it or leaves it pending. */
  lemma LogOkAppend(s: Server, t: Server, h: seq<Call>, calls: seq<Call>, who: int, w: seq<seq<string>>, queued: bool)
    requires LogOk(s, h, who) && t.log == s.log + w
    requires forall i :: Pending(t, i) == if i == who && queued then Pending(s, i) + w else Pending(s, i)
    requires WritesOf(calls) == if queued then [] else w
    requires queued || w == [] || Pending(s, who) == []
    ensures LogOk(t, h + calls, who)
  {
    WritesOfConcat(h, calls);
    AppendLogs(s.log, t.log, WritesOf(h), WritesOf(h + calls), Pending(s, who), Pending(t, who), w, queued);
  }

  lemma AppendLogs(log: seq<seq<string>>, log': seq<seq<string>>, done: seq<seq<string>>, done': seq<seq<string>>,
                   pending: seq<seq<string>>, pending': seq<seq<string>>, w: seq<seq<string>>, queued: bool)
    requires log == done + pending && log' == log + w
    requires done' == done + if queued then [] else w
    requires pending' == if queued then pending + w else pending
    requires queued || w == [] || pending == []
    ensures log' == done' + pending'
  {
    if queued {
      assert done + [] == done;
      assert (done + pending) + w == done + (pending + w);
    } else if pending == [] {
      assert done + pending == done && done' + pending == done';
    } else {
      assert log + w == log && done + w == done;
    }
  }

  /** A step that executes what is pending for `who`. */
  lemma LogOkDrain(s: Server, t: Server, h: seq<Call>, calls: seq<Call>, id: int, who: int)
    requires LogOk(s, h, id) && t.log == s.log && WritesOf(calls) == Pending(s, who)
    requires forall i :: Pending(t, i) == if i == who then [] else Pending(s, i)
    ensures LogOk(t, h + calls, id)
  {
    WritesOfConcat(h, calls);
    if id == who {
      assert WritesOf(h + calls) + [] == WritesOf(h + calls);
    } else {
      assert Pending(s, who) == [];
      assert WritesOf(h) + [] == WritesOf(h);
    }
  }

  /** A request given to `Execute`. */
  lemma ExecuteLogOk(s: Server, who: int, req: Request, env: Env, r: Answered, h: seq<Call>, id: int, t: Server)
    requires who in s.clients && QueuesOk(s) && LogOk(s, h, id) && r == Execute(s, who, req, env)
    requires req.command == "discard" ==> Pending(s, who) == []
    requires IsWriteRequest(req) ==> OnlyPending(s, who) && r.reply != None
    requires t == r.server.(log := s.log + if IsWriteRequest(req) then [LogOf(req)] else [])
    ensures LogOk(t, h + CallsOf(s, who, req, env), if IsWriteRequest(req) then who else id)
  {
    var w := if IsWriteRequest(req) then [LogOf(req)] else [];
    var queued := s.clients[who].mode == Transaction;
    forall i
      ensures Pending(t, i) == if i == who && queued then Pending(s, i) + w else Pending(s, i)
    {
      ExecutePending(s, who, req, env, r, i);
    }
    assert ClientQueueOk(s.clients[who]);
    if !queued {
      ExecutedWrite(s, who, req, env);
    }
    var named := if IsWriteRequest(req) then who else id;
    if IsWriteRequest(req) {
      MovePending(s, h, id, who);
    } else {
      assert forall i :: Pending(t, i) == Pending(s, i);
    }
    LogOkAppend(s, t, h, CallsOf(s, who, req, env), named, w, queued);
  }

  lemma ExecPending(s: Server, who: int, env: Env, t: Server, i: int)
    requires who in s.clients && QueuesOk(s)
    requires t == RunQueue(Reset(s, who), who, s.clients[who].queue, env).server
    ensures Pending(t, i) == if i == who then [] else Pending(s, i)
  {
    if i == who {
      ExecQueues(s, who, env);
    } else {
      RunQueueOthers(Reset(s, who), who, s.clients[who].queue, env, i);
    }
  }

  /** An EXEC that runs its queue. */
  lemma ExecLogOk(s: Server, who: int, env: Env, t: Server, h: seq<Call>, id: int, calls: seq<Call>)
    requires who in s.clients && QueuesOk(s) && LogOk(s, h, id)
    requires QueueSucceeds(Reset(s, who), who, s.clients[who].queue, env)
    requires t == RunQueue(Reset(s, who), who, s.clients[who].queue, env).server
    requires calls == QueueCalls(Reset(s, who), who, s.clients[who].queue, env)
    ensures LogOk(t, h + calls, id)
  {
    assert ClientQueueOk(s.clients[who]);
    QueueRuns(Reset(s, who), who, s.clients[who].queue, env);
    RunQueueLog(Reset(s, who), who, s.clients[who].queue, env);
    forall i
      ensures Pending(t, i) == if i == who then [] else Pending(s, i)
    {
      ExecPending(s, who, env, t, i);
    }
    LogOkDrain(s, t, h, calls, id, who);
  }

  lemma ExecQueues(s: Server, who: int, env: Env)
    requires who in s.clients && QueuesOk(s)
    ensures var t := RunQueue(Reset(s, who), who, s.clients[who].queue, env).server;
            who in t.clients && t.clients[who].queue == []
  {
    var u, queue := Reset(s, who), s.clients[who].queue;
    assert ClientQueueOk(s.clients[who]);
    assert QueuesOk(u);
    RunQueueIsFold(u, who, queue, env);
    RunQueueQueues(u, who, queue, env);
    assert ClientQueueOk(RunQueue(u, who, queue, env).server.clients[who]);
  }

  lemma ConnectLogOk(s: Server, h: seq<Call>, id: int, t: Server)
    requires LogOk(s, h, id) && s.nextId !in s.clients && t == Step(s, Connect).server
    ensures LogOk(t, h, id)
  {
    assert forall i :: Pending(t, i) == Pending(s, i);
  }

  lemma CloseLogOk(s: Server, h: seq<Call>, id: int, who: int, t: Server)
    requires LogOk(s, h, id) && Pending(s, who) == [] && t == Step(s, Close(who)).server
    ensures LogOk(t, h, id)
  {
    assert forall i :: Pending(t, i) == Pending(s, i);
  }

  lemma AbortLogOk(s: Server, h: seq<Call>, id: int, who: int)
    requires LogOk(s, h, id) && who in s.clients && Pending(s, who) == []
    ensures LogOk(Reset(s, who), h, id)
  {
    assert forall i :: Pending(Reset(s, who), i) == Pending(s, i);
  }

  lemma StepLogOk(s: Server, l: Label, h: seq<Call>, id: int, t: Server) returns (id': int)
    requires QueuesOk(s) && s.nextId !in s.clients && LogOk(s, h, id)
    requires Enabled(s, l) && Tidy(s, l) && !WriteFails(s, l) && t == Step(s, l).server
    ensures LogOk(t, h + StepCalls(s, l), id')
  {
    id' := id;
    assert h + [] == h;
    match l {
      case Connect => ConnectLogOk(s, h, id, t);
      case Close(who) => CloseLogOk(s, h, id, who, t);
      case Command(who, req, env) =>
        if s.clients[who].mode == Subscribed && !SubscribedMayRun(req.command) {
        } else if req.command == "exec" {
          if s.clients[who].mode == Transaction {
            if s.clients[who].dirty {
              AbortLogOk(s, h, id, who);
            } else {
              ExecLogOk(s, who, env, t, h, id, StepCalls(s, l));
            }
          }
        } else {
          id' := if IsWriteRequest(req) then who else id;
          ExecuteStep(s, who, req, env, t);
          ExecuteLogOk(s, who, req, env, Execute(s, who, req, env), h, id, t);
        }
    }
  }

  lemma ExecuteStep(s: Server, who: int, req: Request, env: Env, t: Server)
    requires who in s.clients && req.command != "exec" && t == Step(s, Command(who, req, env)).server
    requires s.clients[who].mode == Subscribed ==> SubscribedMayRun(req.command)
    ensures t == Execute(s, who, req, env).server.(log := s.log + if IsWriteRequest(req) then [LogOf(req)] else [])
  {
    ExecuteLog(s, who, req, env, Execute(s, who, req, env));
  }

  lemma {:induction false} RunLogOk(data: Data, ls: seq<Label>) returns (id: int)
    requires AllTidy(Start(data), ls) && NoWriteFails(Start(data), ls)
    ensures LogOk(Run(Start(data), ls).server, RunCalls(Start(data), ls), id)
  {
    id := 0;
    if ls != [] {
      var before, l := Run(Start(data), ls[..|ls| - 1]), ls[|ls| - 1];
      var h := RunCalls(Start(data), ls[..|ls| - 1]);
      id := RunLogOk(data, ls[..|ls| - 1]);
      if Enabled(before.server, l) {
        ReachableQueuesOk(data, ls[..|ls| - 1]);
        ReachableInv(data, ls[..|ls| - 1]);
        id := StepLogOk(before.server, l, h, id, Step(before.server, l).server);
      } else {
        assert h + [] == h;
      }
    }
  }

  /** In a run that is in order, transactions included, writes are executed as they arrive. */
  lemma InOrderArrivals(data: Data, ls: seq<Label>)
    requires InOrder(Start(data), ls)
    ensures Arrivals(Start(data), ls) == WritesOf(RunCalls(Start(data), ls))
  {
    var id := RunLogOk(data, ls);
    LogIsArrivals(Start(data), ls);
    assert [] + Arrivals(Start(data), ls) == Arrivals(Start(data), ls);
    assert Pending(Run(Start(data), ls).server, id) == [];
  }

  lemma InOrderReplays(data: Data, ls: seq<Label>, env: Env)
    requires NoExpiry(data) && Steady(ls, env) && InOrder(Start(data), ls)
    ensures var s := Run(Start(data), ls).server; Replayed(s.log, data, env) == Some(s.data)
  {
    InOrderArrivals(data, ls);
    LogIsArrivals(Start(data), ls);
    assert [] + Arrivals(Start(data), ls) == Arrivals(Start(data), ls);
    StoreIsExecutedWrites(data, ls, env);
  }

  // ---------------------------------------------------------------------------------------
  // A write that fails, fails again on replay
  // ---------------------------------------------------------------------------------------

  lemma NoneExtends(a: seq<seq<string>>, b: seq<seq<string>>, data: Data, env: Env)
    requires Replayed(a, data, env) == None
    ensures Replayed(a + b, data, env) == None
  {
    ReplayedConcat(a, b, data, env);
  }

  /** What the queue did before one of its writes failed. */
  lemma QueueReplays(s: Server, id: int, queue: seq<Request>, env: Env, e: Env)
    requires id in s.clients && s.clients[id].mode != Transaction && QueueSucceeds(s, id, queue, env)
    requires forall i :: 0 <= i < |queue| ==> Queueable(queue[i]) && SteadyRequest(queue[i])
    requires QueuesSteady(s) && NoExpiry(s.data) && SameConversions(env, e)
    ensures Replayed(QueuedWrites(queue), s.data, e) == Some(RunQueue(s, id, queue, env).server.data)
  {
    QueueRuns(s, id, queue, env);
    QueueChained(s, id, queue, env);
    QueueSteady(s, id, queue, env, e);
    HistoryReplays(QueueCalls(s, id, queue, env), s.data, RunQueue(s, id, queue, env).server.data, e);
  }

  lemma {:induction false} QueueFails(s: Server, id: int, queue: seq<Request>, env: Env, e: Env)
    requires id in s.clients && s.clients[id].mode != Transaction && !QueueSucceeds(s, id, queue, env)
    requires forall i :: 0 <= i < |queue| ==> Queueable(queue[i]) && SteadyRequest(queue[i])
    requires QueuesSteady(s) && NoExpiry(s.data) && SameConversions(env, e)
    ensures Replayed(QueuedWrites(queue), s.data, e) == None
  {
    if queue != [] {
      var before, last := queue[..|queue| - 1], queue[|queue| - 1];
      if !QueueSucceeds(s, id, before, env) {
        QueueFails(s, id, before, env, e);
        NoneExtends(QueuedWrites(before), if IsWriteRequest(last) then [LogOf(last)] else [], s.data, e);
      } else {
        var t := RunQueue(s, id, before, env).server;
        LastFails(s, id, queue, env);
        QueueReplays(s, id, before, env, e);
        RunQueueIsFold(s, id, before, env);
        FailedReplays(t, id, last, e, env, t.data);
        ReplayedAppend(QueuedWrites(before), LogOf(last), s.data, e);
      }
    }
  }

  lemma LastFails(s: Server, id: int, queue: seq<Request>, env: Env)
    requires id in s.clients && queue != []
    requires !QueueSucceeds(s, id, queue, env) && QueueSucceeds(s, id, queue[..|queue| - 1], env)
    ensures var n := |queue| - 1;
            && IsWriteRequest(queue[n])
            && Execute(RunQueue(s, id, queue[..n], env).server, id, queue[n], env).reply == None
  {
    var n := |queue| - 1;
    if IsWriteRequest(queue[n]) ==> Execute(RunQueue(s, id, queue[..n], env).server, id, queue[n], env).reply != None {
      SucceedsToTheEnd(s, id, queue, env);
    }
  }

  lemma SucceedsToTheEnd(s: Server, id: int, queue: seq<Request>, env: Env)
    requires id in s.clients && queue != [] && QueueSucceeds(s, id, queue[..|queue| - 1], env)
    requires var n := |queue| - 1;
             IsWriteRequest(queue[n]) ==> Execute(RunQueue(s, id, queue[..n], env).server, id, queue[n], env).reply != None
    ensures QueueSucceeds(s, id, queue, env)
  {
    var n := |queue| - 1;
    var all, some := RunQueue(s, id, queue, env).replies, RunQueue(s, id, queue[..n], env).replies;
    RepliesPrefix(s, id, queue, env);
    assert all[n] == Execute(RunQueue(s, id, queue[..n], env).server, id, queue[n], env).reply;
    NoneMissing(queue, all, some);
  }

  lemma NoneMissing(queue: seq<Request>, all: seq<Option<Reply>>, some: seq<Option<Reply>>)
    requires queue != [] && |all| == |queue| && all[..|queue| - 1] == some
    requires forall i :: 0 <= i < |some| && IsWriteRequest(queue[..|queue| - 1][i]) ==> some[i] != None
    requires IsWriteRequest(queue[|queue| - 1]) ==> all[|queue| - 1] != None
    ensures forall i :: 0 <= i < |queue| && IsWriteRequest(queue[i]) ==> all[i] != None
  {
    forall i | 0 <= i < |queue| && IsWriteRequest(queue[i])
      ensures all[i] != None
    {
      if i < |some| {
        assert all[i] == some[i] && queue[..|queue| - 1][i] == queue[i];
      }
    }
  }

  /** A write given directly. */
  lemma DirectFails(data: Data, s: Server, h: seq<Call>, id: int, who: int, req: Request, env: Env, e: Env)
    requires who in s.clients && QueuesOk(s) && LogOk(s, h, id) && OnlyPending(s, who)
    requires SteadyRequest(req) && IsWriteRequest(req) && SameConversions(env, e)
    requires Execute(s, who, req, env).reply == None && Replayed(WritesOf(h), data, e) == Some(s.data)
    ensures Replayed(s.log + [LogOf(req)], data, e) == None
  {
    MovePending(s, h, id, who);
    assert ClientQueueOk(s.clients[who]);
    ReplayedAppend(s.log, LogOf(req), data, e);
    var made := Replayed(s.log, data, e);
    if made.Some? {
      if s.clients[who].mode != Transaction {
        assert WritesOf(h) + [] == WritesOf(h);
      }
      FailedReplays(s, who, req, e, env, made.value);
    }
  }

  /** A write of a queue that EXEC runs. */
  lemma ExecFails(data: Data, s: Server, h: seq<Call>, id: int, who: int, env: Env, e: Env)
    requires who in s.clients && QueuesOk(s) && QueuesSteady(s) && LogOk(s, h, id) && SameConversions(env, e)
    requires NoExpiry(s.data) && Replayed(WritesOf(h), data, e) == Some(s.data)
    requires !QueueSucceeds(Reset(s, who), who, s.clients[who].queue, env)
    ensures Replayed(s.log, data, e) == None
  {
    var queue := s.clients[who].queue;
    assert ClientQueueOk(s.clients[who]);
    QueueFails(Reset(s, who), who, queue, env, e);
    NothingReplays(s.data, e);
    HolderIs(s, h, id, who);
    ReplayedConcat(WritesOf(h), QueuedWrites(queue), data, e);
  }

  lemma NothingReplays(data: Data, env: Env)
    ensures Replayed([], data, env) == Some(data)
  {
  }

  lemma HolderIs(s: Server, h: seq<Call>, id: int, who: int)
    requires LogOk(s, h, id) && who in s.clients && QueuedWrites(s.clients[who].queue) != []
    ensures s.log == WritesOf(h) + QueuedWrites(s.clients[who].queue)
  {
    assert Pending(s, who) != [];
  }

  lemma StepFailsAgain(data: Data, s: Server, l: Label, h: seq<Call>, id: int, e: Env, t: Server)
    requires Enabled(s, l) && Tidy(s, l) && WriteFails(s, l) && SteadyLabel(l, e) && t == Step(s, l).server
    requires QueuesOk(s) && QueuesSteady(s) && LogOk(s, h, id)
    requires NoExpiry(s.data) && Replayed(WritesOf(h), data, e) == Some(s.data)
    ensures Replayed(t.log, data, e) == None
  {
    StepLog(s, l, t);
    if l.req.command == "exec" {
      ExecFails(data, s, h, id, l.id, l.env, e);
      assert s.log + [] == s.log;
    } else {
      DirectFails(data, s, h, id, l.id, l.req, l.env, e);
    }
  }

  lemma {:induction false} FailureStops(data: Data, ls: seq<Label>, env: Env)
    requires NoExpiry(data) && Steady(ls, env) && AllTidy(Start(data), ls) && !NoWriteFails(Start(data), ls)
    ensures Replayed(Run(Start(data), ls).server.log, data, env) == None
  {
    var before, l := ls[..|ls| - 1], ls[|ls| - 1];
    var s := Run(Start(data), before).server;
    if !NoWriteFails(Start(data), before) {
      FailureStops(data, before, env);
      if Enabled(s, l) {
        StepLog(s, l, Step(s, l).server);
        NoneExtends(s.log, Arrived(s, l), data, env);
      }
    } else {
      var id := RunLogOk(data, before);
      ReachableQueuesOk(data, before);
      RunSteady(data, before, env);
      RunKeepsNoExpiry(data, before, env);
      StepFailsAgain(data, s, l, RunCalls(Start(data), before), id, env, Step(s, l).server);
    }
  }

  // ---------------------------------------------------------------------------------------
  // When the log rebuilds the store
  // ---------------------------------------------------------------------------------------

  /** The log of a tidy run, transactions included, replays to the store the run ended with, or not at
      all, by whether a write failed. */
  lemma TidyReplays(data: Data, ls: seq<Label>, env: Env)
    requires NoExpiry(data) && Steady(ls, env) && TidyRun(Start(data), ls)
    ensures var s := Run(Start(data), ls).server;
            Replayed(s.log, data, env) == if NoWriteFails(Start(data), ls) then Some(s.data) else None
  {
    if NoWriteFails(Start(data), ls) {
      InOrderReplays(data, ls, env);
    } else {
      FailureStops(data, ls, env);
    }
  }

  /** The log of a tidy run loads without error if and only if no write of the run failed, and then it
      rebuilds the store the run ended with, at whatever time it is replayed. Tidy: no transaction
      with queued writes was discarded, aborted or left open, and no write arrived while another
      client had writes queued. */
  lemma LogRebuildsStore(data: Data, ls: seq<Label>, env: Env)
    requires NoExpiry(data) && Steady(ls, env) && TidyRun(Start(data), ls) && Loadable(Run(Start(data), ls).server.log)
    ensures var s := Run(Start(data), ls).server;
            var r := LoadFrom(Resp.Commands(s.log), data, Replayer(env));
            && (r.error == NoError <==> NoWriteFails(Start(data), ls))
            && (NoWriteFails(Start(data), ls) ==> r.state == s.data)
  {
    TidyReplays(data, ls, env);
    LoadOfLog(Run(Start(data), ls).server.log, data, env);
  }

  // ---------------------------------------------------------------------------------------
  // Runs without MULTI are tidy
  // ---------------------------------------------------------------------------------------

  predicate NobodyOpens(ls: seq<Label>) {
    forall i :: 0 <= i < |ls| ==> (ls[i].Command? ==> ls[i].req.command != "multi")
  }

  lemma StepOpensNothing(s: Server, l: Label, t: Server)
    requires Enabled(s, l) && NoTransactions(s) && (l.Command? ==> l.req.command != "multi") && t == Step(s, l).server
    ensures NoTransactions(t)
  {
    if l.Command? {
      var c := Lookup(l.req.command);
      if c.Some? && ArityOk(c.value, |l.req.args|) {
        Names(l.req.command, c.value);
        var a := Execute(s, l.id, l.req, l.env);
        forall i | i in s.clients
          ensures a.server.clients[i].mode != Transaction
        {
          RunHandlerModes(s, l.id, c.value, l.req.args, l.env, i, a);
        }
      }
    }
  }

  lemma IdleIsTidy(s: Server, l: Label)
    requires Enabled(s, l) && QueuesOk(s) && NoTransactions(s)
    ensures Tidy(s, l) && forall id :: Pending(s, id) == []
  {
    forall id
      ensures Pending(s, id) == []
    {
      if id in s.clients {
        assert ClientQueueOk(s.clients[id]);
      }
    }
  }

  /** A run in which nobody sends MULTI is tidy, and so is every part of it. */
  lemma {:induction false} WithoutMultiIsTidy(data: Data, ls: seq<Label>)
    requires NobodyOpens(ls)
    ensures TidyRun(Start(data), ls) && NoTransactions(Run(Start(data), ls).server)
  {
    var s := Run(Start(data), ls).server;
    if ls != [] {
      var before, l := Run(Start(data), ls[..|ls| - 1]).server, ls[|ls| - 1];
      WithoutMultiIsTidy(data, ls[..|ls| - 1]);
      if Enabled(before, l) {
        ReachableQueuesOk(data, ls[..|ls| - 1]);
        IdleIsTidy(before, l);
        StepOpensNothing(before, l, s);
      }
    }
    ReachableQueuesOk(data, ls);
    IdleIsTidy(s, Connect);
  }

  // ---------------------------------------------------------------------------------------
  // Recovery from a log cut short
  // ---------------------------------------------------------------------------------------

  /** The calls that made the first `k` writes. */
  lemma {:induction false} CallsOfWrites(h: seq<Call>, k: nat) returns (j: nat)
    requires k <= |WritesOf(h)|
    ensures j <= |h| && WritesOf(h[..j]) == WritesOf(h)[..k]
  {
    if k == |WritesOf(h)| {
      j := |h|;
      assert h[..j] == h;
    } else {
      var before := h[..|h| - 1];
      j := CallsOfWrites(before, k);
      assert h[..j] == before[..j];
    }
  }

  /** The store after the first `j` calls. */
  function StoreAfter(h: seq<Call>, from: Data, j: nat): Data
    requires j <= |h|
  {
    if j == 0 then from else h[j - 1].after
  }

  lemma {:induction false} ChainedPrefix(h: seq<Call>, from: Data, end: Data, j: nat)
    requires Chained(h, from, end) && j <= |h|
    ensures Chained(h[..j], from, StoreAfter(h, from, j))
  {
    if j == |h| {
      assert h[..j] == h;
    } else {
      var before := h[..|h| - 1];
      ChainedPrefix(before, from, h[|h| - 1].before, j);
      assert h[..j] == before[..j];
    }
  }

  /** The log of a run in order, cut at any byte: loading it recovers the store as it was after the
      writes that are whole in it, possibly in the middle of an EXEC, and returns no error exactly at a
      boundary. */
  lemma CutLogRecovers(data: Data, ls: seq<Label>, env: Env, n: nat) returns (j: nat)
    requires NoExpiry(data) && Steady(ls, env) && InOrder(Start(data), ls)
    requires var log := Run(Start(data), ls).server.log; Loadable(log) && n <= |Resp.Commands(log)|
    ensures var h, log := RunCalls(Start(data), ls), Run(Start(data), ls).server.log;
            && j <= |h| && WritesOf(h[..j]) == log[..Whole(log, n)]
            && LoadFrom(Resp.Commands(log)[..n], data, Replayer(env)) ==
               Loaded(StoreAfter(h, data, j), if Boundary(log, n) then NoError else ParseError(Resp.UnexpectedEof))
  {
    var h, log := RunCalls(Start(data), ls), Run(Start(data), ls).server.log;
    InOrderArrivals(data, ls);
    LogIsArrivals(Start(data), ls);
    assert [] + Arrivals(Start(data), ls) == Arrivals(Start(data), ls);
    j := CallsOfWrites(h, Whole(log, n));
    RunSteady(data, ls, env);
    RunChained(Start(data), ls);
    ChainedPrefix(h, data, Run(Start(data), ls).server.data, j);
    HistoryReplays(h[..j], data, StoreAfter(h, data, j), env);
    LoadOfCutReplay(log, n, data, env);
  }

  lemma {:induction false} CallsAtSteps(data: Data, ls: seq<Label>, j: nat) returns (m: nat)
    requires NobodyOpens(ls) && j <= |RunCalls(Start(data), ls)|
    ensures m <= |ls| && RunCalls(Start(data), ls[..m]) == RunCalls(Start(data), ls)[..j]
  {
    var h := RunCalls(Start(data), ls);
    if j == |h| {
      m := |ls|;
      assert ls[..m] == ls && h[..j] == h;
    } else {
      var before := ls[..|ls| - 1];
      WithoutMultiIsTidy(data, before);
      assert j <= |RunCalls(Start(data), before)|;
      m := CallsAtSteps(data, before, j);
      assert ls[..m] == before[..m];
    }
  }

  /** Without transactions that is the store the run had after some of its steps. */
  lemma CutLogRecoversAStep(data: Data, ls: seq<Label>, env: Env, n: nat) returns (m: nat)
    requires NoExpiry(data) && Steady(ls, env) && NobodyOpens(ls) && NoWriteFails(Start(data), ls)
    requires var log := Run(Start(data), ls).server.log; Loadable(log) && n <= |Resp.Commands(log)|
    ensures var log := Run(Start(data), ls).server.log;
            && m <= |ls| && Run(Start(data), ls[..m]).server.log == log[..Whole(log, n)]
            && LoadFrom(Resp.Commands(log)[..n], data, Replayer(env)) ==
               Loaded(Run(Start(data), ls[..m]).server.data,
                      if Boundary(log, n) then NoError else ParseError(Resp.UnexpectedEof))
  {
    WithoutMultiIsTidy(data, ls);
    var j := CutLogRecovers(data, ls, env, n);
    m := CallsAtSteps(data, ls, j);
    StepOfCalls(data, ls, j, m);
    WithoutMultiIsTidy(data, ls[..m]);
    NoFailurePrefix(Start(data), ls, m);
    InOrderArrivals(data, ls[..m]);
    LogIsArrivals(Start(data), ls[..m]);
    assert [] + Arrivals(Start(data), ls[..m]) == Arrivals(Start(data), ls[..m]);
  }

  lemma StepOfCalls(data: Data, ls: seq<Label>, j: nat, m: nat)
    requires m <= |ls| && j <= |RunCalls(Start(data), ls)|
    requires RunCalls(Start(data), ls[..m]) == RunCalls(Start(data), ls)[..j]
    ensures Run(Start(data), ls[..m]).server.data == StoreAfter(RunCalls(Start(data), ls), data, j)
  {
    RunChained(Start(data), ls[..m]);
  }

  lemma {:induction false} NoFailurePrefix(s: Server, ls: seq<Label>, m: nat)
    requires m <= |ls| && NoWriteFails(s, ls)
    ensures NoWriteFails(s, ls[..m])
  {
    if m < |ls| {
      NoFailurePrefix(s, ls[..|ls| - 1], m);
      assert ls[..|ls| - 1][..m] == ls[..m];
    } else {
      assert ls[..m] == ls;
    }
  }
}
