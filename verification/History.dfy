/** What a run did to the store: the handlers that ran and succeeded, in the order they ran, whether
    directly or from the queue of an EXEC. */
module History {
  import opened Text
  import opened Keyspace
  import opened Commands
  import opened Transactions
  import opened Isolation

  /** A handler that ran on the store `before` and left `after`. */
  datatype Call = Call(req: Request, c: Cmd, env: Env, before: Data, after: Data)

  /** The calls of one `Execute`: one, or none when it fails, queues or works on the session. */
  function CallsOf(s: Server, id: int, req: Request, env: Env): seq<Call>
    requires id in s.clients
  {
    var entry := Lookup(req.command);
    if entry == None || !ArityOk(entry.value, |req.args|) || OnSession(entry.value) then []
    else if s.clients[id].mode == Transaction then []
    else match Handle(entry.value, req.args, env, s.data)
      case Failed => []
      case Done(after, _) => [Call(req, entry.value, env, s.data, after)]
  }

  function QueueCalls(s: Server, id: int, queue: seq<Request>, env: Env): seq<Call>
    requires id in s.clients
  {
    if queue == [] then [] else
      var before := queue[..|queue| - 1];
      QueueCalls(s, id, before, env) + CallsOf(RunQueue(s, id, before, env).server, id, queue[|queue| - 1], env)
  }

  function StepCalls(s: Server, l: Label): seq<Call>
    requires Enabled(s, l)
  {
    if !l.Command? then []
    else if s.clients[l.id].mode == Subscribed && !SubscribedMayRun(l.req.command) then []
    else if l.req.command == "exec" then
      if s.clients[l.id].mode != Transaction || s.clients[l.id].dirty then []
      else QueueCalls(Reset(s, l.id), l.id, s.clients[l.id].queue, l.env)
    else CallsOf(s, l.id, l.req, l.env)
  }

  function RunCalls(s: Server, ls: seq<Label>): seq<Call> {
    if ls == [] then [] else
      var before := Run(s, ls[..|ls| - 1]).server;
      RunCalls(s, ls[..|ls| - 1]) + if Enabled(before, ls[|ls| - 1]) then StepCalls(before, ls[|ls| - 1]) else []
  }

  /** The call is what the handler of its request does. */
  ghost predicate CallOk(call: Call) {
    && Lookup(call.req.command) == Some(call.c) && ArityOk(call.c, |call.req.args|)
    && var o := Handle(call.c, call.req.args, call.env, call.before);
       o.Done? && o.data == call.after
  }

  /** The calls lead from one store to another, each starting where the one before it ended. */
  ghost predicate Linked(h: seq<Call>, from: Data, end: Data) {
    if h == [] then from == end
    else h[|h| - 1].after == end && Linked(h[..|h| - 1], from, h[|h| - 1].before)
  }

  ghost predicate Chained(h: seq<Call>, from: Data, end: Data) {
    Linked(h, from, end) && forall call :: call in h ==> CallOk(call)
  }

  lemma {:induction false} LinkedConcat(a: seq<Call>, b: seq<Call>, from: Data, middle: Data, end: Data)
    requires Linked(a, from, middle) && Linked(b, middle, end)
    ensures Linked(a + b, from, end)
    decreases |b|
  {
    if b == [] {
      assert a + b == a;
    } else {
      var before, last := b[..|b| - 1], b[|b| - 1];
      LinkedConcat(a, before, from, middle, last.before);
      assert (a + b)[..|a + b| - 1] == a + before;
    }
  }

  lemma ChainedConcat(a: seq<Call>, b: seq<Call>, from: Data, middle: Data, end: Data)
    requires Chained(a, from, middle) && Chained(b, middle, end)
    ensures Chained(a + b, from, end)
  {
    LinkedConcat(a, b, from, middle, end);
  }

  lemma ExecuteChained(s: Server, id: int, req: Request, env: Env, r: Answered, h: seq<Call>)
    requires id in s.clients && r == Execute(s, id, req, env) && h == CallsOf(s, id, req, env)
    ensures Chained(h, s.data, r.server.data)
  {
    var entry := Lookup(req.command);
    if entry.Some? && ArityOk(entry.value, |req.args|) {
      if OnSession(entry.value) {
        if Transactional(entry.value) || s.clients[id].mode != Transaction {
          RunSessionWatches(s, id, entry.value, req.args, env, id, r);
        }
      } else if s.clients[id].mode != Transaction {
        StoreChained(s, req, entry.value, env, r, h);
      }
    }
  }

  lemma StoreChained(s: Server, req: Request, c: Cmd, env: Env, r: Answered, h: seq<Call>)
    requires Lookup(req.command) == Some(c) && ArityOk(c, |req.args|) && r == RunOnStore(s, c, req.args, env)
    requires var o := Handle(c, req.args, env, s.data);
             h == if o.Done? then [Call(req, c, env, s.data, o.data)] else []
    ensures Chained(h, s.data, r.server.data)
  {
    if h != [] {
      assert h[..0] == [];
    }
  }

  lemma {:induction false} QueueChained(s: Server, id: int, queue: seq<Request>, env: Env)
    requires id in s.clients
    ensures Chained(QueueCalls(s, id, queue, env), s.data, RunQueue(s, id, queue, env).server.data)
  {
    if queue != [] {
      var before, last := queue[..|queue| - 1], queue[|queue| - 1];
      QueueChained(s, id, before, env);
      var t := RunQueue(s, id, before, env).server;
      var r := Execute(t, id, last, env);
      ExecuteChained(t, id, last, env, r, CallsOf(t, id, last, env));
      ChainedConcat(QueueCalls(s, id, before, env), CallsOf(t, id, last, env), s.data, t.data, r.server.data);
    }
  }

  lemma StepChained(s: Server, l: Label, t: Server)
    requires Enabled(s, l) && t == Step(s, l).server
    ensures Chained(StepCalls(s, l), s.data, t.data)
  {
    if l.Command? {
      if s.clients[l.id].mode == Subscribed && !SubscribedMayRun(l.req.command) {
      } else if l.req.command == "exec" {
        QueueChained(Reset(s, l.id), l.id, s.clients[l.id].queue, l.env);
      } else {
        ExecuteChained(s, l.id, l.req, l.env, Execute(s, l.id, l.req, l.env), CallsOf(s, l.id, l.req, l.env));
      }
    }
  }

  /** The store of any run is what its calls made of the store it started with. */
  lemma {:induction false} RunChained(s: Server, ls: seq<Label>)
    ensures Chained(RunCalls(s, ls), s.data, Run(s, ls).server.data)
  {
    if ls != [] {
      RunChained(s, ls[..|ls| - 1]);
      var before := Run(s, ls[..|ls| - 1]).server;
      var h := RunCalls(s, ls[..|ls| - 1]);
      if Enabled(before, ls[|ls| - 1]) {
        var after := Step(before, ls[|ls| - 1]).server;
        StepChained(before, ls[|ls| - 1], after);
        ChainedConcat(h, StepCalls(before, ls[|ls| - 1]), s.data, before.data, after.data);
      } else {
        assert h + [] == h;
      }
    }
  }
}
