/** What a transaction can rely on: its queue runs as one in-order fold, and the keys it watched
    still hold what they held. */
module Isolation {
  import opened Keyspace
  import opened Commands
  import opened Transactions

  // ---------------------------------------------------------------------------------------
  // Queues
  // ---------------------------------------------------------------------------------------

  /** A request that EXEC can run: known, with the right number of arguments, and none of MULTI,
      DISCARD, WATCH; EXEC itself is unknown to the handler table. */
  predicate Queueable(req: Request) {
    var c := Lookup(req.command);
    c.Some? && ArityOk(c.value, |req.args|) && !Transactional(c.value)
  }

  ghost predicate ClientQueueOk(c: Client) {
    (c.mode != Transaction ==> c.queue == []) && forall i :: 0 <= i < |c.queue| ==> Queueable(c.queue[i])
  }

  ghost predicate QueuesOk(s: Server) {
    forall id :: id in s.clients ==> ClientQueueOk(s.clients[id])
  }

  lemma ExecIsNotQueueable(req: Request)
    requires Queueable(req)
    ensures req.command !in {"multi", "exec", "discard", "watch"}
  {
  }

  lemma {:induction false} WatchKeysModes(s: Server, id: int, keys: seq<string>, i: int)
    requires id in s.clients && i in s.clients
    ensures var t := WatchKeys(s, id, keys);
            t.clients[i].mode == s.clients[i].mode && t.clients[i].queue == s.clients[i].queue
    ensures i != id ==> WatchKeys(s, id, keys).clients[i] == s.clients[i]
    ensures WatchKeys(s, id, keys).clients[i].dirty == s.clients[i].dirty
    ensures WatchKeys(s, id, keys).data == s.data
  {
    if keys != [] {
      WatchKeysModes(s, id, keys[..|keys| - 1], i);
    }
  }

  /** A store command leaves every client its mode, queue and watches, and only sets dirty flags. */
  lemma RunOnStoreClients(s: Server, c: Cmd, args: seq<string>, env: Env, i: int, r: Answered)
    requires i in s.clients && ArityOk(c, |args|) && r == RunOnStore(s, c, args, env)
    ensures r.server.clients[i] == s.clients[i] || r.server.clients[i] == s.clients[i].(dirty := true)
    ensures r.server.watchers == s.watchers
  {
  }

  /** What a handler leaves of the modes and queues of the clients. */
  ghost predicate ModesAfter(c: Cmd, mine: bool, before: Client, after: Client) {
    if !mine then after.mode == before.mode && after.queue == before.queue
    else if c == MULTI then after.queue == before.queue && after.mode == Transaction
    else if c == DISCARD then
      if before.mode == Transaction then after.queue == [] && after.mode == Normal
      else after.queue == before.queue && after.mode == before.mode
    else if c == SUBSCRIBE then after.queue == before.queue && after.mode == Subscribed
    else after.queue == before.queue && after.mode == before.mode
  }

  lemma RunSessionModes(s: Server, id: int, c: Cmd, args: seq<string>, env: Env, i: int, r: Answered)
    requires id in s.clients && i in s.clients && ArityOk(c, |args|) && OnSession(c)
    requires r == RunHandler(s, id, c, args, env)
    ensures ModesAfter(c, i == id, s.clients[i], r.server.clients[i])
  {
    match c {
      case WATCH => WatchKeysModes(s, id, args, i);
      case _ =>
    }
  }

  lemma RunHandlerModes(s: Server, id: int, c: Cmd, args: seq<string>, env: Env, i: int, r: Answered)
    requires id in s.clients && i in s.clients && ArityOk(c, |args|) && r == RunHandler(s, id, c, args, env)
    ensures ModesAfter(c, i == id, s.clients[i], r.server.clients[i])
  {
    if OnSession(c) {
      RunSessionModes(s, id, c, args, env, i, r);
    } else {
      RunOnStoreClients(s, c, args, env, i, r);
    }
  }

  lemma ExecuteQueues(s: Server, id: int, req: Request, env: Env)
    requires QueuesOk(s) && id in s.clients
    ensures QueuesOk(Execute(s, id, req, env).server)
  {
    var r := Execute(s, id, req, env);
    var entry := Lookup(req.command);
    if entry.Some? && ArityOk(entry.value, |req.args|) {
      if !Transactional(entry.value) && s.clients[id].mode == Transaction {
        assert Queueable(req);
      } else {
        forall i | i in r.server.clients
          ensures ClientQueueOk(r.server.clients[i])
        {
          RunHandlerModes(s, id, entry.value, req.args, env, i, r);
        }
      }
    }
  }

  /** A queued request run outside a transaction goes straight to its handler. */
  lemma RunsAtOnce(s: Server, id: int, req: Request, env: Env)
    requires id in s.clients && s.clients[id].mode != Transaction && Queueable(req)
    ensures Execute(s, id, req, env) == RunHandler(s, id, Lookup(req.command).value, req.args, env)
    ensures Execute(s, id, req, env).server.clients[id].mode != Transaction
  {
    RunHandlerModes(s, id, Lookup(req.command).value, req.args, env, id, Execute(s, id, req, env));
  }

  /** The queue folded over the handlers, with no way to queue anything. */
  function FoldHandlers(s: Server, id: int, queue: seq<Request>, env: Env): (r: Ran)
    requires id in s.clients && forall i :: 0 <= i < |queue| ==> Queueable(queue[i])
    ensures |r.replies| == |queue| && id in r.server.clients
  {
    if queue == [] then Ran(s, [], []) else
      var before := FoldHandlers(s, id, queue[..|queue| - 1], env);
      var req := queue[|queue| - 1];
      assert Queueable(req);
      var last := RunHandler(before.server, id, Lookup(req.command).value, req.args, env);
      Ran(last.server, before.events + last.events, before.replies + [last.reply])
  }

  lemma {:induction false} RunQueueIsFold(s: Server, id: int, queue: seq<Request>, env: Env)
    requires id in s.clients && s.clients[id].mode != Transaction
    requires forall i :: 0 <= i < |queue| ==> Queueable(queue[i])
    ensures RunQueue(s, id, queue, env) == FoldHandlers(s, id, queue, env)
    ensures RunQueue(s, id, queue, env).server.clients[id].mode != Transaction
  {
    if queue != [] {
      var before := RunQueue(s, id, queue[..|queue| - 1], env);
      RunQueueIsFold(s, id, queue[..|queue| - 1], env);
      RunsAtOnce(before.server, id, queue[|queue| - 1], env);
    }
  }

  lemma {:induction false} RunQueueQueues(s: Server, id: int, queue: seq<Request>, env: Env)
    requires QueuesOk(s) && id in s.clients
    ensures QueuesOk(RunQueue(s, id, queue, env).server)
  {
    if queue != [] {
      var before := RunQueue(s, id, queue[..|queue| - 1], env);
      RunQueueQueues(s, id, queue[..|queue| - 1], env);
      ExecuteQueues(before.server, id, queue[|queue| - 1], env);
    }
  }

  lemma StepQueues(s: Server, l: Label)
    requires QueuesOk(s) && Enabled(s, l)
    ensures QueuesOk(Step(s, l).server)
  {
    if l.Command? {
      ExecuteQueues(s, l.id, l.req, l.env);
      assert QueuesOk(Reset(s, l.id));
      RunQueueQueues(Reset(s, l.id), l.id, s.clients[l.id].queue, l.env);
    }
  }

  lemma {:induction false} ReachableQueuesOk(data: Data, ls: seq<Label>)
    ensures QueuesOk(Run(Start(data), ls).server)
  {
    if ls != [] {
      var before := Run(Start(data), ls[..|ls| - 1]);
      ReachableQueuesOk(data, ls[..|ls| - 1]);
      if Enabled(before.server, ls[|ls| - 1]) {
        StepQueues(before.server, ls[|ls| - 1]);
      }
    }
  }

  /** Nobody is in a transaction. */
  ghost predicate NoTransactions(s: Server) {
    forall id :: id in s.clients ==> s.clients[id].mode != Transaction
  }

  /** In every reachable state, a client outside a transaction has no queue, and no queue holds MULTI,
      EXEC, DISCARD or WATCH, nor a request that would fail on its name or its arity. */
  lemma ReachableQueues(data: Data, ls: seq<Label>)
    ensures var s := Run(Start(data), ls).server;
            && QueuesOk(s)
            && forall id, i :: id in s.clients && 0 <= i < |s.clients[id].queue| ==>
              s.clients[id].queue[i].command !in {"multi", "exec", "discard", "watch"}
  {
    ReachableQueuesOk(data, ls);
    var s := Run(Start(data), ls).server;
    forall id, i | id in s.clients && 0 <= i < |s.clients[id].queue|
      ensures s.clients[id].queue[i].command !in {"multi", "exec", "discard", "watch"}
    {
      assert ClientQueueOk(s.clients[id]);
      ExecIsNotQueueable(s.clients[id].queue[i]);
    }
  }

  /** In every reachable state, an EXEC that does not abort is the in-order fold of its queue over
      the handlers, one reply for each command; none of them is queued again. */
  lemma ExecIsFold(data: Data, ls: seq<Label>, id: int, env: Env)
    requires var s := Run(Start(data), ls).server; id in s.clients && !s.clients[id].dirty
    ensures var s := Run(Start(data), ls).server;
            && (forall i :: 0 <= i < |s.clients[id].queue| ==> Queueable(s.clients[id].queue[i]))
            && Exec(s, id, env) == Executed(FoldHandlers(Reset(s, id), id, s.clients[id].queue, env))
  {
    ReachableQueuesOk(data, ls);
    var s := Run(Start(data), ls).server;
    assert ClientQueueOk(s.clients[id]);
    RunQueueIsFold(Reset(s, id), id, s.clients[id].queue, env);
  }

  // ---------------------------------------------------------------------------------------
  // Watched keys keep their entries
  // ---------------------------------------------------------------------------------------

  /** The key holds what it held, or had an entry that had expired by `now` and is gone. */
  predicate Kept(data: Data, data': Data, key: string, now: int) {
    SameAt(data, data', key) || (key in data && Expired(data[key], now) && key !in data')
  }

  lemma KeptTransitive(a: Data, b: Data, c: Data, key: string, now: int)
    requires Kept(a, b, key, now) && Kept(b, c, key, now)
    ensures Kept(a, c, key, now)
  {
  }

  /** Client `id` watches `key` and is not dirty. */
  predicate Clean(s: Server, id: int, key: string) {
    id in s.clients && key in s.clients[id].watched && !s.clients[id].dirty
  }

  /** A store command that leaves the watcher of a key clean leaves the key's entry. */
  lemma RunOnStoreKept(s: Server, c: Cmd, args: seq<string>, env: Env, id: int, key: string, r: Answered)
    requires IndexOk(s) && id in s.clients && key in s.clients[id].watched && ArityOk(c, |args|)
    requires r == RunOnStore(s, c, args, env) && !r.server.clients[id].dirty
    ensures Kept(s.data, r.server.data, key, env.now)
  {
    if Handle(c, args, env, s.data).Done? {
      if IsWrite(c) {
        assert id in WatchersOf(s.watchers, key);
        assert args[0] != key;
        WriteFrame(c, args, env, s.data, key);
      } else {
        ReadFrame(c, args, env, s.data, key);
      }
    }
  }

  /** What a handler does to the watches of a client: those of others it leaves, and a dirty flag it
      clears only together with the watches. */
  ghost predicate WatchesAfter(mine: bool, before: Client, after: Client) {
    && (!mine ==> after.watched == before.watched)
    && (before.dirty ==> after.dirty || (mine && after.watched == {}))
  }

  lemma RunSessionWatches(s: Server, who: int, c: Cmd, args: seq<string>, env: Env, id: int, r: Answered)
    requires who in s.clients && id in s.clients && ArityOk(c, |args|) && OnSession(c)
    requires r == RunHandler(s, who, c, args, env)
    ensures WatchesAfter(who == id, s.clients[id], r.server.clients[id])
    ensures r.server.data == s.data
  {
    match c {
      case WATCH => WatchKeysModes(s, who, args, id);
      case _ =>
    }
  }

  lemma RunHandlerWatches(s: Server, who: int, c: Cmd, args: seq<string>, env: Env, id: int, r: Answered)
    requires who in s.clients && id in s.clients && ArityOk(c, |args|) && r == RunHandler(s, who, c, args, env)
    ensures WatchesAfter(who == id, s.clients[id], r.server.clients[id])
  {
    if OnSession(c) {
      RunSessionWatches(s, who, c, args, env, id, r);
    } else {
      RunOnStoreClients(s, c, args, env, id, r);
    }
  }

  lemma RunHandlerKept(s: Server, who: int, c: Cmd, args: seq<string>, env: Env, id: int, key: string, r: Answered)
    requires IndexOk(s) && who in s.clients && id in s.clients && key in s.clients[id].watched && ArityOk(c, |args|)
    requires r == RunHandler(s, who, c, args, env) && !r.server.clients[id].dirty
    ensures Kept(s.data, r.server.data, key, env.now)
  {
    if OnSession(c) {
      RunSessionWatches(s, who, c, args, env, id, r);
    } else {
      RunOnStoreKept(s, c, args, env, id, key, r);
    }
  }

  lemma ExecuteKept(s: Server, who: int, req: Request, env: Env, id: int, key: string, r: Answered)
    requires IndexOk(s) && who in s.clients && id in s.clients && key in s.clients[id].watched
    requires r == Execute(s, who, req, env) && !r.server.clients[id].dirty
    ensures Kept(s.data, r.server.data, key, env.now)
  {
    var entry := Lookup(req.command);
    if entry.Some? && ArityOk(entry.value, |req.args|) &&
       !(!Transactional(entry.value) && s.clients[who].mode == Transaction) {
      RunHandlerKept(s, who, entry.value, req.args, env, id, key, r);
    }
  }

  lemma ExecuteWatches(s: Server, who: int, req: Request, env: Env, id: int, r: Answered)
    requires who in s.clients && id in s.clients && r == Execute(s, who, req, env)
    ensures WatchesAfter(who == id, s.clients[id], r.server.clients[id])
  {
    var entry := Lookup(req.command);
    if entry.Some? && ArityOk(entry.value, |req.args|) &&
       !(!Transactional(entry.value) && s.clients[who].mode == Transaction) {
      RunHandlerWatches(s, who, entry.value, req.args, env, id, r);
    }
  }

  lemma {:induction false} QueueByOther(s: Server, who: int, queue: seq<Request>, env: Env, id: int)
    requires who in s.clients && id in s.clients && who != id
    ensures var t := RunQueue(s, who, queue, env).server;
            && id in t.clients && t.clients[id].watched == s.clients[id].watched
            && (s.clients[id].dirty ==> t.clients[id].dirty)
  {
    if queue != [] {
      var before := RunQueue(s, who, queue[..|queue| - 1], env).server;
      QueueByOther(s, who, queue[..|queue| - 1], env, id);
      ExecuteWatches(before, who, queue[|queue| - 1], env, id, Execute(before, who, queue[|queue| - 1], env));
    }
  }

  lemma {:induction false} QueueKept(s: Server, who: int, queue: seq<Request>, env: Env, id: int, key: string, ev: seq<Event>)
    requires Inv(s, ev) && who in s.clients && who != id && id in s.clients && key in s.clients[id].watched
    requires id in RunQueue(s, who, queue, env).server.clients && !RunQueue(s, who, queue, env).server.clients[id].dirty
    ensures Kept(s.data, RunQueue(s, who, queue, env).server.data, key, env.now)
  {
    if queue != [] {
      var b := RunQueue(s, who, queue[..|queue| - 1], env);
      var req := queue[|queue| - 1];
      var last := Execute(b.server, who, req, env);
      QueueByOther(s, who, queue[..|queue| - 1], env, id);
      ExecuteWatches(b.server, who, req, env, id, last);
      QueueKept(s, who, queue[..|queue| - 1], env, id, key, ev);
      RunQueueInv(s, who, queue[..|queue| - 1], env, ev);
      ExecuteKept(b.server, who, req, env, id, key, last);
      KeptTransitive(s.data, b.server.data, last.server.data, key, env.now);
    }
  }

  lemma ExecKept(s: Server, who: int, env: Env, id: int, key: string, ev: seq<Event>, t: Server)
    requires Inv(s, ev) && who in s.clients && id in s.clients && key in s.clients[id].watched && who != id
    requires t == match Exec(s, who, env) case Aborted(u) => u case Executed(ran) => ran.server
    requires id in t.clients && !t.clients[id].dirty
    ensures Kept(s.data, t.data, key, env.now)
  {
    var u := Reset(s, who);
    ResetInv(s, who, ev);
    if !s.clients[who].dirty {
      QueueKept(u, who, s.clients[who].queue, env, id, key, ev + [Cleared(who)]);
    }
  }

  lemma ExecWatches(s: Server, who: int, env: Env, id: int, t: Server)
    requires who in s.clients && id in s.clients && who != id
    requires t == match Exec(s, who, env) case Aborted(u) => u case Executed(ran) => ran.server
    ensures id in t.clients && t.clients[id].watched == s.clients[id].watched
    ensures s.clients[id].dirty ==> t.clients[id].dirty
  {
    if !s.clients[who].dirty {
      QueueByOther(Reset(s, who), who, s.clients[who].queue, env, id);
    }
  }

  /** After its own EXEC a client watches nothing: no command that could watch is ever queued. */
  lemma {:induction false} OwnQueueWatchesNothing(s: Server, id: int, queue: seq<Request>, env: Env)
    requires id in s.clients && s.clients[id].watched == {} && s.clients[id].mode != Transaction
    requires forall i :: 0 <= i < |queue| ==> Queueable(queue[i])
    ensures RunQueue(s, id, queue, env).server.clients[id].watched == {}
  {
    if queue != [] {
      var b := RunQueue(s, id, queue[..|queue| - 1], env);
      var req := queue[|queue| - 1];
      OwnQueueWatchesNothing(s, id, queue[..|queue| - 1], env);
      RunQueueIsFold(s, id, queue[..|queue| - 1], env);
      RunsAtOnce(b.server, id, req, env);
      QueuedWatchesNothing(b.server, id, Lookup(req.command).value, req.args, env, Execute(b.server, id, req, env));
    }
  }

  lemma QueuedWatchesNothing(s: Server, id: int, c: Cmd, args: seq<string>, env: Env, r: Answered)
    requires id in s.clients && s.clients[id].watched == {} && ArityOk(c, |args|) && c != WATCH
    requires r == RunHandler(s, id, c, args, env)
    ensures r.server.clients[id].watched == {}
  {
    if !OnSession(c) {
      RunOnStoreClients(s, c, args, env, id, r);
    }
  }

  /** The label is by someone whose EXEC would end the watches of `id`: itself. */
  lemma OwnExecClears(s: Server, id: int, env: Env, t: Server)
    requires QueuesOk(s) && id in s.clients
    requires t == match Exec(s, id, env) case Aborted(u) => u case Executed(ran) => ran.server
    ensures id in t.clients && t.clients[id].watched == {}
  {
    if !s.clients[id].dirty {
      assert ClientQueueOk(s.clients[id]);
      OwnQueueWatchesNothing(Reset(s, id), id, s.clients[id].queue, env);
    }
  }

  predicate Before(l: Label, now: int) { l.Command? ==> l.env.now <= now }

  lemma KeptLater(a: Data, b: Data, key: string, now: int, later: int)
    requires Kept(a, b, key, now) && now <= later
    ensures Kept(a, b, key, later)
  {
  }

  /** One step that leaves a watch in place: if the client is clean after it, it was clean before,
      and the watched key kept its entry. */
  lemma StepKept(s: Server, l: Label, id: int, key: string, ev: seq<Event>, now: int)
    requires Inv(s, ev) && QueuesOk(s) && Enabled(s, l) && Before(l, now)
    requires id in s.clients && key in s.clients[id].watched && Clean(Step(s, l).server, id, key)
    ensures Clean(s, id, key) && Kept(s.data, Step(s, l).server.data, key, now)
  {
    if l.Command? && !(s.clients[l.id].mode == Subscribed && !SubscribedMayRun(l.req.command)) {
      var t := Step(s, l).server;
      if l.req.command == "exec" {
        if s.clients[l.id].mode == Transaction {
          if l.id == id {
            OwnExecClears(s, id, l.env, t);
          } else {
            ExecWatches(s, l.id, l.env, id, t);
            ExecKept(s, l.id, l.env, id, key, ev, t);
            KeptLater(s.data, t.data, key, l.env.now, now);
          }
        }
      } else {
        var a := Execute(s, l.id, l.req, l.env);
        ExecuteWatches(s, l.id, l.req, l.env, id, a);
        ExecuteKept(s, l.id, l.req, l.env, id, key, a);
        KeptLater(s.data, t.data, key, l.env.now, now);
      }
    }
  }

  /** The state after the first `n` labels. */
  function At(data: Data, ls: seq<Label>, n: nat): Server
    requires n <= |ls|
  {
    Run(Start(data), ls[..n]).server
  }

  /** While a key stays watched and its watcher clean, the key keeps the entry it had: from the
      moment `m` it was watched to any later moment `n`, up to the expiry of that entry. */
  lemma {:induction false} WatchedKeysKeepTheirEntries(data: Data, ls: seq<Label>, m: nat, n: nat, id: int, key: string, now: int)
    requires m <= n <= |ls|
    requires forall p :: m <= p <= n ==> id in At(data, ls, p).clients && key in At(data, ls, p).clients[id].watched
    requires forall p :: m <= p < n ==> Before(ls[p], now)
    requires !At(data, ls, n).clients[id].dirty
    ensures Kept(At(data, ls, m).data, At(data, ls, n).data, key, now)
    decreases n
  {
    if m < n {
      var s := At(data, ls, n - 1);
      ReachableInv(data, ls[..n - 1]);
      ReachableQueuesOk(data, ls[..n - 1]);
      assert ls[..n][..n - 1] == ls[..n - 1] && ls[..n][n - 1] == ls[n - 1];
      if Enabled(s, ls[n - 1]) {
        assert At(data, ls, n) == Step(s, ls[n - 1]).server;
        StepKept(s, ls[n - 1], id, key, Run(Start(data), ls[..n - 1]).events, now);
      }
      WatchedKeysKeepTheirEntries(data, ls, m, n - 1, id, key, now);
      KeptTransitive(At(data, ls, m).data, s.data, At(data, ls, n).data, key, now);
    }
  }
}
