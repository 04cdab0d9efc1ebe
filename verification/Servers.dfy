/** The server's session state as objects: clients, the watcher index and EXEC, updated in place,
    against the functions of `Transactions`. */
module Servers {
  import opened Text
  import opened Keyspace
  import opened Commands
  import T = Transactions
  import opened Isolation

  /** The part of a connection that transactions use. */
  class Session {
    var mode: T.Mode
    var queue: seq<Request>
    var watched: set<string>
    var dirty: bool

    constructor ()
      ensures View() == T.NEW_CLIENT
    {
      mode, queue, watched, dirty := T.Normal, [], {}, false;
    }

    ghost function View(): T.Client
      reads this
    {
      T.Client(mode, queue, watched, dirty)
    }
  }

  /** One key of `UnwatchAll`. */
  lemma WithoutOneMore(watchers: map<string, seq<int>>, id: int, done: set<string>, key: string)
    requires key !in done
    ensures var now := T.WatchersWithout(watchers, id, done);
            var next := T.WatchersWithout(watchers, id, done + {key});
            && (key in now <==> key in watchers) && (key in now ==> now[key] == watchers[key])
            && (key !in now || id !in now[key] ==> next == now)
            && (key in now && id in now[key] ==>
                  next == if T.Without(now[key], id) == [] then now - {key}
                          else now[key := T.Without(now[key], id)])
  {
    if key in watchers && id !in watchers[key] {
      WithoutAbsent(watchers[key], id);
    }
  }

  lemma {:induction false} WithoutAbsent(ids: seq<int>, id: int)
    requires id !in ids
    ensures T.Without(ids, id) == ids
  {
    if ids != [] {
      WithoutAbsent(ids[1..], id);
    }
  }

  /** What a replica answers while it loads opens no transaction. */
  predicate Allowed(req: Request) {
    var entry := Lookup(req.command);
    entry.Some? && ArityOk(entry.value, |req.args|) ==> entry.value in {INFO, CONFIG, ECHO, PING}
  }

  lemma AllowedOpensNothing(s: T.Server, id: int, req: Request, env: Env, t: T.Server)
    requires id in s.clients && NoTransactions(s) && Allowed(req) && t == T.Execute(s, id, req, env).server
    ensures NoTransactions(t)
  {
    var entry := Lookup(req.command);
    if entry.Some? && ArityOk(entry.value, |req.args|) {
      forall i | i in t.clients
        ensures t.clients[i].mode != T.Transaction
      {
        RunHandlerModes(s, id, entry.value, req.args, env, i, T.Execute(s, id, req, env));
      }
    }
  }

  lemma ExecIsNoHandler(req: Request)
    requires req.command == "exec"
    ensures Allowed(req)
  {
  }

  /** The three ways a request goes. */
  lemma StepCases(s: T.Server, id: int, req: Request, env: Env)
    requires id in s.clients
    ensures var t, a := T.Step(s, T.Command(id, req, env)).server, T.Respond(s, id, req, env);
            if s.clients[id].mode == T.Subscribed && !T.SubscribedMayRun(req.command) then t == s && a == T.Single(None)
            else if req.command == "exec" then
              if s.clients[id].mode != T.Transaction then t == s && a == T.Single(None)
              else match T.Exec(s, id, env)
                case Aborted(u) => t == u && a == T.Single(Some(NullArray))
                case Executed(ran) => t == ran.server && a == T.Many(ran.replies)
            else
              var r := T.Execute(s, id, req, env);
              t == T.Logged(r.server, req) && a == T.Single(r.reply)
  {
  }

  class Server {
    var clients: map<int, Session>
    var watcherClients: map<string, seq<int>>
    var nextId: int
    var data: Data
    var log: seq<seq<string>>
    var ready: bool

    /** No two ids share a session. */
    ghost predicate Valid()
      reads `clients
    {
      forall i, j :: i in clients && j in clients && clients[i] == clients[j] ==> i == j
    }

    ghost function Views(): map<int, T.Client>
      reads `clients, clients.Values
    {
      map id | id in clients :: clients[id].View()
    }

    ghost function Abs(): T.Server
      reads this, clients.Values
    {
      T.Server(Views(), watcherClients, nextId, data, log)
    }

    /** A master is ready at once; a replica is not before it has its snapshot. */
    constructor (data: Data, ready: bool)
      ensures Valid() && Abs() == T.Start(data) && this.ready == ready
    {
      clients, watcherClients, nextId, log := map[], map[], 1, [];
      this.data, this.ready := data, ready;
    }

    /** A replica that is still loading refuses a known command with the right number of arguments,
        unless it is one of four. */
    predicate Refuses(req: Request)
      reads `ready
    {
      !ready && !Allowed(req)
    }

    /** While it loads nobody is in a transaction, MULTI being refused. */
    ghost predicate NoneOpen()
      reads this, clients.Values
    {
      !ready ==> NoTransactions(Abs())
    }

    /** One client changed. */
    twostate lemma OneChanged(id: int)
      requires Valid() && clients == old(clients) && id in clients
      requires forall i :: i in clients && i != id ==> unchanged(clients[i])
      ensures Views() == old(Views())[id := clients[id].View()]
    {
      forall i | i in clients && i != id
        ensures Views()[i] == old(Views())[i]
      {
        assert unchanged(clients[i]);
      }
    }

    /** The loop of `UnwatchAll`: the keys are visited in any order. */
    method LeaveLists(id: int, watched: set<string>)
      modifies `watcherClients
      ensures watcherClients == T.WatchersWithout(old(watcherClients), id, watched)
    {
      var keys, done: set<string> := watched, {};
      assert T.WatchersWithout(watcherClients, id, {}) == watcherClients;
      while keys != {}
        invariant keys !! done && keys + done == watched
        invariant watcherClients == T.WatchersWithout(old(watcherClients), id, done)
      {
        var key :| key in keys;
        WithoutOneMore(old(watcherClients), id, done, key);
        if key in watcherClients && id in watcherClients[key] {
          var rest := T.Without(watcherClients[key], id);
          watcherClients := if rest == [] then watcherClients - {key} else watcherClients[key := rest];
        }
        keys, done := keys - {key}, done + {key};
      }
      assert done == watched;
    }

    /** `UnwatchAll`. */
    method UnwatchAll(id: int)
      requires Valid() && id in clients
      modifies `watcherClients, clients[id]
      ensures Abs() == T.Unwatch(old(Abs()), id)
    {
      LeaveLists(id, clients[id].watched);
      clients[id].watched := {};
      clients[id].dirty := false;
      OneChanged(id);
    }

    /** `Server.ResetTransactionState`. */
    method ResetTransactionState(id: int)
      requires Valid() && id in clients
      modifies `watcherClients, clients[id]
      ensures Abs() == T.Reset(old(Abs()), id)
    {
      UnwatchAll(id);
      clients[id].queue := [];
      clients[id].mode := T.Normal;
      OneChanged(id);
    }

    /** WATCH outside a transaction. */
    method Watch(id: int, keys: seq<string>)
      requires Valid() && id in clients
      modifies `watcherClients, clients[id]
      ensures Abs() == T.WatchKeys(old(Abs()), id, keys)
    {
      for i := 0 to |keys|
        invariant Abs() == T.WatchKeys(old(Abs()), id, keys[..i])
      {
        assert keys[..i + 1][..i] == keys[..i];
        WatchOne(id, keys[i]);
      }
      assert keys[..|keys|] == keys;
    }

    method WatchOne(id: int, key: string)
      requires Valid() && id in clients
      modifies `watcherClients, clients[id]
      ensures Abs() == T.WatchKey(old(Abs()), id, key)
    {
      clients[id].watched := clients[id].watched + {key};
      var ids := T.WatchersOf(watcherClients, key);
      if id !in ids {
        ids := ids + [id];
      }
      watcherClients := watcherClients[key := ids];
      OneChanged(id);
    }

    /** The live clients on the watcher list of a key. */
    method LiveWatchers(key: string) returns (watchers: seq<Session>)
      requires Valid()
      ensures forall w :: w in watchers ==> w in clients.Values
      ensures forall id :: id in clients ==> (clients[id] in watchers <==> id in T.WatchersOf(watcherClients, key))
    {
      watchers := [];
      var ids := T.WatchersOf(watcherClients, key);
      for i := 0 to |ids|
        invariant forall w :: w in watchers ==> w in clients.Values
        invariant forall id :: id in clients ==> (clients[id] in watchers <==> id in ids[..i])
      {
        assert ids[..i + 1] == ids[..i] + [ids[i]];
        if ids[i] in clients {
          var w := clients[ids[i]];
          assert forall id :: id in clients ==> (clients[id] == w <==> id == ids[i]);
          watchers := watchers + [w];
        }
      }
      assert ids[..|ids|] == ids;
    }

    /** What follows a successful write in `Execute`. */
    method MarkDirty(key: string)
      requires Valid()
      modifies clients.Values
      ensures Abs() == T.MarkDirty(old(Abs()), key)
    {
      var watchers := LiveWatchers(key);
      for i := 0 to |watchers|
        invariant forall id :: id in clients ==>
          clients[id].View() == old(clients[id].View()).(dirty := clients[id] in watchers[..i] || old(clients[id].dirty))
      {
        watchers[i].dirty := true;
      }
      assert watchers[..|watchers|] == watchers;
      ghost var marked := T.MarkDirty(old(Abs()), key).clients;
      forall id | id in clients
        ensures Views()[id] == marked[id]
      {
        assert clients[id] in watchers <==> id in T.WatchersOf(watcherClients, key);
      }
      assert Views() == marked;
    }

    /** The part of `Execute` after queueing, for the commands that work on sessions. */
    method RunSession(id: int, c: Cmd, args: seq<string>, env: Env) returns (reply: Option<Reply>)
      requires Valid() && id in clients && ArityOk(c, |args|) && T.OnSession(c)
      modifies `watcherClients, clients[id]
      ensures var r := T.RunHandler(old(Abs()), id, c, args, env); Abs() == r.server && reply == r.reply
    {
      var client := clients[id];
      reply := Some(Status("OK"));
      match c {
        case WATCH =>
          if client.mode == T.Transaction {
            return None;
          }
          Watch(id, args);
        case UNWATCH =>
          UnwatchAll(id);
        case MULTI =>
          if client.mode == T.Transaction {
            return None;
          }
          client.mode := T.Transaction;
          OneChanged(id);
        case DISCARD =>
          if client.mode != T.Transaction {
            return None;
          }
          ResetTransactionState(id);
        case SUBSCRIBE =>
          reply := Some(Array(["subscribe", args[0]]));
          client.mode := T.Subscribed;
          OneChanged(id);
      }
    }

    method RunOnStore(c: Cmd, args: seq<string>, env: Env) returns (reply: Option<Reply>)
      requires Valid() && ArityOk(c, |args|)
      modifies `data, clients.Values
      ensures var r := T.RunOnStore(old(Abs()), c, args, env); Abs() == r.server && reply == r.reply
    {
      var outcome := Handle(c, args, env, data);
      if outcome.Failed? {
        return None;
      }
      reply := Some(outcome.reply);
      if IsWrite(c) {
        Write(args[0], outcome.data);
      } else {
        data := outcome.data;
      }
    }

    method Write(key: string, d: Data)
      requires Valid()
      modifies `data, clients.Values
      ensures Abs() == T.MarkDirty(old(Abs()).(data := d), key)
    {
      data := d;
      MarkDirty(key);
    }

    method Enqueue(id: int, req: Request)
      requires Valid() && id in clients
      modifies clients[id]
      ensures var s, c := old(Abs()), old(clients[id].View());
              Abs() == s.(clients := s.clients[id := c.(queue := c.queue + [req])])
    {
      clients[id].queue := clients[id].queue + [req];
      OneChanged(id);
    }

    /** `Execute`. */
    method Execute(id: int, req: Request, env: Env) returns (reply: Option<Reply>)
      requires Valid() && id in clients
      modifies `data, `watcherClients, clients.Values
      ensures Refuses(req) ==> Abs() == old(Abs()) && reply == None
      ensures !Refuses(req) ==>
        var r := T.Execute(old(Abs()), id, req, env); Abs() == r.server && reply == r.reply
    {
      var entry := Lookup(req.command);
      if entry == None || !ArityOk(entry.value, |req.args|) || Refuses(req) {
        return None;
      }
      if !Transactional(entry.value) && clients[id].mode == T.Transaction {
        Enqueue(id, req);
        return Some(Status("QUEUED"));
      }
      if T.OnSession(entry.value) {
        reply := RunSession(id, entry.value, req.args, env);
      } else {
        reply := RunOnStore(entry.value, req.args, env);
      }
    }

    /** EXEC of a client in a transaction: None when it aborts, else one reply for each command. */
    method Exec(id: int, env: Env) returns (replies: Option<seq<Option<Reply>>>)
      requires Valid() && id in clients && ready
      modifies `data, `watcherClients, clients.Values
      ensures match T.Exec(old(Abs()), id, env)
              case Aborted(t) => replies == None && Abs() == t
              case Executed(ran) => replies == Some(ran.replies) && Abs() == ran.server
    {
      if clients[id].dirty {
        ResetTransactionState(id);
        return None;
      }
      var queue := clients[id].queue;
      ResetTransactionState(id);
      var answers := RunQueue(id, queue, env);
      replies := Some(answers);
    }

    method RunQueue(id: int, queue: seq<Request>, env: Env) returns (replies: seq<Option<Reply>>)
      requires Valid() && id in clients && ready
      modifies `data, `watcherClients, clients.Values
      ensures var r := T.RunQueue(old(Abs()), id, queue, env); Abs() == r.server && replies == r.replies
    {
      replies := [];
      for i := 0 to |queue|
        invariant var r := T.RunQueue(old(Abs()), id, queue[..i], env); Abs() == r.server && replies == r.replies
      {
        assert queue[..i + 1][..i] == queue[..i];
        var reply := Execute(id, queue[i], env);
        replies := replies + [reply];
      }
      assert queue[..|queue|] == queue;
    }

    /** One request of `HandleConnection`: the new state, and what is written back. A refused write is
        logged like any other. */
    method HandleRequest(id: int, req: Request, env: Env) returns (response: T.Response)
      requires Valid() && id in clients && NoneOpen()
      modifies `data, `watcherClients, `log, clients.Values
      ensures NoneOpen()
      ensures var s := old(Abs());
              if Refuses(req) && (s.clients[id].mode == T.Subscribed ==> T.SubscribedMayRun(req.command))
              then Abs() == T.Logged(s, req) && response == T.Single(None)
              else Abs() == T.Step(s, T.Command(id, req, env)).server && response == T.Respond(s, id, req, env)
    {
      StepCases(Abs(), id, req, env);
      if clients[id].mode == T.Subscribed && !T.SubscribedMayRun(req.command) {
        response := T.Single(None);
      } else if req.command == "exec" {
        ExecIsNoHandler(req);
        response := ExecRequest(id, env);
      } else {
        response := ExecuteAndLog(id, req, env);
      }
    }

    method ExecRequest(id: int, env: Env) returns (response: T.Response)
      requires Valid() && id in clients && NoneOpen()
      modifies `data, `watcherClients, clients.Values
      ensures NoneOpen()
      ensures var s := old(Abs());
              if s.clients[id].mode != T.Transaction then Abs() == s && response == T.Single(None)
              else match T.Exec(s, id, env)
                case Aborted(t) => Abs() == t && response == T.Single(Some(NullArray))
                case Executed(ran) => Abs() == ran.server && response == T.Many(ran.replies)
    {
      assert Abs().clients[id].mode == clients[id].mode;
      if clients[id].mode != T.Transaction {
        return T.Single(None);
      }
      var replies := Exec(id, env);
      return if replies == None then T.Single(Some(NullArray)) else T.Many(replies.value);
    }

    /** A request that is given to `Execute`. */
    method ExecuteAndLog(id: int, req: Request, env: Env) returns (response: T.Response)
      requires Valid() && id in clients && NoneOpen()
      modifies `data, `watcherClients, `log, clients.Values
      ensures NoneOpen()
      ensures var s := old(Abs());
              if Refuses(req) then Abs() == T.Logged(s, req) && response == T.Single(None)
              else
                var r := T.Execute(s, id, req, env);
                Abs() == T.Logged(r.server, req) && response == T.Single(r.reply)
    {
      ghost var s := Abs();
      var reply := Execute(id, req, env);
      if !ready && Allowed(req) {
        AllowedOpensNothing(s, id, req, env, Abs());
      }
      AppendToLog(req);
      response := T.Single(reply);
    }

    method AppendToLog(req: Request)
      modifies `log
      ensures Abs() == T.Logged(old(Abs()), req)
    {
      if Lookup(req.command).Some? && IsWrite(Lookup(req.command).value) {
        log := log + [[ToUpper(req.command)] + req.args];
      }
    }

    /** `AddClient`. */
    method AddClient() returns (id: int)
      requires Valid() && NoneOpen()
      modifies `clients, `nextId
      ensures NoneOpen() && Valid() && id == old(nextId) && id in clients && fresh(clients[id])
      ensures Abs() == T.Step(old(Abs()), T.Connect).server
    {
      id := nextId;
      var client := new Session();
      ghost var before := Views();
      clients := clients[id := client];
      nextId := nextId + 1;
      assert Views() == before[id := T.NEW_CLIENT];
    }

    /** `CloseConnection`. */
    method CloseConnection(id: int)
      requires Valid() && NoneOpen()
      modifies `clients
      ensures Valid() && NoneOpen() && Abs() == T.Step(old(Abs()), T.Close(id)).server
    {
      ghost var before := Views();
      clients := clients - {id};
      assert Views() == before - {id};
      assert forall i :: i in Views() ==> Views()[i] == before[i];
    }
  }
}
