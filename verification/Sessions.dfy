/** What a client's mode does to its requests, by the names of the commands: inside a transaction, while
    subscribed, and on a replica that is still loading. */
module Sessions {
  import opened Text
  import opened Keyspace
  import opened Commands
  import opened Transactions
  import opened Table
  import Servers

  /** The table has a row for the name and the number of arguments. */
  ghost predicate HasRow(req: Request) {
    exists c :: RowOf(c).name == req.command && RowOf(c).min <= |req.args|
                && (RowOf(c).max.Some? ==> |req.args| <= RowOf(c).max.value)
  }

  lemma RowDecides(req: Request)
    ensures HasRow(req) <==> Lookup(req.command).Some? && ArityOk(Lookup(req.command).value, |req.args|)
  {
    AcceptedByRow(req.command, |req.args|);
  }

  /** Inside a transaction every request that has a row of the table is queued at the end and answered QUEUED,
      and nothing else changes, except for MULTI and WATCH, which fail, and DISCARD, which ends it. */
  lemma QueuedInside(s: Server, id: int, req: Request, env: Env)
    requires id in s.clients && s.clients[id].mode == Transaction
    ensures var r, c := Execute(s, id, req, env), s.clients[id];
            if !HasRow(req) || req.command == "multi" || req.command == "watch" then r.server == s && r.reply == None
            else if req.command == "discard" then
              && r.reply == Some(Status("OK"))
              && id in r.server.clients && r.server.clients[id] == Client(Normal, [], {}, false)
            else && r.reply == Some(Status("QUEUED"))
                 && r.server == s.(clients := s.clients[id := c.(queue := c.queue + [req])])
  {
    RowDecides(req);
    var c := Lookup(req.command);
    if c.Some? {
      SessionByName(req.command, c.value);
    }
  }

  /** MULTI outside a transaction opens one for that client and does nothing else, and DISCARD outside one
      fails. */
  lemma MultiOpens(s: Server, id: int, args: seq<string>, env: Env)
    requires id in s.clients && s.clients[id].mode != Transaction
    ensures var r := Execute(s, id, Request("multi", args), env);
            if args != [] then r.server == s && r.reply == None
            else && r.reply == Some(Status("OK"))
                 && r.server == s.(clients := s.clients[id := s.clients[id].(mode := Transaction)])
    ensures var r := Execute(s, id, Request("discard", args), env); r.server == s && r.reply == None
  {
    SessionNames();
  }

  /** WATCH and UNWATCH outside a transaction are answered OK, or fail on their number of arguments. */
  lemma WatchAnswers(s: Server, id: int, args: seq<string>, env: Env)
    requires id in s.clients && s.clients[id].mode != Transaction
    ensures Execute(s, id, Request("watch", args), env).reply == if args == [] then None else Some(Status("OK"))
    ensures Execute(s, id, Request("unwatch", args), env).reply == if args == [] then Some(Status("OK")) else None
  {
    SessionNames();
  }

  const WHILE_SUBSCRIBED := {"subscribe", "unsubscribe", "psubscribe", "punsubscribe", "ping", "quit"}

  /** A subscribed client gets an error for every other request, and nothing happens; it does not reach the log. */
  lemma SubscribedRefuses(s: Server, id: int, req: Request, env: Env)
    requires id in s.clients && s.clients[id].mode == Subscribed && req.command !in WHILE_SUBSCRIBED
    ensures Step(s, Command(id, req, env)) == Stepped(s, []) && Respond(s, id, req, env) == Single(None)
  {
  }

  /** Those requests it may make go through to `Execute`. */
  lemma SubscribedMay(s: Server, id: int, req: Request, env: Env)
    requires id in s.clients && s.clients[id].mode == Subscribed && req.command in WHILE_SUBSCRIBED
    ensures Respond(s, id, req, env) == Single(Execute(s, id, req, env).reply)
  {
    NotExec(req.command);
  }

  lemma NotExec(name: string)
    requires name in WHILE_SUBSCRIBED
    ensures name != "exec"
  {
  }

  lemma LoadingNames(name: string, c: Cmd)
    requires Has(name, c)
    ensures c in {INFO, CONFIG, ECHO, PING} <==> name in {"info", "config", "echo", "ping"}
  {
    NameDecides(name, c);
    NodeNames();
    ConnectionNames();
  }

  /** A replica that is still loading lets through only INFO, CONFIG, ECHO and PING, and what would fail anyhow. */
  lemma LoadingAllows(req: Request)
    ensures Servers.Allowed(req) <==> !HasRow(req) || req.command in {"info", "config", "echo", "ping"}
  {
    RowDecides(req);
    var c := Lookup(req.command);
    if c.Some? {
      LoadingNames(req.command, c.value);
    }
  }

  lemma CapitalStrings()
    ensures ToUpper("set") == "SET" && ToUpper("incr") == "INCR"
  {
  }

  lemma CapitalLists()
    ensures ToUpper("rpush") == "RPUSH" && ToUpper("lpush") == "LPUSH"
    ensures ToUpper("lpop") == "LPOP" && ToUpper("blpop") == "BLPOP"
  {
  }

  lemma CapitalSets()
    ensures ToUpper("zadd") == "ZADD" && ToUpper("zrem") == "ZREM" && ToUpper("geoadd") == "GEOADD"
  {
  }

  /** Exactly the requests of the nine writes are logged, under their names in capitals, before their arguments. */
  lemma LoggedAs(s: Server, req: Request)
    ensures Logged(s, req).log == s.log + if req.command in WRITES then [[Capitals(req.command)] + req.args] else []
  {
    var c := Lookup(req.command);
    CapitalStrings();
    CapitalLists();
    CapitalSets();
    if c.Some? {
      KindByName(req.command, c.value);
    } else if req.command in WRITES {
      KnownWrite(req.command);
    }
  }

  lemma KnownWrite(name: string)
    requires name in WRITES
    ensures Lookup(name).Some?
  {
    StringNames();
    ListNames();
    SetNames();
    GeoNames();
  }

  function Capitals(name: string): string {
    if name == "set" then "SET"
    else if name == "incr" then "INCR"
    else if name == "rpush" then "RPUSH"
    else if name == "lpush" then "LPUSH"
    else if name == "lpop" then "LPOP"
    else if name == "blpop" then "BLPOP"
    else if name == "zadd" then "ZADD"
    else if name == "zrem" then "ZREM"
    else "GEOADD"
  }
}
