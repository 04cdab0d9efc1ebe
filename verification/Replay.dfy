/** Replaying the append-only file at start-up: when it rebuilds the store that wrote it. */
module Replay {
  import opened Text
  import opened Keyspace
  import opened Commands
  import opened Transactions
  import opened Aof

  /** The request that a logged command reads as. */
  function AsRequest(args: seq<string>): Request
    requires args != []
  {
    Request(ToLower(args[0]), args[1..])
  }

  /** A node on which nobody but one internal client, fresh and in normal mode, is at work. It is not
      in the client table of the source, but nothing reads its dirty flag: EXEC is not a handler. */
  function Lone(data: Data): Server { Server(map[LINK := NEW_CLIENT], map[], LINK + 1, data, []) }

  const LINK := 1

  /** One command executed for a new internal client: the store after it, or None when `Execute`
      returns an error. */
  function ReplayCommand(data: Data, args: seq<string>, env: Env): Option<Data> {
    if args == [] then None else
      var a := Execute(Lone(data), LINK, AsRequest(args), env);
      if a.reply == None then None else Some(a.server.data)
  }

  /** A command that works on the store replays as its handler. */
  lemma ReplayOnStore(data: Data, args: seq<string>, env: Env, c: Cmd)
    requires args != [] && Lookup(AsRequest(args).command) == Some(c) && !OnSession(c)
    requires ArityOk(c, |args| - 1)
    ensures ReplayCommand(data, args, env) ==
            match Handle(c, args[1..], env, data) case Failed => None case Done(d, _) => Some(d)
  {
    var s := Lone(data);
    ExecuteOnStore(s, LINK, AsRequest(args), env, c);
    OnStoreReplies(s, c, args[1..], env, RunOnStore(s, c, args[1..], env));
  }

  lemma ExecuteOnStore(s: Server, id: int, req: Request, env: Env, c: Cmd)
    requires id in s.clients && s.clients[id].mode != Transaction
    requires Lookup(req.command) == Some(c) && !OnSession(c) && ArityOk(c, |req.args|)
    ensures Execute(s, id, req, env) == RunOnStore(s, c, req.args, env)
  {
    assert !Transactional(c);
  }

  lemma OnStoreReplies(s: Server, c: Cmd, args: seq<string>, env: Env, r: Answered)
    requires ArityOk(c, |args|) && r == RunOnStore(s, c, args, env)
    ensures match Handle(c, args, env, s.data)
            case Failed => r.reply == None && r.server.data == s.data
            case Done(d, reply) => r.reply == Some(reply) && r.server.data == d
  {
  }

  function Replayer(env: Env): (Data, seq<string>) -> Option<Data> {
    (data, args) => ReplayCommand(data, args, env)
  }

  // ---------------------------------------------------------------------------------------
  // Loading a whole log
  // ---------------------------------------------------------------------------------------

  /** The commands of a log applied in order, as long as they succeed. */
  function Replayed(log: seq<seq<string>>, data: Data, env: Env): Option<Data> {
    Applied(log, data, Replayer(env))
  }

  function Applied<S>(log: seq<seq<string>>, s: S, f: (S, seq<string>) -> Option<S>): Option<S> {
    if log == [] then Some(s) else
      match Applied(log[..|log| - 1], s, f)
      case None => None
      case Some(t) => f(t, log[|log| - 1])
  }

  lemma {:induction false} AppliedFromFront<S>(log: seq<seq<string>>, s: S, f: (S, seq<string>) -> Option<S>)
    requires log != []
    ensures Applied(log, s, f) == match f(s, log[0]) case None => None case Some(t) => Applied(log[1..], t, f)
  {
    if |log| > 1 {
      var before := log[..|log| - 1];
      AppliedFromFront(before, s, f);
      assert log[1..][..|log| - 2] == before[1..];
    } else {
      assert log[..0] == [] && log[1..] == [];
    }
  }

  ghost predicate Loadable(log: seq<seq<string>>) {
    Resp.AllFit(log) && [] !in log
  }

  lemma ReplayedFromFront(log: seq<seq<string>>, data: Data, env: Env)
    requires log != []
    ensures Replayed(log, data, env) ==
            match ReplayCommand(data, log[0], env) case None => None case Some(d) => Replayed(log[1..], d, env)
  {
    AppliedFromFront(log, data, Replayer(env));
  }

  /** Loading a log succeeds exactly when every command in it succeeds on replay, and then gives
      the store they make in order. */
  lemma {:induction false} LoadOfLog(log: seq<seq<string>>, data: Data, env: Env)
    requires Loadable(log)
    ensures var r := LoadFrom(Resp.Commands(log), data, Replayer(env));
            && (r.error == NoError <==> Replayed(log, data, env).Some?)
            && (r.error != NoError ==> r.error == ReplayError)
            && (Replayed(log, data, env).Some? ==> r.state == Replayed(log, data, env).value)
  {
    if log != [] {
      ReplayedFromFront(log, data, env);
      LoadStep(log[0], Resp.Commands(log[1..]), data, Replayer(env));
      var d := ReplayCommand(data, log[0], env);
      if d.Some? {
        LoadOfLog(log[1..], d.value, env);
      }
    }
  }

  /** The same in one pass from the front. */
  lemma {:induction false} ReplayingIsApplied<S>(log: seq<seq<string>>, s: S, f: (S, seq<string>) -> Option<S>)
    ensures Applied(log, s, f) ==
            if Replaying(log, s, f).error == NoError then Some(Replaying(log, s, f).state) else None
    ensures Replaying(log, s, f).error in {NoError, ReplayError}
  {
    if log != [] {
      AppliedFromFront(log, s, f);
      if f(s, log[0]).Some? {
        ReplayingIsApplied(log[1..], f(s, log[0]).value, f);
      }
    }
  }

  /** How many commands are replayed before one fails. */
  function Steps<S>(log: seq<seq<string>>, s: S, f: (S, seq<string>) -> Option<S>): (k: nat)
    ensures k <= |log|
  {
    if log == [] || f(s, log[0]) == None then 0 else 1 + Steps(log[1..], f(s, log[0]).value, f)
  }

  /** Replaying stops after as many commands, in the state they make, and only at one that fails
      there. */
  lemma {:induction false} ReplayingStops<S>(log: seq<seq<string>>, s: S, f: (S, seq<string>) -> Option<S>)
    ensures var k, t := Steps(log, s, f), Replaying(log, s, f).state;
            Applied(log[..k], s, f) == Some(t) && (k < |log| ==> f(t, log[k]) == None)
  {
    var k := Steps(log, s, f);
    if k > 0 {
      ReplayingStops(log[1..], f(s, log[0]).value, f);
      AppliedFromFront(log[..k], s, f);
      assert log[..k][1..] == log[1..][..k - 1];
    } else {
      assert log[..0] == [];
    }
  }

  /** Loading a log cut at any byte: the store that its whole commands make, if they all replay, and
      then an error exactly off a boundary; otherwise a replay error. */
  lemma LoadOfCutReplay(log: seq<seq<string>>, n: nat, data: Data, env: Env)
    requires Loadable(log) && n <= |Resp.Commands(log)|
    ensures var r, made := LoadFrom(Resp.Commands(log)[..n], data, Replayer(env)), Replayed(log[..Whole(log, n)], data, env);
            && (made == None ==> r.error == ReplayError)
            && (made.Some? ==>
                  r == Loaded(made.value, if Boundary(log, n) then NoError else ParseError(Resp.UnexpectedEof)))
  {
    LoadOfCutLog(log, n, data, Replayer(env));
    ReplayingIsApplied(log[..Whole(log, n)], data, Replayer(env));
  }

  lemma ReplayedAppend(log: seq<seq<string>>, c: seq<string>, data: Data, env: Env)
    ensures Replayed(log + [c], data, env) ==
            match Replayed(log, data, env) case None => None case Some(d) => ReplayCommand(d, c, env)
  {
    assert (log + [c])[..|log|] == log;
  }

  lemma ReplayedCons(c: seq<string>, rest: seq<seq<string>>, data: Data, env: Env)
    ensures Replayed([c] + rest, data, env) ==
            match ReplayCommand(data, c, env) case None => None case Some(d) => Replayed(rest, d, env)
  {
    ReplayedFromFront([c] + rest, data, env);
    assert ([c] + rest)[1..] == rest;
  }

  lemma {:induction false} AppliedConcat<S>(a: seq<seq<string>>, b: seq<seq<string>>, s: S, f: (S, seq<string>) -> Option<S>)
    ensures Applied(a + b, s, f) == match Applied(a, s, f) case None => None case Some(t) => Applied(b, t, f)
    decreases |b|
  {
    if b == [] {
      assert a + b == a;
    } else {
      AppliedConcat(a, b[..|b| - 1], s, f);
      assert (a + b)[..|a + b| - 1] == a + b[..|b| - 1];
    }
  }

  /** A log replays in two parts. */
  lemma ReplayedConcat(a: seq<seq<string>>, b: seq<seq<string>>, data: Data, env: Env)
    ensures Replayed(a + b, data, env) == match Replayed(a, data, env) case None => None case Some(d) => Replayed(b, d, env)
  {
    AppliedConcat(a, b, data, Replayer(env));
  }

  // ---------------------------------------------------------------------------------------
  // Writes replay as they ran
  // ---------------------------------------------------------------------------------------

  /** A request as the parser leaves it, asking for no expiry. */
  predicate SteadyRequest(req: Request) {
    ToLower(req.command) == req.command && (req.command == "set" ==> |req.args| == 2)
  }

  /** No SET asks for an expiry, and all commands convert numbers and positions the same way. */
  ghost predicate SteadyLabel(l: Label, env: Env) {
    l.Command? ==> SteadyRequest(l.req) && SameConversions(l.env, env)
  }

  ghost predicate SameConversions(env: Env, env': Env) {
    env.parseFloat == env'.parseFloat && env.geocode == env'.geocode
  }

  ghost predicate Steady(ls: seq<Label>, env: Env) {
    forall i :: 0 <= i < |ls| ==> SteadyLabel(ls[i], env)
  }

  predicate IsWriteRequest(req: Request) {
    Lookup(req.command).Some? && IsWrite(Lookup(req.command).value)
  }

  /** A request as it is logged. */
  function LogOf(req: Request): seq<string> { [ToUpper(req.command)] + req.args }

  lemma LoggedReadsBack(req: Request)
    requires ToLower(req.command) == req.command
    ensures AsRequest(LogOf(req)) == req
  {
    LowerOfUpper(req.command);
  }

  /** A write without expiry replays as it ran. */
  lemma WriteReplays(data: Data, req: Request, env: Env, env': Env, c: Cmd)
    requires SteadyRequest(req) && Lookup(req.command) == Some(c) && IsWrite(c) && ArityOk(c, |req.args|)
    requires SameConversions(env', env)
    ensures ReplayCommand(data, LogOf(req), env) ==
            match Handle(c, req.args, env', data) case Failed => None case Done(d, _) => Some(d)
  {
    LoggedReadsBack(req);
    Names(req.command, c);
    ReplayOnStore(data, LogOf(req), env, c);
    ClockDoesNotMatter(c, req.args, env, env'.now, data);
    AnswersDoNotMatter(c, req.args, env.(now := env'.now), env', data);
  }

  lemma AnswersDoNotMatter(c: Cmd, args: seq<string>, env: Env, env': Env, data: Data)
    requires ArityOk(c, |args|) && IsWrite(c) && env.now == env'.now && SameConversions(env', env)
    ensures Handle(c, args, env, data) == Handle(c, args, env', data)
  {
  }

  /** A write that fails, fails again on replay: one with a wrong number of arguments on any store,
      another on the store it failed on. */
  lemma FailedReplays(s: Server, id: int, req: Request, env: Env, env': Env, data: Data)
    requires id in s.clients && SteadyRequest(req) && IsWriteRequest(req) && SameConversions(env', env)
    requires Execute(s, id, req, env').reply == None
    requires s.clients[id].mode == Transaction || data == s.data
    ensures ReplayCommand(data, LogOf(req), env) == None
  {
    var c := Lookup(req.command).value;
    LoggedReadsBack(req);
    if ArityOk(c, |req.args|) {
      ExecuteOnStore(s, id, req, env', c);
      OnStoreReplies(s, c, req.args, env', Execute(s, id, req, env'));
      WriteReplays(data, req, env, env', c);
    }
  }
}
