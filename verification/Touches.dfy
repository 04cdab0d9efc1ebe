/** What the events of a run stand for, and when EXEC aborts: both read off the labels of the run and the
    handlers it executed, without the bookkeeping of the server. */
module Touches {
  import opened Text
  import opened Keyspace
  import opened Commands
  import opened Transactions
  import opened Table
  import opened Isolation
  import opened History

  /** The keys that the writes among the calls were given, in order. */
  function WrittenKeys(h: seq<Call>): seq<string> {
    if h == [] then [] else
      var req := h[|h| - 1].req;
      WrittenKeys(h[..|h| - 1]) + if req.command in WRITES && req.args != [] then [req.args[0]] else []
  }

  lemma {:induction false} WrittenKeysConcat(a: seq<Call>, b: seq<Call>)
    ensures WrittenKeys(a + b) == WrittenKeys(a) + WrittenKeys(b)
    decreases |b|
  {
    if b == [] {
      assert a + b == a;
    } else {
      WrittenKeysConcat(a, b[..|b| - 1]);
      assert (a + b)[..|a + b| - 1] == a + b[..|b| - 1];
    }
  }

  lemma OneCall(call: Call)
    ensures WrittenKeys([call]) == if call.req.command in WRITES && call.req.args != [] then [call.req.args[0]] else []
  {
    assert [call][..0] == [];
  }

  // ---------------------------------------------------------------------------------------
  // The events of a run
  // ---------------------------------------------------------------------------------------

  function Watchings(id: int, keys: seq<string>): seq<Event> {
    seq(|keys|, i requires 0 <= i < |keys| => Watched(id, keys[i]))
  }

  function Writings(keys: seq<string>): seq<Event> {
    seq(|keys|, i requires 0 <= i < |keys| => Wrote(keys[i]))
  }

  /** What one request given to `Execute` does to watches, by its name: WATCH outside a transaction,
      UNWATCH outside one, DISCARD inside one, and the writes among the handlers it ran. */
  function Did(s: Server, id: int, req: Request, env: Env): seq<Event>
    requires id in s.clients
  {
    var open := s.clients[id].mode == Transaction;
    if req.command == "watch" then if open then [] else Watchings(id, req.args)
    else if req.command == "unwatch" then if open || req.args != [] then [] else [Cleared(id)]
    else if req.command == "discard" then if open && req.args == [] then [Cleared(id)] else []
    else Writings(WrittenKeys(CallsOf(s, id, req, env)))
  }

  function QueueDid(s: Server, id: int, queue: seq<Request>, env: Env): seq<Event>
    requires id in s.clients
  {
    if queue == [] then [] else
      var before := queue[..|queue| - 1];
      QueueDid(s, id, before, env) + Did(RunQueue(s, id, before, env).server, id, queue[|queue| - 1], env)
  }

  /** EXEC in a transaction clears, and unless it aborts does what its queue does. */
  function ExecDid(s: Server, id: int, env: Env): seq<Event>
    requires id in s.clients
  {
    if s.clients[id].mode != Transaction then []
    else if s.clients[id].dirty then [Cleared(id)]
    else [Cleared(id)] + QueueDid(Reset(s, id), id, s.clients[id].queue, env)
  }

  function StepDid(s: Server, l: Label): seq<Event>
    requires Enabled(s, l)
  {
    if !l.Command? || (s.clients[l.id].mode == Subscribed && !SubscribedMayRun(l.req.command)) then []
    else if l.req.command != "exec" then Did(s, l.id, l.req, l.env)
    else ExecDid(s, l.id, l.env)
  }

  function RunDid(s: Server, ls: seq<Label>): seq<Event> {
    if ls == [] then [] else
      var before := Run(s, ls[..|ls| - 1]).server;
      RunDid(s, ls[..|ls| - 1]) + if Enabled(before, ls[|ls| - 1]) then StepDid(before, ls[|ls| - 1]) else []
  }

  lemma {:induction false} WatchEventsAre(id: int, keys: seq<string>)
    ensures WatchEvents(id, keys) == Watchings(id, keys)
  {
    if keys != [] {
      WatchEventsAre(id, keys[..|keys| - 1]);
      assert Watchings(id, keys) == Watchings(id, keys[..|keys| - 1]) + [Watched(id, keys[|keys| - 1])];
    }
  }

  lemma StoreDid(s: Server, req: Request, c: Cmd, env: Env, r: Answered, h: seq<Call>)
    requires Lookup(req.command) == Some(c) && ArityOk(c, |req.args|) && r == RunOnStore(s, c, req.args, env)
    requires var o := Handle(c, req.args, env, s.data);
             h == if o.Done? then [Call(req, c, env, s.data, o.data)] else []
    requires IsWrite(c) <==> req.command in WRITES
    ensures r.events == Writings(WrittenKeys(h))
  {
    if h != [] {
      OneCall(h[0]);
    }
  }

  lemma SessionDid(s: Server, id: int, req: Request, c: Cmd, env: Env, r: Answered)
    requires id in s.clients && Has(req.command, c) && OnSession(c) && ArityOk(c, |req.args|)
    requires s.clients[id].mode == Transaction ==> Transactional(c)
    requires r == RunHandler(s, id, c, req.args, env)
    ensures r.events == Did(s, id, req, env)
  {
    SessionByName(req.command, c);
    WatchEventsAre(id, req.args);
  }

  lemma ExecuteDid(s: Server, id: int, req: Request, env: Env)
    requires id in s.clients
    ensures Execute(s, id, req, env).events == Did(s, id, req, env)
  {
    var entry := Lookup(req.command);
    if entry.Some? {
      SessionByName(req.command, entry.value);
      if ArityOk(entry.value, |req.args|) && (Transactional(entry.value) || s.clients[id].mode != Transaction) {
        KindByName(req.command, entry.value);
        if OnSession(entry.value) {
          SessionDid(s, id, req, entry.value, env, Execute(s, id, req, env));
        } else {
          StoreDid(s, req, entry.value, env, Execute(s, id, req, env), CallsOf(s, id, req, env));
        }
      }
    }
  }

  lemma {:induction false} RunQueueDid(s: Server, id: int, queue: seq<Request>, env: Env)
    requires id in s.clients
    ensures RunQueue(s, id, queue, env).events == QueueDid(s, id, queue, env)
  {
    if queue != [] {
      var before, last := queue[..|queue| - 1], queue[|queue| - 1];
      RunQueueDid(s, id, before, env);
      ExecuteDid(RunQueue(s, id, before, env).server, id, last, env);
    }
  }

  /** The events of any run are what its labels and its handlers say, in order. */
  lemma {:induction false} EventsAreDeeds(s: Server, ls: seq<Label>)
    ensures Run(s, ls).events == RunDid(s, ls)
  {
    if ls != [] {
      EventsAreDeeds(s, ls[..|ls| - 1]);
      var before, l := Run(s, ls[..|ls| - 1]).server, ls[|ls| - 1];
      if Enabled(before, l) && l.Command? {
        ExecuteDid(before, l.id, l.req, l.env);
        RunQueueDid(Reset(before, l.id), l.id, before.clients[l.id].queue, l.env);
      }
    }
  }

  // ---------------------------------------------------------------------------------------
  // When EXEC aborts, by labels and calls
  // ---------------------------------------------------------------------------------------

  /** The label is a WATCH of the key by client `id` that succeeds. */
  predicate Watches(s: Server, l: Label, id: int, key: string)
    requires id in s.clients
  {
    l.Command? && l.id == id && s.clients[id].mode == Normal && l.req.command == "watch" && key in l.req.args
  }

  /** The label ends the watches of client `id`: its UNWATCH outside a transaction, its DISCARD inside one,
      or its EXEC inside one, aborted or not. */
  predicate Clears(s: Server, l: Label, id: int)
    requires id in s.clients
  {
    && l.Command? && l.id == id
    && match s.clients[id].mode
       case Normal => l.req.command == "unwatch" && l.req.args == []
       case Transaction => l.req.command == "exec" || (l.req.command == "discard" && l.req.args == [])
       case Subscribed => false
  }

  /** A write of the calls was given a key of the set. */
  predicate Hits(h: seq<Call>, keys: set<string>) {
    exists k :: k in WrittenKeys(h) && k in keys
  }

  lemma HitsConcat(a: seq<Call>, b: seq<Call>, keys: set<string>)
    ensures Hits(a + b, keys) <==> Hits(a, keys) || Hits(b, keys)
  {
    WrittenKeysConcat(a, b);
  }

  lemma OneCallHits(call: Call, keys: set<string>)
    ensures Hits([call], keys) <==> call.req.command in WRITES && call.req.args != [] && call.req.args[0] in keys
  {
    OneCall(call);
    if call.req.command in WRITES && call.req.args != [] {
      assert call.req.args[0] in WrittenKeys([call]);
    }
  }

  /** What running something leaves of a client: its watches, and dirty also if a call hit one. */
  ghost predicate OnlyHits(before: Client, after: Client, h: seq<Call>) {
    after.watched == before.watched && (after.dirty <==> before.dirty || Hits(h, before.watched))
  }

  lemma StoreHits(s: Server, req: Request, c: Cmd, env: Env, r: Answered, h: seq<Call>, id: int)
    requires IndexOk(s) && id in s.clients
    requires Lookup(req.command) == Some(c) && ArityOk(c, |req.args|) && r == RunOnStore(s, c, req.args, env)
    requires var o := Handle(c, req.args, env, s.data);
             h == if o.Done? then [Call(req, c, env, s.data, o.data)] else []
    requires IsWrite(c) <==> req.command in WRITES
    ensures OnlyHits(s.clients[id], r.server.clients[id], h)
  {
    if h != [] {
      OneCallHits(h[0], s.clients[id].watched);
    }
  }

  /** A request of another client, or one of the client itself that is not on its session. */
  lemma ExecuteHits(s: Server, who: int, req: Request, env: Env, r: Answered, h: seq<Call>, id: int)
    requires IndexOk(s) && who in s.clients && id in s.clients
    requires r == Execute(s, who, req, env) && h == CallsOf(s, who, req, env)
    requires who != id || req.command !in SESSION
    ensures OnlyHits(s.clients[id], r.server.clients[id], h)
  {
    var entry := Lookup(req.command);
    if entry.Some? && ArityOk(entry.value, |req.args|) && (Transactional(entry.value) || s.clients[who].mode != Transaction) {
      KindByName(req.command, entry.value);
      if OnSession(entry.value) {
        SessionOfOther(s, who, entry.value, req.args, env, id, r);
      } else {
        StoreHits(s, req, entry.value, env, r, h, id);
      }
    }
  }

  lemma SessionOfOther(s: Server, who: int, c: Cmd, args: seq<string>, env: Env, id: int, r: Answered)
    requires who in s.clients && id in s.clients && who != id && ArityOk(c, |args|) && OnSession(c)
    requires r == RunHandler(s, who, c, args, env)
    ensures r.server.clients[id] == s.clients[id]
  {
    match c {
      case WATCH => WatchKeysModes(s, who, args, id);
      case _ =>
    }
  }

  lemma {:induction false} WatchKeysAdds(s: Server, id: int, keys: seq<string>, key: string)
    requires id in s.clients
    ensures key in WatchKeys(s, id, keys).clients[id].watched <==> key in s.clients[id].watched || key in keys
  {
    if keys != [] {
      WatchKeysAdds(s, id, keys[..|keys| - 1], key);
      assert keys == keys[..|keys| - 1] + [keys[|keys| - 1]];
    }
  }

  /** A request of the client itself on its session. */
  lemma OwnSession(s: Server, id: int, req: Request, env: Env, r: Answered, key: string)
    requires id in s.clients && req.command in SESSION && r == Execute(s, id, req, env)
    requires s.clients[id].mode == Subscribed ==> req.command == "subscribe"
    ensures var l, before, after := Command(id, req, env), s.clients[id], r.server.clients[id];
            && (key in after.watched <==> !Clears(s, l, id) && (key in before.watched || Watches(s, l, id, key)))
            && (after.dirty <==> !Clears(s, l, id) && before.dirty)
  {
    var c := Lookup(req.command);
    if c.Some? {
      SessionByName(req.command, c.value);
      KindByName(req.command, c.value);
      if c.value == WATCH {
        OwnWatch(s, id, req, env, r, key);
      }
    }
  }

  lemma OwnWatch(s: Server, id: int, req: Request, env: Env, r: Answered, key: string)
    requires id in s.clients && Has(req.command, WATCH) && r == Execute(s, id, req, env)
    ensures var before, after := s.clients[id], r.server.clients[id];
            && (key in after.watched <==>
                key in before.watched || (before.mode != Transaction && key in req.args))
            && after.dirty == before.dirty
  {
    WatchExecuted(s, id, req, env);
    if s.clients[id].mode != Transaction && req.args != [] {
      WatchKeysAdds(s, id, req.args, key);
      WatchKeysModes(s, id, req.args, id);
    }
  }

  lemma WatchExecuted(s: Server, id: int, req: Request, env: Env)
    requires id in s.clients && Has(req.command, WATCH)
    ensures Execute(s, id, req, env).server ==
            if s.clients[id].mode == Transaction || req.args == [] then s else WatchKeys(s, id, req.args)
  {
    assert Transactional(WATCH);
    if req.args != [] {
      assert Execute(s, id, req, env) == RunHandler(s, id, WATCH, req.args, env);
    }
  }

  lemma {:induction false} QueueHits(s: Server, who: int, queue: seq<Request>, env: Env, id: int, ev: seq<Event>)
    requires Inv(s, ev) && who in s.clients && id in s.clients && who != id
    ensures id in RunQueue(s, who, queue, env).server.clients
    ensures OnlyHits(s.clients[id], RunQueue(s, who, queue, env).server.clients[id], QueueCalls(s, who, queue, env))
  {
    QueueByOther(s, who, queue, env, id);
    if queue != [] {
      var before, last := queue[..|queue| - 1], queue[|queue| - 1];
      var t := RunQueue(s, who, before, env).server;
      QueueHits(s, who, before, env, id, ev);
      RunQueueInv(s, who, before, env, ev);
      ExecuteHits(t, who, last, env, Execute(t, who, last, env), CallsOf(t, who, last, env), id);
      HitsConcat(QueueCalls(s, who, before, env), CallsOf(t, who, last, env), s.clients[id].watched);
    }
  }

  predicate Untouched(c: Client) { c.watched == {} && !c.dirty }

  lemma OwnRequestStaysUntouched(s: Server, id: int, req: Request, env: Env, r: Answered)
    requires IndexOk(s) && id in s.clients && s.clients[id].mode != Transaction && Untouched(s.clients[id])
    requires Queueable(req) && r == Execute(s, id, req, env)
    ensures Untouched(r.server.clients[id])
  {
    var c := Lookup(req.command).value;
    KindByName(req.command, c);
    if req.command !in SESSION {
      ExecuteHits(s, id, req, env, r, CallsOf(s, id, req, env), id);
    }
  }

  /** The queue of a client's own EXEC runs after its watches were cleared, and leaves it so. */
  lemma {:induction false} OwnQueueStaysUntouched(s: Server, id: int, queue: seq<Request>, env: Env, ev: seq<Event>)
    requires Inv(s, ev) && id in s.clients && s.clients[id].mode != Transaction && Untouched(s.clients[id])
    requires forall i :: 0 <= i < |queue| ==> Queueable(queue[i])
    ensures Untouched(RunQueue(s, id, queue, env).server.clients[id])
  {
    if queue != [] {
      var before, last := queue[..|queue| - 1], queue[|queue| - 1];
      var t := RunQueue(s, id, before, env).server;
      OwnQueueStaysUntouched(s, id, before, env, ev);
      RunQueueIsFold(s, id, before, env);
      RunQueueInv(s, id, before, env, ev);
      OwnRequestStaysUntouched(t, id, last, env, Execute(t, id, last, env));
    }
  }

  /** What a step makes of the watches and the flag of a client: its own clearing ends both, its WATCH adds
      keys, and a write that hits a watched key, by anyone, sets the flag. */
  ghost predicate Follows(s: Server, l: Label, id: int, h: seq<Call>, after: Client, key: string)
    requires id in s.clients
  {
    && (key in after.watched <==> !Clears(s, l, id) && (key in s.clients[id].watched || Watches(s, l, id, key)))
    && (after.dirty <==> !Clears(s, l, id) && (s.clients[id].dirty || Hits(h, s.clients[id].watched)))
  }

  lemma ExecFollows(s: Server, l: Label, id: int, ev: seq<Event>, key: string, t: Server)
    requires Inv(s, ev) && QueuesOk(s) && Enabled(s, l) && id in s.clients && l.Command? && l.req.command == "exec"
    requires t == Step(s, l).server
    ensures id in t.clients && Follows(s, l, id, StepCalls(s, l), t.clients[id], key)
  {
    if s.clients[l.id].mode == Transaction && !s.clients[l.id].dirty {
      var u, queue := Reset(s, l.id), s.clients[l.id].queue;
      ResetInv(s, l.id, ev);
      if l.id == id {
        assert ClientQueueOk(s.clients[id]);
        OwnQueueStaysUntouched(u, id, queue, l.env, ev + [Cleared(id)]);
      } else {
        QueueHits(u, l.id, queue, l.env, id, ev + [Cleared(l.id)]);
      }
    }
  }

  lemma ExecuteFollows(s: Server, l: Label, id: int, ev: seq<Event>, key: string, r: Answered)
    requires Inv(s, ev) && Enabled(s, l) && id in s.clients && l.Command? && l.req.command != "exec"
    requires s.clients[l.id].mode == Subscribed ==> SubscribedMayRun(l.req.command)
    requires r == Execute(s, l.id, l.req, l.env)
    ensures Follows(s, l, id, CallsOf(s, l.id, l.req, l.env), r.server.clients[id], key)
  {
    if l.id == id && l.req.command in SESSION {
      OwnSession(s, id, l.req, l.env, r, key);
      SessionRunsNoHandler(s, id, l.req, l.env);
    } else {
      ExecuteHits(s, l.id, l.req, l.env, r, CallsOf(s, l.id, l.req, l.env), id);
    }
  }

  lemma SessionRunsNoHandler(s: Server, id: int, req: Request, env: Env)
    requires id in s.clients && req.command in SESSION
    ensures CallsOf(s, id, req, env) == []
  {
    if Lookup(req.command).Some? {
      KindByName(req.command, Lookup(req.command).value);
    }
  }

  lemma StepFollows(s: Server, l: Label, id: int, ev: seq<Event>, key: string, t: Server)
    requires Inv(s, ev) && QueuesOk(s) && Enabled(s, l) && id in s.clients && id in t.clients
    requires t == Step(s, l).server
    ensures Follows(s, l, id, StepCalls(s, l), t.clients[id], key)
  {
    if l.Command? {
      if s.clients[l.id].mode == Subscribed && !SubscribedMayRun(l.req.command) {
      } else if l.req.command == "exec" {
        ExecFollows(s, l, id, ev, key, t);
      } else {
        ExecuteFollows(s, l, id, ev, key, Execute(s, l.id, l.req, l.env));
      }
    }
  }

  // --- runs ------------------------------------------------------------------------------

  /** What one label of a run means to a client: the keys it watched, whether it ended its watches, and the
      keys that the writes it ran and that succeeded were given, by whomever. */
  datatype Deed = Deed(watched: seq<string>, cleared: bool, written: seq<string>)

  function DeedOf(s: Server, l: Label, id: int): Deed {
    var mine := id in s.clients && l.Command? && l.id == id;
    Deed(if mine && s.clients[id].mode == Normal && l.req.command == "watch" then l.req.args else [],
         mine && Clears(s, l, id),
         if Enabled(s, l) then WrittenKeys(StepCalls(s, l)) else [])
  }

  function Deeds(data: Data, ls: seq<Label>, id: int): (t: seq<Deed>)
    ensures |t| == |ls|
  {
    seq(|ls|, i requires 0 <= i < |ls| => DeedOf(At(data, ls, i), ls[i], id))
  }

  /** The key was watched at label `i`, and no watch ended since, up to label `n`. */
  ghost predicate HeldSince(t: seq<Deed>, n: nat, i: nat, key: string)
    requires n <= |t|
  {
    i < n && key in t[i].watched && forall m: nat :: i < m < n ==> !t[m].cleared
  }

  ghost predicate Held(t: seq<Deed>, n: nat, key: string)
    requires n <= |t|
  {
    exists i: nat :: HeldSince(t, n, i, key)
  }

  /** A write at label `j` was given a key that was watched at the earlier label `i`, with no watch ended
      since, up to label `n`. */
  ghost predicate HitBy(t: seq<Deed>, n: nat, i: nat, j: nat, key: string)
    requires n <= |t|
  {
    i < j < n && HeldSince(t, n, i, key) && key in t[j].written
  }

  ghost predicate Hit(t: seq<Deed>, n: nat)
    requires n <= |t|
  {
    exists i: nat, j: nat, key :: HitBy(t, n, i, j, key)
  }

  /** One label more. */
  lemma HeldOneMore(t: seq<Deed>, n: nat, i: nat, key: string)
    requires n < |t|
    ensures HeldSince(t, n + 1, i, key) <==>
            if i == n then key in t[n].watched else HeldSince(t, n, i, key) && !t[n].cleared
  {
  }

  lemma HeldThen(t: seq<Deed>, n: nat, key: string)
    requires n < |t|
    ensures Held(t, n + 1, key) <==> key in t[n].watched || (Held(t, n, key) && !t[n].cleared)
  {
    var m := n + 1;
    if i: nat :| HeldSince(t, m, i, key) {
      HeldOneMore(t, n, i, key);
    }
    if key in t[n].watched {
      HeldOneMore(t, n, n, key);
    }
    if i: nat :| HeldSince(t, n, i, key) {
      HeldOneMore(t, n, i, key);
    }
  }

  ghost predicate HitNow(t: seq<Deed>, n: nat)
    requires n < |t|
  {
    exists key :: key in t[n].written && Held(t, n, key)
  }

  lemma HitThen(t: seq<Deed>, n: nat)
    requires n < |t| && Hit(t, n + 1)
    ensures !t[n].cleared && (Hit(t, n) || HitNow(t, n))
  {
    var m := n + 1;
    var i: nat, j: nat, key :| HitBy(t, m, i, j, key);
    HeldOneMore(t, n, i, key);
    if j < n {
      assert HitBy(t, n, i, j, key);
    } else {
      assert Held(t, n, key);
    }
  }

  lemma HitLater(t: seq<Deed>, n: nat)
    requires n < |t| && !t[n].cleared && (Hit(t, n) || HitNow(t, n))
    ensures Hit(t, n + 1)
  {
    if Hit(t, n) {
      var i: nat, j: nat, key :| HitBy(t, n, i, j, key);
      HeldOneMore(t, n, i, key);
      assert HitBy(t, n + 1, i, j, key);
    } else {
      var key :| key in t[n].written && Held(t, n, key);
      var i: nat :| HeldSince(t, n, i, key);
      HeldOneMore(t, n, i, key);
      assert HitBy(t, n + 1, i, n, key);
    }
  }

  /** The watches and the flag of a client are what its deeds up to label `n` say. */
  ghost predicate ReadOff(c: Client, t: seq<Deed>, n: nat)
    requires n <= |t|
  {
    (forall key :: key in c.watched <==> Held(t, n, key)) && (c.dirty <==> Hit(t, n))
  }

  /** The client after one more label: its own clearing ends its watches and its flag, its WATCH adds keys,
      and a write that hits a watched key, by anyone, sets the flag. */
  ghost predicate After(before: Client, d: Deed, after: Client) {
    (forall key :: WatchAfter(before, d, after, key)) && FlagAfter(before, d, after)
  }

  predicate WatchAfter(before: Client, d: Deed, after: Client, key: string) {
    key in after.watched <==> !d.cleared && (key in before.watched || key in d.watched)
  }

  ghost predicate FlagAfter(before: Client, d: Deed, after: Client) {
    after.dirty <==> !d.cleared && (before.dirty || exists key :: key in d.written && key in before.watched)
  }

  lemma ReadOffOneMore(t: seq<Deed>, n: nat, before: Client, after: Client)
    requires n < |t| && ReadOff(before, t, n) && After(before, t[n], after)
    requires t[n].watched != [] ==> !t[n].cleared
    ensures ReadOff(after, t, n + 1)
  {
    forall key
      ensures key in after.watched <==> Held(t, n + 1, key)
    {
      HeldThen(t, n, key);
      assert WatchAfter(before, t[n], after, key);
    }
    if Hit(t, n + 1) {
      HitThen(t, n);
    } else if !t[n].cleared && (Hit(t, n) || HitNow(t, n)) {
      HitLater(t, n);
    }
  }

  lemma NothingReadOff(t: seq<Deed>, n: nat, c: Client)
    requires n <= |t| && Untouched(c) && forall i :: 0 <= i < n ==> t[i].watched == []
    ensures ReadOff(c, t, n)
  {
  }

  lemma AtOneMore(data: Data, ls: seq<Label>, n: nat)
    requires n < |ls|
    ensures var s := At(data, ls, n);
            At(data, ls, n + 1) == if Enabled(s, ls[n]) then Step(s, ls[n]).server else s
  {
    assert ls[..n + 1][..n] == ls[..n] && ls[..n + 1][n] == ls[n];
  }

  lemma StepNextId(s: Server, l: Label, ev: seq<Event>)
    requires Inv(s, ev) && Enabled(s, l)
    ensures s.nextId <= Step(s, l).server.nextId
    ensures forall id :: id in Step(s, l).server.clients && id !in s.clients ==> l.Connect? && id == s.nextId
  {
    if l.Command? {
      RunQueueNextId(Reset(s, l.id), l.id, s.clients[l.id].queue, l.env);
      ExecuteNextId(s, l.id, l.req, l.env);
    }
  }

  lemma {:induction false} WatchKeysNextId(s: Server, id: int, keys: seq<string>)
    requires id in s.clients
    ensures WatchKeys(s, id, keys).nextId == s.nextId
  {
    if keys != [] {
      WatchKeysNextId(s, id, keys[..|keys| - 1]);
    }
  }

  lemma HandlerNextId(s: Server, id: int, c: Cmd, args: seq<string>, env: Env, r: Answered)
    requires id in s.clients && ArityOk(c, |args|) && r == RunHandler(s, id, c, args, env)
    ensures r.server.nextId == s.nextId
  {
    if OnSession(c) {
      SessionNextId(s, id, c, args, env, r);
    } else {
      StoreNextId(s, c, args, env, r);
    }
  }

  lemma SessionNextId(s: Server, id: int, c: Cmd, args: seq<string>, env: Env, r: Answered)
    requires id in s.clients && ArityOk(c, |args|) && OnSession(c) && r == RunHandler(s, id, c, args, env)
    ensures r.server.nextId == s.nextId
  {
    match c {
      case WATCH => WatchKeysNextId(s, id, args);
      case _ =>
    }
  }

  lemma StoreNextId(s: Server, c: Cmd, args: seq<string>, env: Env, r: Answered)
    requires ArityOk(c, |args|) && r == RunOnStore(s, c, args, env)
    ensures r.server.nextId == s.nextId
  {
  }

  lemma ExecuteNextId(s: Server, id: int, req: Request, env: Env)
    requires id in s.clients
    ensures Execute(s, id, req, env).server.nextId == s.nextId
  {
    var c := Lookup(req.command);
    if c.Some? && ArityOk(c.value, |req.args|) && (Transactional(c.value) || s.clients[id].mode != Transaction) {
      HandlerNextId(s, id, c.value, req.args, env, Execute(s, id, req, env));
    }
  }

  lemma {:induction false} RunQueueNextId(s: Server, id: int, queue: seq<Request>, env: Env)
    requires id in s.clients
    ensures RunQueue(s, id, queue, env).server.nextId == s.nextId
    ensures RunQueue(s, id, queue, env).server.clients.Keys == s.clients.Keys
  {
    if queue != [] {
      RunQueueNextId(s, id, queue[..|queue| - 1], env);
      ExecuteNextId(RunQueue(s, id, queue[..|queue| - 1], env).server, id, queue[|queue| - 1], env);
    }
  }

  /** Ids are not used again: a client of an earlier state has an id below the next one. */
  lemma {:induction false} EarlierIds(data: Data, ls: seq<Label>, i: nat, n: nat, id: int)
    requires i <= n <= |ls| && id in At(data, ls, i).clients
    ensures id < At(data, ls, n).nextId
    decreases n - i
  {
    ReachableInv(data, ls[..i]);
    if i < n {
      EarlierIds(data, ls, i, n - 1, id);
      AtOneMore(data, ls, n - 1);
      ReachableInv(data, ls[..n - 1]);
      if Enabled(At(data, ls, n - 1), ls[n - 1]) {
        StepNextId(At(data, ls, n - 1), ls[n - 1], Run(Start(data), ls[..n - 1]).events);
      }
    }
  }

  /** A client that was not there a label ago is new: it watches nothing, and never did. */
  lemma NewClient(data: Data, ls: seq<Label>, n: nat, id: int)
    requires n < |ls| && id in At(data, ls, n + 1).clients && id !in At(data, ls, n).clients
    ensures Untouched(At(data, ls, n + 1).clients[id])
    ensures forall i: nat :: i <= n ==> Deeds(data, ls, id)[i].watched == []
  {
    AtOneMore(data, ls, n);
    ReachableInv(data, ls[..n]);
    StepNextId(At(data, ls, n), ls[n], Run(Start(data), ls[..n]).events);
    forall i: nat | i <= n
      ensures Deeds(data, ls, id)[i].watched == []
    {
      if id in At(data, ls, i).clients {
        EarlierIds(data, ls, i, n, id);
      }
    }
  }

  lemma DeedMeans(s: Server, l: Label, id: int, key: string)
    requires Enabled(s, l) && id in s.clients
    ensures var d := DeedOf(s, l, id);
            && (key in d.watched <==> Watches(s, l, id, key))
            && (d.cleared <==> Clears(s, l, id)) && d.written == WrittenKeys(StepCalls(s, l))
  {
  }

  lemma FollowsWatch(s: Server, l: Label, id: int, after: Client, key: string)
    requires Enabled(s, l) && id in s.clients && Follows(s, l, id, StepCalls(s, l), after, key)
    ensures WatchAfter(s.clients[id], DeedOf(s, l, id), after, key)
  {
    DeedMeans(s, l, id, key);
  }

  lemma FollowsFlag(s: Server, l: Label, id: int, after: Client, key: string)
    requires Enabled(s, l) && id in s.clients && Follows(s, l, id, StepCalls(s, l), after, key)
    ensures FlagAfter(s.clients[id], DeedOf(s, l, id), after)
  {
    DeedMeans(s, l, id, key);
  }

  lemma StepAfter(s: Server, l: Label, id: int, ev: seq<Event>, t: Server)
    requires Inv(s, ev) && QueuesOk(s) && Enabled(s, l) && id in s.clients && id in t.clients
    requires t == Step(s, l).server
    ensures After(s.clients[id], DeedOf(s, l, id), t.clients[id])
  {
    forall key
      ensures WatchAfter(s.clients[id], DeedOf(s, l, id), t.clients[id], key)
    {
      StepFollows(s, l, id, ev, key, t);
      FollowsWatch(s, l, id, t.clients[id], key);
    }
    StepFollows(s, l, id, ev, "", t);
    FollowsFlag(s, l, id, t.clients[id], "");
  }

  lemma LabelAfter(data: Data, ls: seq<Label>, n: nat, id: int)
    requires n < |ls| && id in At(data, ls, n).clients && id in At(data, ls, n + 1).clients
    ensures After(At(data, ls, n).clients[id], Deeds(data, ls, id)[n], At(data, ls, n + 1).clients[id])
  {
    var s := At(data, ls, n);
    AtOneMore(data, ls, n);
    if Enabled(s, ls[n]) {
      ReachableInv(data, ls[..n]);
      ReachableQueuesOk(data, ls[..n]);
      StepAfter(s, ls[n], id, Run(Start(data), ls[..n]).events, At(data, ls, n + 1));
    }
  }

  lemma NotBothDone(s: Server, l: Label, id: int)
    ensures var d := DeedOf(s, l, id); d.watched != [] ==> !d.cleared
  {
  }

  /** After any labels of any run, the keys a client watches and its flag are what its deeds say. */
  lemma {:induction false} ReadOffDeeds(data: Data, ls: seq<Label>, n: nat, id: int)
    requires n <= |ls| && id in At(data, ls, n).clients
    ensures ReadOff(At(data, ls, n).clients[id], Deeds(data, ls, id), n)
    decreases n
  {
    if n > 0 {
      if id in At(data, ls, n - 1).clients {
        ReadOffDeeds(data, ls, n - 1, id);
        LabelAfter(data, ls, n - 1, id);
        NotBothDone(At(data, ls, n - 1), ls[n - 1], id);
        ReadOffOneMore(Deeds(data, ls, id), n - 1, At(data, ls, n - 1).clients[id], At(data, ls, n).clients[id]);
      } else {
        NewClient(data, ls, n - 1, id);
        NothingReadOff(Deeds(data, ls, id), n, At(data, ls, n).clients[id]);
      }
    }
  }

  /** After any run of any number of clients, EXEC aborts if and only if a write that succeeded, run directly
      or inside an EXEC of anyone, was given a key that the client had watched before with no UNWATCH, DISCARD
      or EXEC of its own since. Only the labels of the run and the handlers that ran and succeeded say so. */
  lemma AbortsExactlyWhenHit(data: Data, ls: seq<Label>, id: int, env: Env)
    requires id in Run(Start(data), ls).server.clients
    ensures Exec(Run(Start(data), ls).server, id, env).Aborted? <==> Hit(Deeds(data, ls, id), |ls|)
  {
    assert ls[..|ls|] == ls;
    ReadOffDeeds(data, ls, |ls|, id);
  }

  /** What the client gets for EXEC inside a transaction: the null array if it aborts, or the replies. */
  lemma ExecAnswers(s: Server, id: int, args: seq<string>, env: Env)
    requires id in s.clients && s.clients[id].mode == Transaction
    ensures var answer := Respond(s, id, Request("exec", args), env);
            if Exec(s, id, env).Aborted? then answer == Single(Some(NullArray)) else answer.Many?
  {
  }

  /** The keys of the events of writes, in order. */
  function WroteKeys(ev: seq<Event>): seq<string> {
    if ev == [] then [] else
      WroteKeys(ev[..|ev| - 1]) + if ev[|ev| - 1].Wrote? then [ev[|ev| - 1].key] else []
  }

  lemma {:induction false} WroteKeysConcat(a: seq<Event>, b: seq<Event>)
    ensures WroteKeys(a + b) == WroteKeys(a) + WroteKeys(b)
    decreases |b|
  {
    if b == [] {
      assert a + b == a;
    } else {
      WroteKeysConcat(a, b[..|b| - 1]);
      assert (a + b)[..|a + b| - 1] == a + b[..|b| - 1];
    }
  }

  lemma {:induction false} WroteWritings(keys: seq<string>)
    ensures WroteKeys(Writings(keys)) == keys
  {
    if keys != [] {
      WroteWritings(keys[..|keys| - 1]);
      assert Writings(keys)[..|keys| - 1] == Writings(keys[..|keys| - 1]);
      assert keys == keys[..|keys| - 1] + [keys[|keys| - 1]];
    }
  }

  lemma {:induction false} WroteWatchings(id: int, keys: seq<string>)
    ensures WroteKeys(Watchings(id, keys)) == []
  {
    if keys != [] {
      WroteWatchings(id, keys[..|keys| - 1]);
      assert Watchings(id, keys)[..|keys| - 1] == Watchings(id, keys[..|keys| - 1]);
    }
  }

  lemma WroteDid(s: Server, id: int, req: Request, env: Env)
    requires id in s.clients
    ensures WroteKeys(Did(s, id, req, env)) == WrittenKeys(CallsOf(s, id, req, env))
  {
    if req.command in SESSION {
      SessionRunsNoHandler(s, id, req, env);
      WroteWatchings(id, req.args);
      assert [Cleared(id)][..0] == [];
    }
    WroteWritings(WrittenKeys(CallsOf(s, id, req, env)));
  }

  lemma {:induction false} WroteQueue(s: Server, id: int, queue: seq<Request>, env: Env)
    requires id in s.clients
    ensures WroteKeys(QueueDid(s, id, queue, env)) == WrittenKeys(QueueCalls(s, id, queue, env))
  {
    if queue != [] {
      var before, last := queue[..|queue| - 1], queue[|queue| - 1];
      var t := RunQueue(s, id, before, env).server;
      WroteQueue(s, id, before, env);
      WroteDid(t, id, last, env);
      WroteKeysConcat(QueueDid(s, id, before, env), Did(t, id, last, env));
      WrittenKeysConcat(QueueCalls(s, id, before, env), CallsOf(t, id, last, env));
    }
  }

  lemma WroteExec(s: Server, id: int, env: Env)
    requires id in s.clients && s.clients[id].mode == Transaction && !s.clients[id].dirty
    ensures WroteKeys(ExecDid(s, id, env)) == WrittenKeys(QueueCalls(Reset(s, id), id, s.clients[id].queue, env))
  {
    var queue := QueueDid(Reset(s, id), id, s.clients[id].queue, env);
    WroteQueue(Reset(s, id), id, s.clients[id].queue, env);
    WroteKeysConcat([Cleared(id)], queue);
    WroteCleared(id);
    assert [] + WroteKeys(queue) == WroteKeys(queue);
  }

  lemma WroteCleared(id: int)
    ensures WroteKeys([Cleared(id)]) == []
  {
    assert [Cleared(id)][..0] == [];
  }

  lemma WroteStep(s: Server, l: Label)
    requires Enabled(s, l)
    ensures WroteKeys(StepDid(s, l)) == WrittenKeys(StepCalls(s, l))
  {
    if l.Command? {
      if l.req.command != "exec" {
        WroteDid(s, l.id, l.req, l.env);
      } else if s.clients[l.id].mode == Transaction && !s.clients[l.id].dirty {
        WroteExec(s, l.id, l.env);
      } else {
        WroteCleared(l.id);
      }
    }
  }

  lemma {:induction false} WroteRun(s: Server, ls: seq<Label>)
    ensures WroteKeys(RunDid(s, ls)) == WrittenKeys(RunCalls(s, ls))
  {
    if ls != [] {
      var before, l := Run(s, ls[..|ls| - 1]).server, ls[|ls| - 1];
      var did, calls := RunDid(s, ls[..|ls| - 1]), RunCalls(s, ls[..|ls| - 1]);
      WroteRun(s, ls[..|ls| - 1]);
      if Enabled(before, l) {
        WroteStep(before, l);
        WroteKeysConcat(did, StepDid(before, l));
        WrittenKeysConcat(calls, StepCalls(before, l));
      } else {
        assert did + [] == did && calls + [] == calls;
      }
    }
  }

  /** The keys of the write events of any run are, in order, the first arguments of the writes among the
      handlers that ran and succeeded. */
  lemma WroteEventsAreWrites(s: Server, ls: seq<Label>)
    ensures WroteKeys(Run(s, ls).events) == WrittenKeys(RunCalls(s, ls))
  {
    EventsAreDeeds(s, ls);
    WroteRun(s, ls);
  }
}
