/** WATCH, MULTI, EXEC and DISCARD over any number of clients: one command is one step. */
module Transactions {
  import opened Text
  import opened Keyspace
  import opened Commands

  datatype Mode = Normal | Transaction | Subscribed

  datatype Client = Client(mode: Mode, queue: seq<Request>, watched: set<string>, dirty: bool)

  /** The session state of the server and its store. `log` is what was appended to the AOF and sent
      to replicas. */
  datatype Server = Server(
    clients: map<int, Client>,
    watchers: map<string, seq<int>>,
    nextId: int,
    data: Data,
    log: seq<seq<string>>)

  const NEW_CLIENT := Client(Normal, [], {}, false)

  function WatchersOf(watchers: map<string, seq<int>>, key: string): seq<int> {
    if key in watchers then watchers[key] else []
  }

  // ---------------------------------------------------------------------------------------
  // Watching
  // ---------------------------------------------------------------------------------------

  /** One key of WATCH. */
  function WatchKey(s: Server, id: int, key: string): Server
    requires id in s.clients
  {
    var c := s.clients[id];
    var ids := WatchersOf(s.watchers, key);
    s.(clients := s.clients[id := c.(watched := c.watched + {key})],
       watchers := s.watchers[key := if id in ids then ids else ids + [id]])
  }

  function WatchKeys(s: Server, id: int, keys: seq<string>): (r: Server)
    requires id in s.clients
    ensures r.clients.Keys == s.clients.Keys
  {
    if keys == [] then s else WatchKey(WatchKeys(s, id, keys[..|keys| - 1]), id, keys[|keys| - 1])
  }

  /** A list of ids without its first occurrence of `id`. */
  function Without(ids: seq<int>, id: int): seq<int> {
    if ids == [] then [] else if ids[0] == id then ids[1..] else [ids[0]] + Without(ids[1..], id)
  }

  /** The watcher lists after `id` is taken off the keys it watches; empty lists are dropped. */
  function WatchersWithout(watchers: map<string, seq<int>>, id: int, keys: set<string>): map<string, seq<int>> {
    map k | k in watchers && (k in keys && id in watchers[k] ==> Without(watchers[k], id) != [])
      :: if k in keys then Without(watchers[k], id) else watchers[k]
  }

  /** `UnwatchAll`. */
  function Unwatch(s: Server, id: int): (r: Server)
    requires id in s.clients
    ensures r.clients.Keys == s.clients.Keys
  {
    var c := s.clients[id];
    s.(clients := s.clients[id := c.(watched := {}, dirty := false)],
       watchers := WatchersWithout(s.watchers, id, c.watched))
  }

  /** `Server.ResetTransactionState`. */
  function Reset(s: Server, id: int): (r: Server)
    requires id in s.clients
    ensures r.clients.Keys == s.clients.Keys
  {
    var t := Unwatch(s, id);
    t.(clients := t.clients[id := t.clients[id].(queue := [], mode := Normal)])
  }

  /** What `Execute` does after a successful write: every live client on the key's list is dirty. */
  function MarkDirty(s: Server, key: string): (r: Server)
    ensures r.clients.Keys == s.clients.Keys
  {
    s.(clients := map id | id in s.clients ::
      if id in WatchersOf(s.watchers, key) then s.clients[id].(dirty := true) else s.clients[id])
  }

  // ---------------------------------------------------------------------------------------
  // Steps
  // ---------------------------------------------------------------------------------------

  /** What a step did that matters to watchers, in the order it did it. */
  datatype Event = Watched(id: int, key: string) | Cleared(id: int) | Wrote(key: string)

  datatype Answered = Answered(server: Server, events: seq<Event>, reply: Option<Reply>)

  /** The part of `Execute` after queueing: run the handler. A reply of None is an error. */
  function RunHandler(s: Server, id: int, c: Cmd, args: seq<string>, env: Env): (r: Answered)
    requires id in s.clients && ArityOk(c, |args|)
    ensures r.server.clients.Keys == s.clients.Keys
  {
    var client := s.clients[id];
    match c
    case WATCH =>
      if client.mode == Transaction then Answered(s, [], None)
      else Answered(WatchKeys(s, id, args), WatchEvents(id, args), Some(Status("OK")))
    case UNWATCH => Answered(Unwatch(s, id), [Cleared(id)], Some(Status("OK")))
    case MULTI =>
      if client.mode == Transaction then Answered(s, [], None)
      else Answered(s.(clients := s.clients[id := client.(mode := Transaction)]), [], Some(Status("OK")))
    case DISCARD =>
      if client.mode != Transaction then Answered(s, [], None)
      else Answered(Reset(s, id), [Cleared(id)], Some(Status("OK")))
    case SUBSCRIBE =>
      Answered(s.(clients := s.clients[id := client.(mode := Subscribed)]), [], Some(Array(["subscribe", args[0]])))
    case _ => RunOnStore(s, c, args, env)
  }

  /** A command that works on the store; a write that succeeds marks the watchers of its key. */
  function RunOnStore(s: Server, c: Cmd, args: seq<string>, env: Env): (r: Answered)
    requires ArityOk(c, |args|)
    ensures r.server.clients.Keys == s.clients.Keys
  {
    match Handle(c, args, env, s.data)
    case Failed => Answered(s, [], None)
    case Done(data, reply) =>
      if IsWrite(c) then Answered(MarkDirty(s.(data := data), args[0]), [Wrote(args[0])], Some(reply))
      else Answered(s.(data := data), [], Some(reply))
  }

  function WatchEvents(id: int, keys: seq<string>): seq<Event> {
    if keys == [] then [] else WatchEvents(id, keys[..|keys| - 1]) + [Watched(id, keys[|keys| - 1])]
  }

  /** `Execute` on a node that is ready to serve. */
  function Execute(s: Server, id: int, req: Request, env: Env): (r: Answered)
    requires id in s.clients
    ensures r.server.clients.Keys == s.clients.Keys
  {
    var entry := Lookup(req.command);
    if entry == None then Answered(s, [], None)
    else if !ArityOk(entry.value, |req.args|) then Answered(s, [], None)
    else if !Transactional(entry.value) && s.clients[id].mode == Transaction then
      var c := s.clients[id];
      Answered(s.(clients := s.clients[id := c.(queue := c.queue + [req])]), [], Some(Status("QUEUED")))
    else RunHandler(s, id, entry.value, req.args, env)
  }

  /** The queue of an EXEC run one command after the other: the state, and one reply each. */
  datatype Ran = Ran(server: Server, events: seq<Event>, replies: seq<Option<Reply>>)

  function RunQueue(s: Server, id: int, queue: seq<Request>, env: Env): (r: Ran)
    requires id in s.clients
    ensures |r.replies| == |queue| && id in r.server.clients
  {
    if queue == [] then Ran(s, [], []) else
      var before := RunQueue(s, id, queue[..|queue| - 1], env);
      var last := Execute(before.server, id, queue[|queue| - 1], env);
      Ran(last.server, before.events + last.events, before.replies + [last.reply])
  }

  datatype ExecResult = Aborted(server: Server) | Executed(ran: Ran)

  /** EXEC of a client in a transaction: abort when it is dirty, else reset it and run its queue. */
  function Exec(s: Server, id: int, env: Env): ExecResult
    requires id in s.clients
  {
    if s.clients[id].dirty then Aborted(Reset(s, id))
    else Executed(RunQueue(Reset(s, id), id, s.clients[id].queue, env))
  }

  predicate SubscribedMayRun(name: string) {
    name in {"subscribe", "unsubscribe", "psubscribe", "punsubscribe", "ping", "quit"}
  }

  /** Writes are logged and propagated whether they ran, failed or were only queued. */
  function Logged(s: Server, req: Request): Server {
    if Lookup(req.command).Some? && IsWrite(Lookup(req.command).value)
    then s.(log := s.log + [[ToUpper(req.command)] + req.args])
    else s
  }

  datatype Label = Connect | Close(id: int) | Command(id: int, req: Request, env: Env)

  predicate Enabled(s: Server, l: Label) { l.Command? ==> l.id in s.clients }

  datatype Stepped = Stepped(server: Server, events: seq<Event>)

  function Step(s: Server, l: Label): Stepped
    requires Enabled(s, l)
  {
    match l
    case Connect => Stepped(s.(clients := s.clients[s.nextId := NEW_CLIENT], nextId := s.nextId + 1), [])
    case Close(id) => Stepped(s.(clients := s.clients - {id}), [])
    case Command(id, req, env) =>
      if s.clients[id].mode == Subscribed && !SubscribedMayRun(req.command) then Stepped(s, [])
      else if req.command == "exec" then
        if s.clients[id].mode != Transaction then Stepped(s, [])
        else match Exec(s, id, env)
          case Aborted(t) => Stepped(t, [Cleared(id)])
          case Executed(ran) => Stepped(ran.server, [Cleared(id)] + ran.events)
      else
        var a := Execute(s, id, req, env);
        Stepped(Logged(a.server, req), a.events)
  }

  /** What is written to the client: one reply, None being an error, or one for each command of an
      EXEC. */
  datatype Response = Single(reply: Option<Reply>) | Many(replies: seq<Option<Reply>>)

  function Respond(s: Server, id: int, req: Request, env: Env): Response
    requires id in s.clients
  {
    if s.clients[id].mode == Subscribed && !SubscribedMayRun(req.command) then Single(None)
    else if req.command == "exec" then
      if s.clients[id].mode != Transaction then Single(None)
      else match Exec(s, id, env)
        case Aborted(_) => Single(Some(NullArray))
        case Executed(ran) => Many(ran.replies)
    else Single(Execute(s, id, req, env).reply)
  }

  // ---------------------------------------------------------------------------------------
  // What the events say about a client
  // ---------------------------------------------------------------------------------------

  /** The watches a client holds and whether one was touched, read off the events alone. */
  datatype Tracked = Tracked(watched: set<string>, dirty: bool)

  function TrackOne(t: Tracked, e: Event, id: int): Tracked {
    match e
    case Watched(i, k) => if i == id then t.(watched := t.watched + {k}) else t
    case Cleared(i) => if i == id then Tracked({}, false) else t
    case Wrote(k) => if k in t.watched then t.(dirty := true) else t
  }

  function Track(ev: seq<Event>, id: int): Tracked {
    if ev == [] then Tracked({}, false) else TrackOne(Track(ev[..|ev| - 1], id), ev[|ev| - 1], id)
  }

  /** `id` watched `key` at `i` and has not cleared its watches since. */
  ghost predicate WatchHolds(ev: seq<Event>, id: int, key: string, i: int) {
    0 <= i < |ev| && ev[i] == Watched(id, key) && forall j :: i < j < |ev| ==> ev[j] != Cleared(id)
  }

  /** Some write named a key that `id` had watched before it, with no clearing after the watch. */
  ghost predicate Touched(ev: seq<Event>, id: int) {
    exists i, j, key :: 0 <= i < j < |ev| && WatchHolds(ev, id, key, i) && ev[j] == Wrote(key)
  }

  lemma WatchHoldsBefore(ev: seq<Event>, id: int, key: string, i: int)
    requires ev != [] && i < |ev| - 1
    ensures WatchHolds(ev, id, key, i) <==>
            WatchHolds(ev[..|ev| - 1], id, key, i) && ev[|ev| - 1] != Cleared(id)
  {
    var before := ev[..|ev| - 1];
    if WatchHolds(ev, id, key, i) {
      assert forall j :: i < j < |before| ==> before[j] == ev[j];
    }
  }

  /** The watched keys are the ones with a watch that holds. */
  lemma {:induction false} TrackedWatches(ev: seq<Event>, id: int, key: string)
    ensures key in Track(ev, id).watched <==> exists i :: WatchHolds(ev, id, key, i)
  {
    if ev != [] {
      var before, last := ev[..|ev| - 1], ev[|ev| - 1];
      TrackedWatches(before, id, key);
      if i :| WatchHolds(ev, id, key, i) && i < |before| {
        WatchHoldsBefore(ev, id, key, i);
      }
      if last == Watched(id, key) {
        assert WatchHolds(ev, id, key, |before|);
      } else if last != Cleared(id) && key in Track(before, id).watched {
        var i :| WatchHolds(before, id, key, i);
        WatchHoldsBefore(ev, id, key, i);
      }
    }
  }

  lemma TouchedBefore(ev: seq<Event>, id: int)
    requires ev != [] && Touched(ev, id) && !Touched(ev[..|ev| - 1], id)
    ensures ev[|ev| - 1].Wrote? && ev[|ev| - 1].key in Track(ev[..|ev| - 1], id).watched
  {
    var before, last := ev[..|ev| - 1], ev[|ev| - 1];
    assert forall m :: 0 <= m < |before| ==> before[m] == ev[m];
    var i, j, key :| 0 <= i < j < |ev| && WatchHolds(ev, id, key, i) && ev[j] == Wrote(key);
    WatchHoldsBefore(ev, id, key, i);
    assert j == |before|;
    TrackedWatches(before, id, key);
  }

  lemma TouchedAfter(ev: seq<Event>, id: int)
    requires ev != [] && ev[|ev| - 1] != Cleared(id)
    requires || Touched(ev[..|ev| - 1], id)
             || (ev[|ev| - 1].Wrote? && ev[|ev| - 1].key in Track(ev[..|ev| - 1], id).watched)
    ensures Touched(ev, id)
  {
    var before, last := ev[..|ev| - 1], ev[|ev| - 1];
    if Touched(before, id) {
      var i, j, key :| 0 <= i < j < |before| && WatchHolds(before, id, key, i) && before[j] == Wrote(key);
      WatchHoldsBefore(ev, id, key, i);
      assert ev[j] == Wrote(key);
    } else {
      TrackedWatches(before, id, last.key);
      var i :| WatchHolds(before, id, last.key, i);
      WatchHoldsBefore(ev, id, last.key, i);
      assert ev[|before|] == Wrote(last.key);
    }
  }

  lemma ClearedIsUntouched(ev: seq<Event>, id: int)
    requires ev != [] && ev[|ev| - 1] == Cleared(id)
    ensures !Touched(ev, id)
  {
  }

  /** The dirty flag is what the events say it should be. */
  lemma {:induction false} TrackedDirty(ev: seq<Event>, id: int)
    ensures Track(ev, id).dirty <==> Touched(ev, id)
  {
    if ev != [] {
      var before, last := ev[..|ev| - 1], ev[|ev| - 1];
      TrackedDirty(before, id);
      if last == Cleared(id) {
        ClearedIsUntouched(ev, id);
      } else {
        if Track(ev, id).dirty {
          TouchedAfter(ev, id);
        }
        if Touched(ev, id) && !Touched(before, id) {
          TouchedBefore(ev, id);
        }
      }
    }
  }

  // ---------------------------------------------------------------------------------------
  // The invariant of every reachable state
  // ---------------------------------------------------------------------------------------

  predicate NoRepeat(ids: seq<int>) {
    forall i, j :: 0 <= i < j < |ids| ==> ids[i] != ids[j]
  }

  /** Watcher lists are duplicate-free and name only ids given out so far; a live client is on the
      list of a key exactly when it watches the key. */
  ghost predicate IndexOk(s: Server) {
    && (forall id :: id in s.clients ==> id < s.nextId)
    && (forall k :: k in s.watchers ==> NoRepeat(s.watchers[k]))
    && (forall k, id :: k in s.watchers && id in s.watchers[k] ==> id < s.nextId)
    && (forall id, k :: id in s.clients ==> (k in s.clients[id].watched <==> id in WatchersOf(s.watchers, k)))
  }

  /** What the server keeps for a client is what the events say. */
  ghost predicate Agrees(s: Server, ev: seq<Event>) {
    forall id :: id in s.clients ==> Tracked(s.clients[id].watched, s.clients[id].dirty) == Track(ev, id)
  }

  /** The events name no client that is still to come. */
  ghost predicate OldEvents(s: Server, ev: seq<Event>) {
    forall e :: e in ev ==> (e.Watched? ==> e.id < s.nextId) && (e.Cleared? ==> e.id < s.nextId)
  }

  ghost predicate Inv(s: Server, ev: seq<Event>) {
    IndexOk(s) && Agrees(s, ev) && OldEvents(s, ev)
  }

  /** `t` is `s` up to modes, queues, the store and the log. */
  ghost predicate SameWatches(s: Server, t: Server) {
    && s.watchers == t.watchers && s.nextId == t.nextId && s.clients.Keys == t.clients.Keys
    && forall id :: id in s.clients ==>
      s.clients[id].watched == t.clients[id].watched && s.clients[id].dirty == t.clients[id].dirty
  }

  lemma SameWatchesKeepsInv(s: Server, t: Server, ev: seq<Event>)
    requires Inv(s, ev) && SameWatches(s, t)
    ensures Inv(t, ev)
  {
  }

  lemma TrackAppend(ev: seq<Event>, e: Event, id: int)
    ensures Track(ev + [e], id) == TrackOne(Track(ev, id), e, id)
  {
    assert (ev + [e])[..|ev|] == ev;
  }

  lemma WatchKeyIndex(s: Server, id: int, key: string)
    requires IndexOk(s) && id in s.clients
    ensures IndexOk(WatchKey(s, id, key))
  {
    var t := WatchKey(s, id, key);
    assert forall k :: k != key ==> WatchersOf(t.watchers, k) == WatchersOf(s.watchers, k);
  }

  lemma WatchKeyInv(s: Server, id: int, key: string, ev: seq<Event>)
    requires Inv(s, ev) && id in s.clients
    ensures Inv(WatchKey(s, id, key), ev + [Watched(id, key)])
  {
    WatchKeyIndex(s, id, key);
    var t := WatchKey(s, id, key);
    forall i | i in t.clients
      ensures Tracked(t.clients[i].watched, t.clients[i].dirty) == Track(ev + [Watched(id, key)], i)
    {
      TrackAppend(ev, Watched(id, key), i);
    }
  }

  lemma {:induction false} WatchKeysInv(s: Server, id: int, keys: seq<string>, ev: seq<Event>)
    requires Inv(s, ev) && id in s.clients
    ensures Inv(WatchKeys(s, id, keys), ev + WatchEvents(id, keys))
  {
    if keys == [] {
      assert ev + [] == ev;
    } else {
      var before, last := keys[..|keys| - 1], keys[|keys| - 1];
      WatchKeysInv(s, id, before, ev);
      WatchKeyInv(WatchKeys(s, id, before), id, last, ev + WatchEvents(id, before));
      assert ev + WatchEvents(id, keys) == (ev + WatchEvents(id, before)) + [Watched(id, last)];
    }
  }

  lemma {:induction false} WithoutMembers(ids: seq<int>, id: int)
    requires NoRepeat(ids)
    ensures forall i :: i in Without(ids, id) <==> i in ids && i != id
    ensures NoRepeat(Without(ids, id))
  {
    if ids != [] {
      assert ids == [ids[0]] + ids[1..];
      if ids[0] != id {
        WithoutMembers(ids[1..], id);
        assert forall j :: 0 <= j < |ids| - 1 ==> ids[1..][j] == ids[j + 1];
        assert ids[0] !in Without(ids[1..], id);
      } else {
        assert id !in ids[1..];
      }
    }
  }

  lemma UnwatchLists(s: Server, id: int, k: string)
    requires IndexOk(s) && id in s.clients
    ensures forall i :: i in WatchersOf(Unwatch(s, id).watchers, k) <==> i in WatchersOf(s.watchers, k) && i != id
    ensures NoRepeat(WatchersOf(Unwatch(s, id).watchers, k))
  {
    if k in s.watchers {
      WithoutMembers(s.watchers[k], id);
    }
  }

  lemma UnwatchIndex(s: Server, id: int)
    requires IndexOk(s) && id in s.clients
    ensures IndexOk(Unwatch(s, id))
  {
    var t := Unwatch(s, id);
    forall k
      ensures forall i :: i in WatchersOf(t.watchers, k) <==> i in WatchersOf(s.watchers, k) && i != id
      ensures k in t.watchers ==> NoRepeat(t.watchers[k])
    {
      UnwatchLists(s, id, k);
    }
    assert forall i, k :: k in t.watchers && i in t.watchers[k] ==> i in WatchersOf(t.watchers, k);
  }

  lemma UnwatchInv(s: Server, id: int, ev: seq<Event>)
    requires Inv(s, ev) && id in s.clients
    ensures Inv(Unwatch(s, id), ev + [Cleared(id)])
  {
    var t := Unwatch(s, id);
    UnwatchIndex(s, id);
    forall i | i in t.clients
      ensures Tracked(t.clients[i].watched, t.clients[i].dirty) == Track(ev + [Cleared(id)], i)
    {
      TrackAppend(ev, Cleared(id), i);
    }
  }

  lemma MarkDirtyInv(s: Server, key: string, ev: seq<Event>)
    requires Inv(s, ev)
    ensures Inv(MarkDirty(s, key), ev + [Wrote(key)])
  {
    var t := MarkDirty(s, key);
    assert IndexOk(t);
    forall i | i in t.clients
      ensures Tracked(t.clients[i].watched, t.clients[i].dirty) == Track(ev + [Wrote(key)], i)
    {
      TrackAppend(ev, Wrote(key), i);
    }
  }

  // ---------------------------------------------------------------------------------------
  // Every step keeps it
  // ---------------------------------------------------------------------------------------

  lemma NoEvents(ev: seq<Event>)
    ensures ev + [] == ev
  {
  }

  lemma JoinEvents(s: Server, ev: seq<Event>, a: seq<Event>, b: seq<Event>)
    requires Inv(s, (ev + a) + b)
    ensures Inv(s, ev + (a + b))
  {
    assert ev + (a + b) == (ev + a) + b;
  }

  lemma RunOnStoreInv(s: Server, c: Cmd, args: seq<string>, env: Env, ev: seq<Event>, r: Answered)
    requires Inv(s, ev) && ArityOk(c, |args|) && r == RunOnStore(s, c, args, env)
    ensures Inv(r.server, ev + r.events)
  {
    OutcomeInv(s, c, args, Handle(c, args, env, s.data), ev, r);
  }

  lemma OutcomeInv(s: Server, c: Cmd, args: seq<string>, o: Outcome, ev: seq<Event>, r: Answered)
    requires Inv(s, ev) && (IsWrite(c) ==> args != [])
    requires o.Failed? ==> r == Answered(s, [], None)
    requires o.Done? && IsWrite(c) ==>
      r == Answered(MarkDirty(s.(data := o.data), args[0]), [Wrote(args[0])], Some(o.reply))
    requires o.Done? && !IsWrite(c) ==> r == Answered(s.(data := o.data), [], Some(o.reply))
    ensures Inv(r.server, ev + r.events)
  {
    NoEvents(ev);
    if o.Done? {
      var t := s.(data := o.data);
      SameWatchesKeepsInv(s, t, ev);
      if IsWrite(c) {
        MarkDirtyInv(t, args[0], ev);
      }
    }
  }

  lemma ModeChangeInv(s: Server, id: int, mode: Mode, queue: seq<Request>, ev: seq<Event>)
    requires Inv(s, ev) && id in s.clients
    ensures Inv(s.(clients := s.clients[id := s.clients[id].(mode := mode, queue := queue)]), ev)
  {
    var t := s.(clients := s.clients[id := s.clients[id].(mode := mode, queue := queue)]);
    SameWatchesKeepsInv(s, t, ev);
  }

  lemma ResetInv(s: Server, id: int, ev: seq<Event>)
    requires Inv(s, ev) && id in s.clients
    ensures Inv(Reset(s, id), ev + [Cleared(id)])
  {
    UnwatchInv(s, id, ev);
    ModeChangeInv(Unwatch(s, id), id, Normal, [], ev + [Cleared(id)]);
    assert Reset(s, id).clients == Unwatch(s, id).clients[id := Unwatch(s, id).clients[id].(mode := Normal, queue := [])];
  }

  predicate OnSession(c: Cmd) { c in {WATCH, UNWATCH, MULTI, DISCARD, SUBSCRIBE} }

  lemma RunSessionInv(s: Server, id: int, c: Cmd, args: seq<string>, env: Env, ev: seq<Event>, r: Answered)
    requires Inv(s, ev) && id in s.clients && ArityOk(c, |args|) && OnSession(c)
    requires r == RunHandler(s, id, c, args, env)
    ensures Inv(r.server, ev + r.events)
  {
    NoEvents(ev);
    match c {
      case WATCH => WatchKeysInv(s, id, args, ev);
      case UNWATCH => UnwatchInv(s, id, ev);
      case MULTI => ModeChangeInv(s, id, Transaction, s.clients[id].queue, ev);
      case DISCARD => ResetInv(s, id, ev);
      case SUBSCRIBE => ModeChangeInv(s, id, Subscribed, s.clients[id].queue, ev);
    }
  }

  lemma RunHandlerInv(s: Server, id: int, c: Cmd, args: seq<string>, env: Env, ev: seq<Event>, r: Answered)
    requires Inv(s, ev) && id in s.clients && ArityOk(c, |args|) && r == RunHandler(s, id, c, args, env)
    ensures Inv(r.server, ev + r.events)
  {
    if OnSession(c) {
      RunSessionInv(s, id, c, args, env, ev, r);
    } else {
      RunOnStoreInv(s, c, args, env, ev, r);
    }
  }

  lemma ExecuteInv(s: Server, id: int, req: Request, env: Env, ev: seq<Event>)
    requires Inv(s, ev) && id in s.clients
    ensures var r := Execute(s, id, req, env); Inv(r.server, ev + r.events)
  {
    NoEvents(ev);
    var entry := Lookup(req.command);
    if entry.Some? && ArityOk(entry.value, |req.args|) {
      if !Transactional(entry.value) && s.clients[id].mode == Transaction {
        ModeChangeInv(s, id, Transaction, s.clients[id].queue + [req], ev);
      } else {
        RunHandlerInv(s, id, entry.value, req.args, env, ev, RunHandler(s, id, entry.value, req.args, env));
      }
    }
  }

  lemma ExecuteAfter(before: Ran, id: int, req: Request, env: Env, ev: seq<Event>) returns (last: Answered)
    requires id in before.server.clients && Inv(before.server, ev + before.events)
    ensures last == Execute(before.server, id, req, env) && Inv(last.server, ev + (before.events + last.events))
  {
    last := Execute(before.server, id, req, env);
    ExecuteInv(before.server, id, req, env, ev + before.events);
    JoinEvents(last.server, ev, before.events, last.events);
  }

  lemma {:induction false} RunQueueInv(s: Server, id: int, queue: seq<Request>, env: Env, ev: seq<Event>)
    requires Inv(s, ev) && id in s.clients
    ensures var r := RunQueue(s, id, queue, env); Inv(r.server, ev + r.events)
  {
    NoEvents(ev);
    if queue != [] {
      var before := RunQueue(s, id, queue[..|queue| - 1], env);
      RunQueueInv(s, id, queue[..|queue| - 1], env, ev);
      var last := ExecuteAfter(before, id, queue[|queue| - 1], env, ev);
    }
  }

  lemma ExecInv(s: Server, id: int, env: Env, ev: seq<Event>)
    requires Inv(s, ev) && id in s.clients
    ensures match Exec(s, id, env)
            case Aborted(t) => Inv(t, ev + [Cleared(id)])
            case Executed(ran) => Inv(ran.server, ev + ([Cleared(id)] + ran.events))
  {
    ResetInv(s, id, ev);
    if !s.clients[id].dirty {
      RunQueueInv(Reset(s, id), id, s.clients[id].queue, env, ev + [Cleared(id)]);
      var ran := RunQueue(Reset(s, id), id, s.clients[id].queue, env);
      JoinEvents(ran.server, ev, [Cleared(id)], ran.events);
    }
  }

  /** A client that connects has an id no event and no watcher list has named. */
  lemma {:induction false} NewcomerIsUntracked(ev: seq<Event>, id: int)
    requires forall e :: e in ev ==> (e.Watched? ==> e.id < id) && (e.Cleared? ==> e.id < id)
    ensures Track(ev, id) == Tracked({}, false)
  {
    if ev != [] {
      NewcomerIsUntracked(ev[..|ev| - 1], id);
    }
  }

  lemma ConnectInv(s: Server, ev: seq<Event>)
    requires Inv(s, ev)
    ensures Inv(s.(clients := s.clients[s.nextId := NEW_CLIENT], nextId := s.nextId + 1), ev)
  {
    NewcomerIsUntracked(ev, s.nextId);
  }

  lemma StepInv(s: Server, l: Label, ev: seq<Event>)
    requires Inv(s, ev) && Enabled(s, l)
    ensures var r := Step(s, l); Inv(r.server, ev + r.events)
  {
    NoEvents(ev);
    match l {
      case Connect => ConnectInv(s, ev);
      case Close(id) =>
      case Command(id, req, env) =>
        if s.clients[id].mode == Subscribed && !SubscribedMayRun(req.command) {
        } else if req.command == "exec" {
          if s.clients[id].mode == Transaction {
            ExecInv(s, id, env, ev);
          }
        } else {
          var a := Execute(s, id, req, env);
          ExecuteInv(s, id, req, env, ev);
          SameWatchesKeepsInv(a.server, Logged(a.server, req), ev + a.events);
        }
    }
  }

  // ---------------------------------------------------------------------------------------
  // Runs
  // ---------------------------------------------------------------------------------------

  function Start(data: Data): Server { Server(map[], map[], 1, data, []) }

  /** The state after a run, and everything it did. A label that is not enabled does not happen. */
  function Run(s: Server, ls: seq<Label>): Stepped {
    if ls == [] then Stepped(s, []) else
      var before := Run(s, ls[..|ls| - 1]);
      if !Enabled(before.server, ls[|ls| - 1]) then before else
        var last := Step(before.server, ls[|ls| - 1]);
        Stepped(last.server, before.events + last.events)
  }

  /** In every reachable state: watcher lists are duplicate-free, a live client is on a key's list
      exactly when it watches the key, no list names an id yet to be given out, and watches and
      dirty flags are what the events of the run say. */
  lemma {:induction false} ReachableInv(data: Data, ls: seq<Label>)
    ensures var r := Run(Start(data), ls); Inv(r.server, r.events)
  {
    if ls != [] {
      ReachableInv(data, ls[..|ls| - 1]);
      var before := Run(Start(data), ls[..|ls| - 1]);
      if Enabled(before.server, ls[|ls| - 1]) {
        StepInv(before.server, ls[|ls| - 1], before.events);
      }
    }
  }

  /** EXEC aborts exactly when a successful write, run directly or inside an EXEC, named a key the
      client had watched, after the watch and with no clearing since. */
  lemma AbortsExactlyWhenTouched(data: Data, ls: seq<Label>, id: int, env: Env)
    requires id in Run(Start(data), ls).server.clients
    ensures var r := Run(Start(data), ls);
            Exec(r.server, id, env).Aborted? <==> Touched(r.events, id)
  {
    ReachableInv(data, ls);
    TrackedDirty(Run(Start(data), ls).events, id);
  }
}
