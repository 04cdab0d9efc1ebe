/** A replica consuming the stream of its master: its store, its offset and its acknowledgements. */
module Replication {
  import opened Text
  import opened Parsing
  import opened Keyspace
  import opened Commands
  import opened Transactions
  import opened Resp
  import opened Aof
  import opened Isolation
  import opened History
  import opened Replay
  import opened Logs
  import opened Orderly

  /** What the replica keeps: the one internal client of the link to the master, whose mode lives on
      from command to command, the watcher lists, the store, the offset, and the offsets it has
      reported, oldest first. */
  datatype Replica = Replica(client: Client, watchers: map<string, seq<int>>, data: Data, offset: nat, acks: seq<nat>)

  function NewReplica(data: Data): Replica { Replica(NEW_CLIENT, map[], data, 0, []) }

  /** The server as the link sees it. */
  function NodeOf(r: Replica): Server { Server(map[LINK := r.client], r.watchers, LINK + 1, r.data, []) }

  /** A request written back the way the replica measures it. */
  function RequestBytes(args: seq<string>): nat
    requires args != []
  {
    |Resp.Command([ToUpper(ToLower(args[0]))] + args[1..])|
  }

  predicate IsGetAck(args: seq<string>) {
    |args| == 3 && ToLower(args[0]) == "replconf" && ToUpper(args[1]) == "GETACK"
  }

  /** What executing a command for the link gives; None is an error. */
  function Performed(r: Replica, args: seq<string>, env: Env): (t: Option<Server>)
    requires args != []
    ensures t.Some? ==> LINK in t.value.clients
  {
    var a := Execute(NodeOf(r), LINK, AsRequest(args), env);
    if a.reply == None then None else Some(a.server)
  }

  /** One command of the stream, when executing it gives `done`: answer a GETACK with the offset so
      far, or take the new state; then count the bytes. None is an error of `Execute`, which ends the
      replication. */
  function Account(r: Replica, args: seq<string>, done: Option<Server>): Option<Replica>
    requires args != [] && (done.Some? ==> LINK in done.value.clients)
  {
    if IsGetAck(args) then Some(r.(acks := r.acks + [r.offset], offset := r.offset + RequestBytes(args)))
    else match done
      case None => None
      case Some(s) =>
        Some(r.(client := s.clients[LINK], watchers := s.watchers, data := s.data,
                offset := r.offset + RequestBytes(args)))
  }

  function Consume(r: Replica, args: seq<string>, env: Env): Option<Replica>
    requires args != []
  {
    Account(r, args, Performed(r, args, env))
  }

  /** `ParseRequest`. */
  function ParseRequest(stream: string): (p: Read<seq<string>>)
    ensures p.Ok? ==> p.value != [] && |p.rest| < |stream|
  {
    if stream == "" then Fail(Eof)
    else if stream[0] != '*' then Fail(Malformed)
    else match ReadArray(stream)
      case Fail(e) => Fail(e)
      case Ok(args, rest) => if args == [] then Fail(Malformed) else Ok(args, rest)
  }

  /** The loop of `processMasterCommands`: everything up to the first error. */
  function Process(stream: string, r: Replica, env: Env): Replica
    decreases |stream|
  {
    match ParseRequest(stream)
    case Fail(_) => r
    case Ok(args, rest) =>
      match Consume(r, args, env)
      case None => r
      case Some(r') => Process(rest, r', env)
  }

  // ---------------------------------------------------------------------------------------
  // Offsets
  // ---------------------------------------------------------------------------------------

  predicate Ascii(s: string) { forall i :: 0 <= i < |s| ==> s[i] as int < 128 }

  /** A command as a master writes it, with an ASCII name. */
  ghost predicate Canonical(c: seq<string>) { c != [] && Fits(c) && Ascii(c[0]) }

  ghost predicate AllCanonical(cs: seq<seq<string>>) { forall c :: c in cs ==> Canonical(c) }

  /** The replica as a step function over commands. */
  function Consumer(env: Env): (Replica, seq<string>) -> Option<Replica> {
    (r, args) => if args == [] then None else Consume(r, args, env)
  }

  /** The commands completed before one fails. */
  function Completed(cs: seq<seq<string>>, r: Replica, env: Env): (k: nat)
    ensures k <= |cs|
  {
    Steps(cs, r, Consumer(env))
  }

  /** A request of the master for the offset, in any letter case. */
  predicate AsksForOffset(args: seq<string>) {
    |args| == 3 && InAnyCase(args[0], "replconf") && InAnyCase(args[1], "getack")
  }

  lemma GetAckAsksForOffset(args: seq<string>)
    ensures IsGetAck(args) <==> AsksForOffset(args)
  {
    if |args| == 3 {
      LowerInAnyCase(args[0], "replconf");
      UpperInAnyCase(args[1], "getack", "GETACK");
    }
  }

  /** The bytes before each request for the offset, of a stream that starts at byte `from`. */
  function BytesBeforeGetAcks(cs: seq<seq<string>>, from: nat): seq<nat> {
    if cs == [] then [] else
      var before, last := cs[..|cs| - 1], cs[|cs| - 1];
      BytesBeforeGetAcks(before, from) + if AsksForOffset(last) then [from + |Resp.Commands(before)|] else []
  }

  lemma {:induction false} ElemsLength(a: seq<string>, b: seq<string>)
    requires |a| == |b| && forall i :: 0 <= i < |a| ==> |a[i]| == |b[i]|
    ensures |Elems(a)| == |Elems(b)|
  {
    if a != [] {
      assert forall i :: 0 <= i < |a| - 1 ==> |a[1..][i]| == |b[1..][i]|;
      ElemsLength(a[1..], b[1..]);
    }
  }

  /** Writing a request back in upper case takes as many bytes as it came in. */
  lemma RequestBytesIsLength(c: seq<string>)
    requires c != []
    ensures RequestBytes(c) == |Resp.Command(c)|
  {
    ElemsLength([ToUpper(ToLower(c[0]))] + c[1..], c);
  }

  lemma ParseCanonical(c: seq<string>, rest: string)
    requires Canonical(c)
    ensures ParseRequest(Resp.Command(c) + rest) == Ok(c, rest)
  {
    RoundTrip(c, rest);
    assert (Resp.Command(c) + rest)[0] == '*';
  }

  lemma ProcessStep(c: seq<string>, rest: string, r: Replica, env: Env)
    requires Canonical(c)
    ensures Process(Resp.Command(c) + rest, r, env) ==
            match Consume(r, c, env) case None => r case Some(r') => Process(rest, r', env)
  {
    ParseCanonical(c, rest);
  }

  lemma ConsumeCounts(r: Replica, c: seq<string>, env: Env, r': Replica)
    requires c != [] && Consume(r, c, env) == Some(r')
    ensures r'.offset == r.offset + |Resp.Command(c)|
    ensures r'.acks == r.acks + (if AsksForOffset(c) then [r.offset] else [])
  {
    RequestBytesIsLength(c);
    GetAckAsksForOffset(c);
  }

  /** The replica answers every request for its offset, whatever its letter case, with the offset before it,
      and does nothing else but count its bytes. */
  lemma GetAckIsAnswered(r: Replica, c: seq<string>, env: Env)
    requires |c| == 3 && InAnyCase(c[0], "replconf") && InAnyCase(c[1], "getack")
    ensures Consume(r, c, env) == Some(r.(acks := r.acks + [r.offset], offset := r.offset + |Resp.Command(c)|))
  {
    RequestBytesIsLength(c);
    GetAckAsksForOffset(c);
  }

  /** It answers nothing else. */
  lemma OthersAreNotAnswered(r: Replica, c: seq<string>, env: Env)
    requires c != [] && !(|c| == 3 && InAnyCase(c[0], "replconf") && InAnyCase(c[1], "getack"))
    ensures Consume(r, c, env).Some? ==>
      && Consume(r, c, env).value.acks == r.acks
      && Consume(r, c, env).value.offset == r.offset + |Resp.Command(c)|
  {
    if Consume(r, c, env).Some? {
      ConsumeCounts(r, c, env, Consume(r, c, env).value);
    }
  }

  /** The loop over the bytes of canonical commands is the one over the commands. */
  lemma {:induction false} ProcessIsReplaying(cs: seq<seq<string>>, r: Replica, env: Env)
    requires AllCanonical(cs)
    ensures Process(Resp.Commands(cs), r, env) == Replaying(cs, r, Consumer(env)).state
  {
    if cs != [] {
      assert Canonical(cs[0]);
      ProcessStep(cs[0], Resp.Commands(cs[1..]), r, env);
      var next := Consume(r, cs[0], env);
      if next.Some? {
        ProcessIsReplaying(cs[1..], next.value, env);
      }
    }
  }

  /** Where the replica is after a stream: in the state that the completed commands make, and stopped
      only by one that fails there. */
  lemma StreamEnds(cs: seq<seq<string>>, r: Replica, env: Env)
    requires AllCanonical(cs)
    ensures var k, p := Completed(cs, r, env), Process(Resp.Commands(cs), r, env);
            Applied(cs[..k], r, Consumer(env)) == Some(p) && (k < |cs| ==> cs[k] != [] && Consume(p, cs[k], env) == None)
  {
    ProcessIsReplaying(cs, r, env);
    ReplayingStops(cs, r, Consumer(env));
    assert forall i :: 0 <= i < |cs| ==> Canonical(cs[i]);
  }

  /** What the offset and the acknowledgements are after the commands `cs`. */
  ghost predicate Counted(cs: seq<seq<string>>, r: Replica, p: Replica) {
    && p.offset == r.offset + |Resp.Commands(cs)|
    && p.acks == r.acks + BytesBeforeGetAcks(cs, r.offset)
  }

  lemma {:induction false} CommandsAppend(cs: seq<seq<string>>, c: seq<string>)
    ensures |Resp.Commands(cs + [c])| == |Resp.Commands(cs)| + |Resp.Command(c)|
  {
    if cs == [] {
      assert cs + [c] == [c] && [c][1..] == [];
    } else {
      CommandsAppend(cs[1..], c);
      assert (cs + [c])[1..] == cs[1..] + [c];
    }
  }

  lemma CountOneMore(before: seq<seq<string>>, c: seq<string>, cs: seq<seq<string>>, r: Replica, q: Replica, p: Replica)
    requires cs == before + [c] && Counted(before, r, q)
    requires p.offset == q.offset + |Resp.Command(c)|
    requires p.acks == q.acks + (if AsksForOffset(c) then [q.offset] else [])
    ensures Counted(cs, r, p)
  {
    var acks, more := BytesBeforeGetAcks(before, r.offset), if AsksForOffset(c) then [q.offset] else [];
    CommandsAppend(before, c);
    assert cs[..|cs| - 1] == before;
    assert (r.acks + acks) + more == r.acks + (acks + more);
  }

  /** A step function that counts the bytes of what it consumes and answers each GETACK. */
  ghost predicate Counting(f: (Replica, seq<string>) -> Option<Replica>) {
    forall q, c :: f(q, c).Some? ==>
      && f(q, c).value.offset == q.offset + |Resp.Command(c)|
      && f(q, c).value.acks == q.acks + if AsksForOffset(c) then [q.offset] else []
  }

  lemma ConsumerCounts(env: Env)
    ensures Counting(Consumer(env))
  {
    forall q, c | Consumer(env)(q, c).Some?
      ensures Consumer(env)(q, c).value.offset == q.offset + |Resp.Command(c)|
      ensures Consumer(env)(q, c).value.acks == q.acks + if AsksForOffset(c) then [q.offset] else []
    {
      ConsumeCounts(q, c, env, Consumer(env)(q, c).value);
    }
  }

  lemma {:induction false} CountApplied(cs: seq<seq<string>>, r: Replica, p: Replica, f: (Replica, seq<string>) -> Option<Replica>)
    requires Counting(f) && Applied(cs, r, f) == Some(p)
    ensures Counted(cs, r, p)
  {
    if cs == [] {
      assert r.acks + [] == r.acks;
    } else {
      var before, c := cs[..|cs| - 1], cs[|cs| - 1];
      var q := Applied(before, r, f).value;
      CountApplied(before, r, q, f);
      assert cs == before + [c];
      CountOneMore(before, c, cs, r, q, p);
    }
  }

  /** Over any canonical stream, the offset is the bytes of the completed commands, and every
      acknowledgement reports the bytes before its GETACK. */
  lemma OffsetsAreBytes(cs: seq<seq<string>>, r: Replica, env: Env)
    requires AllCanonical(cs)
    ensures Counted(cs[..Completed(cs, r, env)], r, Process(Resp.Commands(cs), r, env))
  {
    StreamEnds(cs, r, env);
    ConsumerCounts(env);
    CountApplied(cs[..Completed(cs, r, env)], r, Process(Resp.Commands(cs), r, env), Consumer(env));
  }

  // ---------------------------------------------------------------------------------------
  // The store
  // ---------------------------------------------------------------------------------------

  /** The commands of a stream that reach the store: not the GETACKs, and nothing from a MULTI to its
      DISCARD, which the link queues for good, EXEC being no handler. `open` says that a MULTI is. */
  function Effective(cs: seq<seq<string>>, open: bool): seq<seq<string>> {
    if cs == [] then []
    else if cs[0] == [] then Effective(cs[1..], open)
    else
      var name := ToLower(cs[0][0]);
      if IsGetAck(cs[0]) then Effective(cs[1..], open)
      else if open then Effective(cs[1..], name != "discard")
      else if name == "multi" then Effective(cs[1..], true)
      else [cs[0]] + Effective(cs[1..], false)
  }

  /** Inside MULTI nothing reaches the store, and only DISCARD ends it. */
  lemma PerformedQueued(r: Replica, c: seq<string>, env: Env, t: Option<Server>)
    requires c != [] && r.client.mode == Transaction && t == Performed(r, c, env) && t.Some?
    ensures t.value.data == r.data
    ensures t.value.clients[LINK].mode == Transaction <==> ToLower(c[0]) != "discard"
  {
    var entry := Lookup(ToLower(c[0]));
    if entry.Some? {
      Names(ToLower(c[0]), entry.value);
    }
  }

  /** Outside it, a command that works on the session leaves the store. */
  lemma PerformedOnSession(r: Replica, c: seq<string>, env: Env, cmd: Cmd, t: Option<Server>)
    requires c != [] && r.client.mode != Transaction && t == Performed(r, c, env)
    requires Lookup(ToLower(c[0])) == Some(cmd) && OnSession(cmd) && ArityOk(cmd, |c| - 1)
    ensures t == None <==> cmd == DISCARD
    ensures t.Some? ==> t.value.data == r.data && (t.value.clients[LINK].mode == Transaction <==> cmd == MULTI)
  {
    var s := NodeOf(r);
    var a := Execute(s, LINK, AsRequest(c), env);
    RunSessionWatches(s, LINK, cmd, c[1..], env, LINK, a);
    RunSessionModes(s, LINK, cmd, c[1..], env, LINK, a);
  }

  /** A command that works on the store does what replaying it does. */
  lemma PerformedOnStore(r: Replica, c: seq<string>, env: Env, cmd: Cmd, t: Option<Server>)
    requires c != [] && r.client.mode != Transaction && t == Performed(r, c, env)
    requires Lookup(ToLower(c[0])) == Some(cmd) && !OnSession(cmd) && ArityOk(cmd, |c| - 1)
    ensures ReplayCommand(r.data, c, env) == if t == None then None else Some(t.value.data)
    ensures t.Some? ==> t.value.clients[LINK].mode != Transaction
  {
    var s := NodeOf(r);
    var a := Execute(s, LINK, AsRequest(c), env);
    ExecuteOnStore(s, LINK, AsRequest(c), env, cmd);
    OnStoreReplies(s, cmd, c[1..], env, a);
    RunOnStoreClients(s, cmd, c[1..], env, LINK, a);
    ReplayOnStore(r.data, c, env, cmd);
  }

  /** One that works on the session does to the store what replaying it does: nothing. */
  lemma ReplayOnSession(data: Data, c: seq<string>, env: Env, cmd: Cmd)
    requires c != [] && Lookup(ToLower(c[0])) == Some(cmd) && OnSession(cmd) && ArityOk(cmd, |c| - 1)
    ensures ReplayCommand(data, c, env) == if cmd == DISCARD then None else Some(data)
  {
    var s := Lone(data);
    RunSessionWatches(s, LINK, cmd, c[1..], env, LINK, Execute(s, LINK, AsRequest(c), env));
  }

  /** Outside MULTI, the link does to the store what a new client would. */
  lemma PerformedReplays(r: Replica, c: seq<string>, env: Env, t: Option<Server>)
    requires c != [] && r.client.mode != Transaction && t == Performed(r, c, env)
    ensures ReplayCommand(r.data, c, env) == if t == None then None else Some(t.value.data)
    ensures t.Some? ==> (t.value.clients[LINK].mode == Transaction <==> ToLower(c[0]) == "multi")
  {
    var cmd := Lookup(ToLower(c[0]));
    if cmd.Some? && ArityOk(cmd.value, |c| - 1) {
      Names(ToLower(c[0]), cmd.value);
      if OnSession(cmd.value) {
        PerformedOnSession(r, c, env, cmd.value, t);
        ReplayOnSession(r.data, c, env, cmd.value);
      } else {
        PerformedOnStore(r, c, env, cmd.value, t);
      }
    }
  }

  lemma MultiKeepsStore(r: Replica, c: seq<string>, env: Env, t: Option<Server>)
    requires c != [] && r.client.mode != Transaction && ToLower(c[0]) == "multi" && t == Performed(r, c, env) && t.Some?
    ensures t.value.data == r.data
  {
  }

  /** One command of a stream, seen from the store. */
  lemma ConsumedStore(cs: seq<seq<string>>, r: Replica, env: Env, r': Replica)
    requires cs != [] && cs[0] != [] && Consume(r, cs[0], env) == Some(r')
    ensures var open, open' := r.client.mode == Transaction, r'.client.mode == Transaction;
            || (Effective(cs, open) == Effective(cs[1..], open') && r'.data == r.data)
            || (&& Effective(cs, open) == [cs[0]] + Effective(cs[1..], open')
                && ReplayCommand(r.data, cs[0], env) == Some(r'.data))
  {
    if !IsGetAck(cs[0]) {
      var t := Performed(r, cs[0], env);
      if r.client.mode == Transaction {
        PerformedQueued(r, cs[0], env, t);
      } else {
        PerformedReplays(r, cs[0], env, t);
        if ToLower(cs[0][0]) == "multi" {
          MultiKeepsStore(r, cs[0], env, t);
        }
      }
    }
  }

  lemma {:induction false} EffectiveReplays(cs: seq<seq<string>>, r: Replica, p: Replica, env: Env)
    requires Applied(cs, r, Consumer(env)) == Some(p)
    ensures Replayed(Effective(cs, r.client.mode == Transaction), r.data, env) == Some(p.data)
  {
    if cs != [] {
      AppliedFromFront(cs, r, Consumer(env));
      var r' := Consume(r, cs[0], env).value;
      EffectiveReplays(cs[1..], r', p, env);
      ConsumedStore(cs, r, env, r');
      ReplayedCons(cs[0], Effective(cs[1..], r'.client.mode == Transaction), r.data, env);
    }
  }

  /** On any stream, the replica's store is what the effective ones of the completed commands make in
      order. */
  lemma ReplicaReplays(cs: seq<seq<string>>, r: Replica, env: Env)
    requires AllCanonical(cs)
    ensures Replayed(Effective(cs[..Completed(cs, r, env)], r.client.mode == Transaction), r.data, env) ==
            Some(Process(Resp.Commands(cs), r, env).data)
  {
    StreamEnds(cs, r, env);
    EffectiveReplays(cs[..Completed(cs, r, env)], r, Process(Resp.Commands(cs), r, env), env);
  }

  // ---------------------------------------------------------------------------------------
  // Streams of writes and GETACKs
  // ---------------------------------------------------------------------------------------

  /** The commands of a stream without its GETACKs. */
  function Writes(cs: seq<seq<string>>): seq<seq<string>> {
    if cs == [] then [] else
      Writes(cs[..|cs| - 1]) + if IsGetAck(cs[|cs| - 1]) then [] else [cs[|cs| - 1]]
  }

  lemma {:induction false} WritesConcat(a: seq<seq<string>>, b: seq<seq<string>>)
    ensures Writes(a + b) == Writes(a) + Writes(b)
    decreases |b|
  {
    if b == [] {
      assert a + b == a;
    } else {
      WritesConcat(a, b[..|b| - 1]);
      assert (a + b)[..|a + b| - 1] == a + b[..|b| - 1];
    }
  }

  ghost predicate NoMulti(cs: seq<seq<string>>) {
    forall c :: c in cs && c != [] ==> ToLower(c[0]) != "multi"
  }

  lemma ConsumeReplays(r: Replica, c: seq<string>, env: Env)
    requires c != [] && r.client.mode != Transaction && ToLower(c[0]) != "multi"
    ensures var next := Consume(r, c, env);
            && (next.Some? ==> next.value.client.mode != Transaction)
            && (IsGetAck(c) ==> next.Some? && next.value.data == r.data)
            && (!IsGetAck(c) ==> ReplayCommand(r.data, c, env) == if next == None then None else Some(next.value.data))
  {
    PerformedReplays(r, c, env, Performed(r, c, env));
  }

  lemma {:induction false} WritesReplay(cs: seq<seq<string>>, r: Replica, p: Replica, env: Env)
    requires Applied(cs, r, Consumer(env)) == Some(p) && NoMulti(cs) && r.client.mode != Transaction
    ensures Replayed(Writes(cs), r.data, env) == Some(p.data) && p.client.mode != Transaction
  {
    if cs != [] {
      var before, c := cs[..|cs| - 1], cs[|cs| - 1];
      var q := Applied(before, r, Consumer(env)).value;
      WritesReplay(before, r, q, env);
      ConsumeReplays(q, c, env);
      if IsGetAck(c) {
        assert Writes(before) + [] == Writes(before);
      } else {
        ReplayedAppend(Writes(before), c, r.data, env);
      }
    }
  }

  /** On a stream without MULTI the replica has replayed the writes before the place where it stops, and
      it stops only at a command that fails there. */
  lemma StreamStops(cs: seq<seq<string>>, r: Replica, env: Env, k: nat, p: Replica)
    requires AllCanonical(cs) && NoMulti(cs) && r.client.mode != Transaction
    requires k == Completed(cs, r, env) && p == Process(Resp.Commands(cs), r, env)
    ensures Replayed(Writes(cs[..k]), r.data, env) == Some(p.data)
    ensures k < |cs| ==> !IsGetAck(cs[k]) && ReplayCommand(p.data, cs[k], env) == None
  {
    StreamEnds(cs, r, env);
    WritesReplay(cs[..k], r, p, env);
    if k < |cs| {
      ConsumeReplays(p, cs[k], env);
    }
  }

  /** The writes around a command that is one. */
  lemma WritesAround(cs: seq<seq<string>>, k: nat)
    requires k < |cs| && !IsGetAck(cs[k])
    ensures Writes(cs) == Writes(cs[..k]) + ([cs[k]] + Writes(cs[k + 1..]))
  {
    SplitAt(cs, k);
    WritesConcat(cs[..k], [cs[k]] + cs[k + 1..]);
    WritesConcat([cs[k]], cs[k + 1..]);
    WritesOfOne(cs[k]);
  }

  lemma SplitAt<T>(s: seq<T>, k: nat)
    requires k < |s|
    ensures s == s[..k] + ([s[k]] + s[k + 1..])
  {
  }

  lemma WritesOfOne(c: seq<string>)
    requires !IsGetAck(c)
    ensures Writes([c]) == [c]
  {
    assert [c][..0] == [];
  }

  /** A log with a command that fails after the ones before it. */
  lemma FailsAfter(w: seq<seq<string>>, c: seq<string>, rest: seq<seq<string>>, data: Data, env: Env)
    requires Replayed(w, data, env).Some? && ReplayCommand(Replayed(w, data, env).value, c, env) == None
    ensures Replayed(w + ([c] + rest), data, env) == None
  {
    ReplayedConcat(w, [c] + rest, data, env);
    ReplayedCons(c, rest, Replayed(w, data, env).value, env);
  }

  /** On a stream of writes and GETACKs, a replica reaches the end exactly when the writes replay, and
      then it has the store they make. */
  lemma ReplicaIsReplay(cs: seq<seq<string>>, r: Replica, env: Env)
    requires AllCanonical(cs) && NoMulti(cs) && r.client.mode != Transaction
    ensures Completed(cs, r, env) == |cs| <==> Replayed(Writes(cs), r.data, env).Some?
    ensures Completed(cs, r, env) == |cs| ==>
      Replayed(Writes(cs), r.data, env) == Some(Process(Resp.Commands(cs), r, env).data)
  {
    var k, p := Completed(cs, r, env), Process(Resp.Commands(cs), r, env);
    StreamStops(cs, r, env, k, p);
    if k == |cs| {
      assert cs[..k] == cs;
    } else {
      WritesAround(cs, k);
      FailsAfter(Writes(cs[..k]), cs[k], Writes(cs[k + 1..]), r.data, env);
    }
  }

  // ---------------------------------------------------------------------------------------
  // The master's stream
  // ---------------------------------------------------------------------------------------

  lemma LoggedIsNotMulti(req: Request)
    requires SteadyRequest(req) && IsWriteRequest(req)
    ensures ToLower(LogOf(req)[0]) != "multi"
  {
    LoggedReadsBack(req);
    assert AsRequest(LogOf(req)).command == req.command;
    Names(req.command, Lookup(req.command).value);
  }

  lemma {:induction false} ArrivalsNoMulti(s: Server, ls: seq<Label>, env: Env)
    requires Steady(ls, env)
    ensures NoMulti(Arrivals(s, ls))
  {
    if ls != [] {
      ArrivalsNoMulti(s, ls[..|ls| - 1], env);
      var before, l := Run(s, ls[..|ls| - 1]).server, ls[|ls| - 1];
      if Enabled(before, l) && Arrived(before, l) != [] {
        LoggedIsNotMulti(l.req);
      }
    }
  }

  lemma {:induction false} StreamNoMulti(cs: seq<seq<string>>)
    requires NoMulti(Writes(cs))
    ensures NoMulti(cs)
  {
    if cs != [] {
      var before, last := cs[..|cs| - 1], cs[|cs| - 1];
      assert forall c :: c in Writes(before) ==> c in Writes(cs);
      assert !IsGetAck(last) ==> last == Writes(cs)[|Writes(cs)| - 1] && last in Writes(cs);
      StreamNoMulti(before);
      assert cs == before + [last];
    }
  }

  /** `cs` is what a master that started empty sent in the run `ls`, with any GETACKs between. */
  ghost predicate StreamOf(cs: seq<seq<string>>, ls: seq<Label>) {
    AllCanonical(cs) && Writes(cs) == Run(Start(map[]), ls).server.log
  }

  lemma StreamIsPlain(cs: seq<seq<string>>, ls: seq<Label>, env: Env)
    requires StreamOf(cs, ls) && Steady(ls, env)
    ensures NoMulti(cs)
  {
    LogIsArrivals(Start(map[]), ls);
    ArrivalsNoMulti(Start(map[]), ls, env);
    assert [] + Arrivals(Start(map[]), ls) == Arrivals(Start(map[]), ls);
    StreamNoMulti(cs);
  }

  /** What the master had sent: its writes in order of arrival. */
  lemma StreamIsArrivals(cs: seq<seq<string>>, ls: seq<Label>)
    requires StreamOf(cs, ls)
    ensures Writes(cs) == Arrivals(Start(map[]), ls)
  {
    LogIsArrivals(Start(map[]), ls);
    assert [] + Arrivals(Start(map[]), ls) == Arrivals(Start(map[]), ls);
  }

  /** Over every run without expiries, transactions included, a replica that attached while the store was
      empty reaches the end of the stream with the master's store if and only if the writes as they
      arrived make the same store as the writes as they were executed. */
  lemma ReplicaFollowsExactly(ls: seq<Label>, cs: seq<seq<string>>, env: Env)
    requires Steady(ls, env) && StreamOf(cs, ls)
    ensures var r := NewReplica(map[]);
            Completed(cs, r, env) == |cs| &&
            Process(Resp.Commands(cs), r, env).data == Run(Start(map[]), ls).server.data <==>
            Replayed(Arrivals(Start(map[]), ls), map[], env) == Replayed(WritesOf(RunCalls(Start(map[]), ls)), map[], env)
  {
    StreamIsPlain(cs, ls, env);
    StreamIsArrivals(cs, ls);
    StoreIsExecutedWrites(map[], ls, env);
    ReplicaIsReplay(cs, NewReplica(map[]), env);
  }

  /** After a tidy run it reaches the end if and only if no write failed, and then it has the master's
      store and an offset of all the bytes. */
  lemma ReplicaFollowsMaster(ls: seq<Label>, cs: seq<seq<string>>, env: Env)
    requires Steady(ls, env) && TidyRun(Start(map[]), ls) && StreamOf(cs, ls)
    ensures var r, p := NewReplica(map[]), Process(Resp.Commands(cs), NewReplica(map[]), env);
            && (Completed(cs, r, env) == |cs| <==> NoWriteFails(Start(map[]), ls))
            && (NoWriteFails(Start(map[]), ls) ==>
                  p.data == Run(Start(map[]), ls).server.data && p.offset == |Resp.Commands(cs)|)
  {
    var r := NewReplica(map[]);
    StreamIsPlain(cs, ls, env);
    TidyReplays(map[], ls, env);
    ReplicaIsReplay(cs, r, env);
    OffsetsAreBytes(cs, r, env);
    assert cs[..|cs|] == cs;
  }

  // ---------------------------------------------------------------------------------------
  // Where a replica stops
  // ---------------------------------------------------------------------------------------

  /** Over every run without expiries: a replica that does not reach the end stops for good at the first
      write, in order of arrival, that fails on the store made by those before it; it has that store and
      the bytes before that write. */
  lemma ReplicaStopsAtFailure(ls: seq<Label>, cs: seq<seq<string>>, env: Env)
    requires Steady(ls, env) && StreamOf(cs, ls) && Completed(cs, NewReplica(map[]), env) < |cs|
    ensures var k, p := Completed(cs, NewReplica(map[]), env), Process(Resp.Commands(cs), NewReplica(map[]), env);
            var arrived, m := Arrivals(Start(map[]), ls), |Writes(cs[..k])|;
            && m < |arrived| && Writes(cs[..k]) == arrived[..m] && cs[k] == arrived[m]
            && Replayed(arrived[..m], map[], env) == Some(p.data) && ReplayCommand(p.data, arrived[m], env) == None
            && p.offset == |Resp.Commands(cs[..k])|
  {
    var k, p := Completed(cs, NewReplica(map[]), env), Process(Resp.Commands(cs), NewReplica(map[]), env);
    StreamIsPlain(cs, ls, env);
    StreamIsArrivals(cs, ls);
    StreamStops(cs, NewReplica(map[]), env, k, p);
    OffsetsAreBytes(cs, NewReplica(map[]), env);
    WritesAround(cs, k);
    PrefixOf(Writes(cs[..k]), cs[k], Writes(cs[k + 1..]), Writes(cs));
  }

  lemma {:induction false} ArrivalsPrefix(s: Server, ls: seq<Label>, n: nat)
    requires n <= |ls|
    ensures Arrivals(s, ls[..n]) <= Arrivals(s, ls)
  {
    if n < |ls| {
      ArrivalsPrefix(s, ls[..|ls| - 1], n);
      assert ls[..|ls| - 1][..n] == ls[..n];
    } else {
      assert ls[..n] == ls;
    }
  }

  lemma RestAfter(w: seq<seq<string>>, c: seq<string>, log: seq<seq<string>>) returns (rest: seq<seq<string>>)
    requires w + [c] <= log
    ensures log == w + ([c] + rest)
  {
    rest := log[|w| + 1..];
    assert log == (w + [c]) + rest;
  }

  /** Two places at which replaying the same log fails first are the same place. */
  lemma SamePlace(w: seq<seq<string>>, c: seq<string>, rest: seq<seq<string>>,
                  v: seq<seq<string>>, d: seq<string>, more: seq<seq<string>>, data: Data, env: Env)
    requires w + ([c] + rest) == v + ([d] + more) && |w| <= |v|
    requires Replayed(w, data, env).Some? && ReplayCommand(Replayed(w, data, env).value, c, env) == None
    requires Replayed(v, data, env).Some?
    ensures w == v && c == d
  {
    SplitsAgree(w, c, rest, v, d, more);
    if |w| < |v| {
      FailsAfter(w, c, v[|w| + 1..], data, env);
    }
  }

  lemma SplitsAgree<T>(w: seq<T>, c: T, rest: seq<T>, v: seq<T>, d: T, more: seq<T>)
    requires w + ([c] + rest) == v + ([d] + more) && |w| <= |v|
    ensures |w| < |v| ==> v == w + ([c] + v[|w| + 1..])
    ensures |w| == |v| ==> w == v && c == d
  {
    var log := v + ([d] + more);
    assert w == log[..|w|] && v == log[..|v|];
    assert log[|w|] == c && log[|v|] == d;
  }

  lemma ArrivesNext(ls: seq<Label>, n: nat, s: Server)
    requires n < |ls| && s == Run(Start(map[]), ls[..n]).server && FailsDirectly(s, ls[n])
    ensures Arrivals(Start(map[]), ls[..n + 1]) == Arrivals(Start(map[]), ls[..n]) + [LogOf(ls[n].req)]
  {
    assert ls[..n + 1][..n] == ls[..n];
  }

  /** The arrivals around a write that fails. */
  lemma ArrivalsAround(ls: seq<Label>, n: nat, s: Server) returns (rest: seq<seq<string>>)
    requires n < |ls| && s == Run(Start(map[]), ls[..n]).server && FailsDirectly(s, ls[n])
    ensures Arrivals(Start(map[]), ls) == Arrivals(Start(map[]), ls[..n]) + ([LogOf(ls[n].req)] + rest)
  {
    ArrivesNext(ls, n, s);
    ArrivalsPrefix(Start(map[]), ls, n + 1);
    rest := RestAfter(Arrivals(Start(map[]), ls[..n]), LogOf(ls[n].req), Arrivals(Start(map[]), ls));
  }

  /** A write that a client gives and that fails at once. */
  ghost predicate FailsDirectly(s: Server, l: Label) {
    Enabled(s, l) && WriteFails(s, l) && l.req.command != "exec"
  }

  /** When the run is in order up to a write that fails, that is where the replica stops: with the store
      the master had then, whatever came after. */
  lemma ReplicaStopsWhereMasterFailed(ls: seq<Label>, cs: seq<seq<string>>, env: Env, n: nat)
    requires Steady(ls, env) && StreamOf(cs, ls) && n < |ls| && InOrder(Start(map[]), ls[..n])
    requires FailsDirectly(Run(Start(map[]), ls[..n]).server, ls[n])
    ensures var s, k := Run(Start(map[]), ls[..n]).server, Completed(cs, NewReplica(map[]), env);
            && k < |cs| && cs[k] == LogOf(ls[n].req) && Writes(cs[..k]) == s.log
            && Process(Resp.Commands(cs), NewReplica(map[]), env).data == s.data
  {
    var s, failed := Run(Start(map[]), ls[..n]).server, LogOf(ls[n].req);
    assert Steady(ls[..n], env) && SteadyLabel(ls[n], env);
    InOrderReplays(map[], ls[..n], env);
    FailedReplays(s, ls[n].id, ls[n].req, env, ls[n].env, s.data);
    LogIsArrivals(Start(map[]), ls[..n]);
    assert [] + Arrivals(Start(map[]), ls[..n]) == Arrivals(Start(map[]), ls[..n]);
    var rest := ArrivalsAround(ls, n, s);
    StreamIsPlain(cs, ls, env);
    StreamIsArrivals(cs, ls);
    StopsAtWrite(cs, s.log, failed, rest, s.data, env);
  }

  lemma StopsAtWrite(cs: seq<seq<string>>, before: seq<seq<string>>, failed: seq<string>,
                     rest: seq<seq<string>>, data: Data, env: Env)
    requires AllCanonical(cs) && NoMulti(cs) && Writes(cs) == before + ([failed] + rest)
    requires Replayed(before, map[], env) == Some(data) && ReplayCommand(data, failed, env) == None
    ensures var k := Completed(cs, NewReplica(map[]), env);
            && k < |cs| && cs[k] == failed && Writes(cs[..k]) == before
            && Process(Resp.Commands(cs), NewReplica(map[]), env).data == data
  {
    var r := NewReplica(map[]);
    var k, p := Completed(cs, r, env), Process(Resp.Commands(cs), r, env);
    FailsAfter(before, failed, rest, map[], env);
    ReplicaIsReplay(cs, r, env);
    StreamStops(cs, r, env, k, p);
    WritesAround(cs, k);
    var w := Writes(cs[..k]);
    if |w| <= |before| {
      SamePlace(w, cs[k], Writes(cs[k + 1..]), before, failed, rest, map[], env);
    } else {
      SamePlace(before, failed, rest, w, cs[k], Writes(cs[k + 1..]), map[], env);
    }
  }

  lemma PrefixOf<T>(w: seq<T>, c: T, rest: seq<T>, all: seq<T>)
    requires all == w + ([c] + rest)
    ensures |w| < |all| && all[..|w|] == w && all[|w|] == c
  {
  }

  // ---------------------------------------------------------------------------------------
  // The loop
  // ---------------------------------------------------------------------------------------

  class Node {
    var client: Client
    var watchers: map<string, seq<int>>
    var data: Data
    var offset: nat
    var acks: seq<nat>

    function State(): Replica
      reads this
    {
      Replica(client, watchers, data, offset, acks)
    }

    method ProcessMasterCommands(stream: string, env: Env)
      modifies this
      ensures State() == Process(stream, old(State()), env)
    {
      var input := stream;
      ghost var end := Process(stream, State(), env);
      while true
        invariant Process(input, State(), env) == end
        decreases |input|
      {
        var req := ParseRequest(input);
        if req.Fail? {
          return;
        }
        var done := if IsGetAck(req.value) then None else Performed(State(), req.value, env);
        assert Account(State(), req.value, done) == Consume(State(), req.value, env);
        ghost var next := Consume(State(), req.value, env);
        var ok := Serve(req.value, done);
        assert ok ==> next == Some(State());
        if !ok {
          return;
        }
        input := req.rest;
      }
    }

    /** The rest of a round of the loop: false when the command could not be executed. */
    method Serve(args: seq<string>, done: Option<Server>) returns (ok: bool)
      requires args != [] && (done.Some? ==> LINK in done.value.clients)
      modifies this
      ensures ok ==> Account(old(State()), args, done) == Some(State())
      ensures !ok ==> Account(old(State()), args, done) == None && State() == old(State())
    {
      var requestOffset := RequestBytes(args);
      if IsGetAck(args) {
        acks := acks + [offset];
        offset := offset + requestOffset;
        return true;
      }
      if done == None {
        return false;
      }
      client := done.value.clients[LINK];
      watchers, data := done.value.watchers, done.value.data;
      offset := offset + requestOffset;
      return true;
    }
  }
}
