/** Sorted sets over whole runs: map and skip list of a set stay together, whatever clients do, exactly
    when the ZADD that made the set did not repeat a member. */
module Coherence {
  import opened Order
  import opened ZSets
  import opened Keyspace
  import opened Commands
  import opened Transactions
  import opened History

  ghost predicate CoherentAt(data: Data, key: string) {
    key in data && data[key].value.Zset? ==> Coherent(data[key].value.zset)
  }

  ghost predicate AllCoherent(data: Data) {
    forall k :: k in data ==> CoherentAt(data, k)
  }

  /** A ZADD that would create its key with a member named twice. */
  ghost predicate RepeatsOnCreate(c: Cmd, args: seq<string>, env: Env, data: Data)
    requires ArityOk(c, |args|)
  {
    c == ZADD && args[0] !in data &&
    var entries := ParsePairs(args[1..], env.parseFloat);
    entries.Some? && !DistinctMembers(entries.value)
  }

  // ---------------------------------------------------------------------------------------
  // One command
  // ---------------------------------------------------------------------------------------

  /** `Store.ZAdd` keeps a key coherent exactly when it does not create it with a repeated member. */
  lemma ZAddCoherent(data: Data, key: string, entries: seq<Pair>)
    requires CoherentAt(data, key)
    ensures ZAddTo(data, key, entries).Some? ==>
      (CoherentAt(ZAddTo(data, key, entries).value.0, key) <==> key in data || DistinctMembers(entries))
  {
    if key !in data {
      CreateCoherent(entries);
    } else if data[key].value.Zset? {
      UpsertCoherent(data[key].value.zset, entries);
    }
  }

  /** The number ZADD reports is the growth of the map, under the same condition. */
  lemma ZAddReportsGrowth(data: Data, key: string, entries: seq<Pair>)
    requires CoherentAt(data, key) && ZAddTo(data, key, entries).Some?
    ensures var (data', n) := ZAddTo(data, key, entries).value;
            var before := if key in data then |data[key].value.zset.scores| else 0;
            && key in data' && data'[key].value.Zset?
            && (n == |data'[key].value.zset.scores| - before <==> key in data || DistinctMembers(entries))
  {
    if key !in data {
      CreateCoherent(entries);
    } else {
      UpsertCoherent(data[key].value.zset, entries);
    }
  }

  ghost predicate LeavesCoherent(o: Outcome, key: string) {
    o.Done? ==> CoherentAt(o.data, key)
  }

  lemma ZAddLeaves(args: seq<string>, env: Env, data: Data)
    requires |args| >= 3 && CoherentAt(data, args[0])
    ensures LeavesCoherent(HandleZAdd(args, env.parseFloat, data), args[0]) <==> !RepeatsOnCreate(ZADD, args, env, data)
  {
    var entries := ParsePairs(args[1..], env.parseFloat);
    if entries.Some? {
      ZAddCoherent(data, args[0], entries.value);
    }
  }

  lemma GeoAddLeaves(args: seq<string>, env: Env, data: Data)
    requires |args| >= 4 && CoherentAt(data, args[0])
    ensures LeavesCoherent(HandleGeoAdd(args, env, data), args[0])
  {
    match (env.parseFloat(args[1]), env.parseFloat(args[2])) {
      case (Some(longitude), Some(latitude)) =>
        var score := env.geocode(longitude, latitude);
        if score.Some? {
          ZAddCoherent(data, args[0], [Pair(args[3], score.value)]);
        }
      case _ =>
    }
  }

  lemma ZRemLeaves(args: seq<string>, data: Data)
    requires |args| >= 2 && CoherentAt(data, args[0])
    ensures LeavesCoherent(HandleZRem(args, data), args[0])
  {
    if args[0] in data && data[args[0]].value.Zset? {
      RemCoherent(data[args[0]].value.zset, args[1]);
    }
  }

  lemma PushLeaves(args: seq<string>, right: bool, data: Data)
    requires |args| >= 2 && CoherentAt(data, args[0])
    ensures LeavesCoherent(HandlePush(args, right, data), args[0])
  {
  }

  lemma PopLeaves(args: seq<string>, env: Env, data: Data)
    requires |args| >= 1 && CoherentAt(data, args[0])
    ensures LeavesCoherent(HandleLPop(args, data), args[0])
    ensures |args| >= 2 ==> LeavesCoherent(HandleBLPop(args, env.parseFloat, data), args[0])
  {
  }

  /** At its own key, a write leaves a coherent sorted set exactly when it is not a repeating creation. */
  lemma WriteLeavesCoherent(c: Cmd, args: seq<string>, env: Env, data: Data)
    requires ArityOk(c, |args|) && IsWrite(c) && CoherentAt(data, args[0])
    ensures LeavesCoherent(Handle(c, args, env, data), args[0]) <==> !RepeatsOnCreate(c, args, env, data)
  {
    match c {
      case ZADD => ZAddLeaves(args, env, data);
      case GEOADD => GeoAddLeaves(args, env, data);
      case ZREM => ZRemLeaves(args, data);
      case SET => assert LeavesCoherent(HandleSet(args, env.now, data), args[0]);
      case INCR => assert LeavesCoherent(HandleIncr(args, data), args[0]);
      case RPUSH => PushLeaves(args, true, data);
      case LPUSH => PushLeaves(args, false, data);
      case LPOP => PopLeaves(args, env, data);
      case BLPOP => PopLeaves(args, env, data);
    }
  }

  /** A command keeps every sorted set coherent exactly when it is not a repeating creation. */
  lemma CommandCoherent(c: Cmd, args: seq<string>, env: Env, data: Data, o: Outcome)
    requires ArityOk(c, |args|) && AllCoherent(data) && o == Handle(c, args, env, data)
    ensures (o.Done? ==> AllCoherent(o.data)) <==> !RepeatsOnCreate(c, args, env, data)
  {
    if IsWrite(c) {
      WriteLeavesCoherent(c, args, env, data);
    }
    if o.Done? {
      forall k | k in o.data && !(IsWrite(c) && k == args[0])
        ensures CoherentAt(o.data, k)
      {
        OtherKeyCoherent(c, args, env, data, k, o);
      }
    }
  }

  lemma OtherKeyCoherent(c: Cmd, args: seq<string>, env: Env, data: Data, k: string, o: Outcome)
    requires ArityOk(c, |args|) && AllCoherent(data) && o == Handle(c, args, env, data) && o.Done?
    requires k in o.data && (IsWrite(c) ==> k != args[0])
    ensures CoherentAt(o.data, k)
  {
    if IsWrite(c) {
      WriteFrame(c, args, env, data, k);
    } else {
      ReadFrame(c, args, env, data, k);
    }
    assert CoherentAt(data, k);
  }

  // ---------------------------------------------------------------------------------------
  // Runs
  // ---------------------------------------------------------------------------------------

  ghost predicate HoldsSet(data: Data, key: string) { key in data && data[key].value.Zset? }

  /** The call made the sorted set at a key, where there was none. */
  ghost predicate Creates(call: Call, key: string) {
    !HoldsSet(call.before, key) && HoldsSet(call.after, key)
  }

  ghost predicate Repeats(call: Call)
    requires CallOk(call)
  {
    RepeatsOnCreate(call.c, call.req.args, call.env, call.before)
  }

  /** The call that made the sorted set a key holds now is the last that made one there. */
  ghost predicate MadeBy(h: seq<Call>, key: string, i: int) {
    0 <= i < |h| && Creates(h[i], key) && forall j :: i < j < |h| ==> !Creates(h[j], key)
  }

  /** The sorted set at a key, if it holds one, is coherent or broken for good. */
  ghost predicate SetIs(data: Data, key: string, broken: bool) {
    HoldsSet(data, key) ==>
      var z := data[key].value.zset;
      if broken then Broken(z) else Coherent(z)
  }

  lemma ZAddSet(data: Data, key: string, entries: seq<Pair>, broken: bool, data': Data)
    requires SetIs(data, key, broken)
    requires ZAddTo(data, key, entries).Some? && data' == ZAddTo(data, key, entries).value.0
    ensures HoldsSet(data', key) && SetIs(data', key, if HoldsSet(data, key) then broken else !DistinctMembers(entries))
  {
    if key !in data {
      CreateCoherent(entries);
      if !DistinctMembers(entries) {
        RepeatingCreateIsBroken(entries);
      }
    } else if broken {
      UpsertKeepsBroken(data[key].value.zset, entries);
    } else {
      UpsertCoherent(data[key].value.zset, entries);
    }
  }

  lemma ZRemSet(data: Data, args: seq<string>, broken: bool, o: Outcome)
    requires |args| >= 2 && SetIs(data, args[0], broken) && o == HandleZRem(args, data) && o.Done?
    ensures (HoldsSet(o.data, args[0]) <==> HoldsSet(data, args[0])) && SetIs(o.data, args[0], broken)
  {
    if HoldsSet(data, args[0]) {
      var z := data[args[0]].value.zset;
      if broken {
        RemKeepsBroken(z, args[1]);
      } else {
        RemCoherent(z, args[1]);
      }
    }
  }

  lemma GeoAddSet(data: Data, args: seq<string>, env: Env, broken: bool, o: Outcome)
    requires |args| >= 4 && SetIs(data, args[0], broken) && o == HandleGeoAdd(args, env, data) && o.Done?
    ensures SetIs(o.data, args[0], HoldsSet(data, args[0]) && broken)
  {
    var score := env.geocode(env.parseFloat(args[1]).value, env.parseFloat(args[2]).value).value;
    ZAddSet(data, args[0], [Pair(args[3], score)], broken, o.data);
  }

  lemma ZAddCommandSet(data: Data, args: seq<string>, env: Env, broken: bool, o: Outcome)
    requires |args| >= 3 && SetIs(data, args[0], broken) && o == HandleZAdd(args, env.parseFloat, data) && o.Done?
    ensures SetIs(o.data, args[0], if HoldsSet(data, args[0]) then broken else RepeatsOnCreate(ZADD, args, env, data))
  {
    ZAddSet(data, args[0], ParsePairs(args[1..], env.parseFloat).value, broken, o.data);
  }

  /** The commands on strings and lists make no sorted set, and change none but by replacing it. */
  lemma OtherWriteSet(c: Cmd, args: seq<string>, env: Env, data: Data, o: Outcome)
    requires ArityOk(c, |args|) && IsWrite(c) && c !in {ZADD, GEOADD, ZREM}
    requires o == Handle(c, args, env, data) && o.Done?
    ensures HoldsSet(o.data, args[0]) ==> HoldsSet(data, args[0]) && o.data[args[0]] == data[args[0]]
  {
    match c {
      case SET => assert o == HandleSet(args, env.now, data);
      case INCR => assert o == HandleIncr(args, data);
      case RPUSH => assert o == HandlePush(args, true, data);
      case LPUSH => assert o == HandlePush(args, false, data);
      case LPOP => assert o == HandleLPop(args, data);
      case BLPOP => assert o == HandleBLPop(args, env.parseFloat, data);
    }
  }

  /** What a write leaves at its own key. */
  lemma OwnKeySet(c: Cmd, args: seq<string>, env: Env, data: Data, broken: bool, o: Outcome)
    requires ArityOk(c, |args|) && IsWrite(c) && SetIs(data, args[0], broken)
    requires o == Handle(c, args, env, data) && o.Done?
    ensures SetIs(o.data, args[0], if HoldsSet(data, args[0]) then broken else RepeatsOnCreate(c, args, env, data))
  {
    match c {
      case ZADD => ZAddCommandSet(data, args, env, broken, o);
      case GEOADD => GeoAddSet(data, args, env, broken, o);
      case ZREM => ZRemSet(data, args, broken, o);
      case _ => OtherWriteSet(c, args, env, data, o);
    }
  }

  lemma CallSet(call: Call, key: string, broken: bool)
    requires CallOk(call) && SetIs(call.before, key, broken)
    ensures SetIs(call.after, key, if Creates(call, key) then Repeats(call) else broken)
  {
    var o := Handle(call.c, call.req.args, call.env, call.before);
    if IsWrite(call.c) {
      if key == call.req.args[0] {
        OwnKeySet(call.c, call.req.args, call.env, call.before, broken, o);
      } else {
        WriteFrame(call.c, call.req.args, call.env, call.before, key);
      }
    } else {
      ReadFrame(call.c, call.req.args, call.env, call.before, key);
    }
  }

  /** The set at a key was made by a ZADD that named a member twice. */
  ghost predicate MadeRepeating(h: seq<Call>, key: string)
    requires forall call :: call in h ==> CallOk(call)
  {
    exists i :: MadeBy(h, key, i) && Repeats(h[i])
  }

  lemma MadeRepeatingStep(h: seq<Call>, key: string)
    requires h != [] && forall call :: call in h ==> CallOk(call)
    ensures MadeRepeating(h, key) <==>
            if Creates(h[|h| - 1], key) then Repeats(h[|h| - 1]) else MadeRepeating(h[..|h| - 1], key)
  {
    var before, n := h[..|h| - 1], |h| - 1;
    assert forall i :: 0 <= i < n ==> before[i] == h[i];
    if Creates(h[n], key) {
      assert MadeBy(h, key, n);
      assert forall i :: MadeBy(h, key, i) ==> i == n;
    } else {
      assert forall i :: MadeBy(h, key, i) <==> MadeBy(before, key, i);
    }
  }

  lemma {:induction false} HistorySet(h: seq<Call>, from: Data, end: Data, key: string)
    requires Chained(h, from, end) && CoherentAt(from, key)
    ensures SetIs(end, key, MadeRepeating(h, key))
  {
    if h != [] {
      var last := h[|h| - 1];
      HistorySet(h[..|h| - 1], from, last.before, key);
      CallSet(last, key, MadeRepeating(h[..|h| - 1], key));
      MadeRepeatingStep(h, key);
    }
  }

  /** In every reachable state the sorted set a key holds is coherent if and only if the command that
      made it was not a ZADD that named a member twice; commands are those run directly and those run
      from the queue of an EXEC. */
  lemma RunCoherent(data: Data, ls: seq<Label>, key: string)
    requires CoherentAt(data, key) && HoldsSet(Run(Start(data), ls).server.data, key)
    ensures forall call :: call in RunCalls(Start(data), ls) ==> CallOk(call)
    ensures Coherent(Run(Start(data), ls).server.data[key].value.zset) <==>
            !MadeRepeating(RunCalls(Start(data), ls), key)
  {
    var h, end := RunCalls(Start(data), ls), Run(Start(data), ls).server.data;
    RunChained(Start(data), ls);
    HistorySet(h, data, end, key);
    if MadeRepeating(h, key) {
      BrokenIsNotCoherent(end[key].value.zset);
    }
  }
}
