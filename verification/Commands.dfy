/** The command table and what each command does to the store. */
module Commands {
  import opened Text
  import opened Order
  import opened ZSets
  import opened Keyspace

  datatype Cmd =
    | ECHO | SET | GET | PING | CONFIG | KEYS | RPUSH | LPUSH | LRANGE | LPOP | LLEN | BLPOP | INCR
    | MULTI | DISCARD | WATCH | UNWATCH | SUBSCRIBE | PUBLISH | UNSUBSCRIBE
    | ZADD | ZCARD | ZRANGE | ZRANK | ZSCORE | ZREM | GEOADD | GEOPOS | GEODIST | GEOSEARCH
    | INFO | REPLCONF | PSYNC | WAIT

  /** A request as the parser leaves it: a lower-cased name and its arguments. */
  datatype Request = Request(command: string, args: seq<string>)

  /** The handler table. EXEC is not in it. */
  function Lookup(name: string): Option<Cmd> {
    if name == "echo" then Some(ECHO)
    else if name == "set" then Some(SET)
    else if name == "get" then Some(GET)
    else if name == "ping" then Some(PING)
    else if name == "config" then Some(CONFIG)
    else if name == "keys" then Some(KEYS)
    else if name == "rpush" then Some(RPUSH)
    else if name == "lpush" then Some(LPUSH)
    else if name == "lrange" then Some(LRANGE)
    else if name == "lpop" then Some(LPOP)
    else if name == "llen" then Some(LLEN)
    else if name == "blpop" then Some(BLPOP)
    else if name == "incr" then Some(INCR)
    else if name == "multi" then Some(MULTI)
    else if name == "discard" then Some(DISCARD)
    else if name == "watch" then Some(WATCH)
    else if name == "unwatch" then Some(UNWATCH)
    else if name == "subscribe" then Some(SUBSCRIBE)
    else if name == "publish" then Some(PUBLISH)
    else if name == "unsubscribe" then Some(UNSUBSCRIBE)
    else if name == "zadd" then Some(ZADD)
    else if name == "zcard" then Some(ZCARD)
    else if name == "zrange" then Some(ZRANGE)
    else if name == "zrank" then Some(ZRANK)
    else if name == "zscore" then Some(ZSCORE)
    else if name == "zrem" then Some(ZREM)
    else if name == "geoadd" then Some(GEOADD)
    else if name == "geopos" then Some(GEOPOS)
    else if name == "geodist" then Some(GEODIST)
    else if name == "geosearch" then Some(GEOSEARCH)
    else if name == "info" then Some(INFO)
    else if name == "replconf" then Some(REPLCONF)
    else if name == "psync" then Some(PSYNC)
    else if name == "wait" then Some(WAIT)
    else None
  }

  /** The names that proofs ask for. */
  lemma Names(name: string, c: Cmd)
    requires Lookup(name) == Some(c)
    ensures c == SET <==> name == "set"
    ensures c == MULTI <==> name == "multi"
    ensures c == DISCARD <==> name == "discard"
    ensures name != "exec"
  {
    assert Lookup("set") == Some(SET) && Lookup("multi") == Some(MULTI) && Lookup("discard") == Some(DISCARD);
    assert Lookup("exec") == None;
  }

  predicate IsWrite(c: Cmd) {
    c in {SET, RPUSH, LPUSH, LPOP, BLPOP, INCR, ZADD, ZREM, GEOADD}
  }

  function MinArgs(c: Cmd): nat {
    match c
    case PING | MULTI | DISCARD | UNWATCH | INFO => 0
    case ECHO | GET | KEYS | LPOP | LLEN | INCR | WATCH | SUBSCRIBE | PUBLISH | UNSUBSCRIBE | ZCARD => 1
    case SET | CONFIG | RPUSH | LPUSH | BLPOP | ZRANK | ZSCORE | ZREM | GEOPOS | REPLCONF | PSYNC | WAIT => 2
    case LRANGE | ZADD | ZRANGE | GEODIST => 3
    case GEOADD => 4
    case GEOSEARCH => 7
  }

  function MaxArgs(c: Cmd): Option<nat> {
    match c
    case MULTI | DISCARD | UNWATCH => Some(0)
    case ECHO | INCR | SUBSCRIBE | UNSUBSCRIBE | ZCARD => Some(1)
    case LPOP | PUBLISH | ZRANK | ZSCORE | ZREM | REPLCONF | PSYNC | WAIT => Some(2)
    case ZRANGE | GEODIST => Some(3)
    case GEOADD => Some(4)
    case GEOSEARCH => Some(7)
    case _ => None
  }

  predicate ArityOk(c: Cmd, n: nat) {
    MinArgs(c) <= n && (MaxArgs(c).Some? ==> n <= MaxArgs(c).value)
  }

  /** The commands that a client in a transaction still runs at once. EXEC is the fourth. */
  predicate Transactional(c: Cmd) { c in {MULTI, DISCARD, WATCH} }

  datatype Reply =
    | Status(text: string) | Bulk(text: string) | NullBulk | Number(n: int)
    | Array(items: seq<string>) | NullArray | Positions(points: seq<Option<(real, real)>>) | Answer(text: string)

  datatype Outcome = Done(data: Data, reply: Reply) | Failed

  /** What a handler takes from outside the store: the clock in milliseconds, float parsing without
      NaN, the score of a valid position, the longitude and latitude of a score, and the answers of the
      other commands that only read, None for an error. */
  datatype Env = Env(
    now: int,
    parseFloat: string -> Option<Score>,
    geocode: (Score, Score) -> Option<Score>,
    position: Score -> (real, real),
    answer: (Cmd, seq<string>, Data) -> Option<Reply>)

  // ---------------------------------------------------------------------------------------
  // Handlers
  // ---------------------------------------------------------------------------------------

  /** The options of SET: PX and EX each take the next argument, and the last one wins. */
  datatype Expiry = ExpiresAt(at: Option<int>) | BadOption | MissingArgument

  function SetOptions(options: seq<string>, now: int, at: Option<int>): Expiry {
    if options == [] then ExpiresAt(at)
    else if ToLower(options[0]) == "px" then
      if |options| == 1 then MissingArgument
      else match Atoi(options[1])
        case None => BadOption
        case Some(n) => SetOptions(options[2..], now, Some(now + n))
    else if ToLower(options[0]) == "ex" then
      if |options| == 1 then MissingArgument
      else match Atoi(options[1])
        case None => BadOption
        case Some(n) => SetOptions(options[2..], now, Some(now + 1000 * n))
    else BadOption
  }

  function HandleSet(args: seq<string>, now: int, data: Data): Outcome
    requires |args| >= 2
  {
    match SetOptions(args[2..], now, None)
    case ExpiresAt(at) => Done(data[args[0] := Entry(Str(args[1]), at)], Status("OK"))
    case _ => Failed
  }

  /** GET deletes the entry it finds expired. */
  function HandleGet(args: seq<string>, now: int, data: Data): Outcome
    requires |args| >= 1
  {
    var key := args[0];
    if key !in data then Done(data, NullBulk)
    else if Expired(data[key], now) then Done(data - {key}, NullBulk)
    else Done(data, Bulk(if data[key].value.Str? then data[key].value.text else ""))
  }

  predicate Expired(e: Entry, now: int) { e.expireAt.Some? && e.expireAt.value < now }

  /** 64-bit wrap-around of the increment. */
  function Increment(n: int): int { if n + 1 == INT64_BOUND then -INT64_BOUND else n + 1 }

  function HandleIncr(args: seq<string>, data: Data): Outcome
    requires |args| >= 1
  {
    var key := args[0];
    if key !in data then Done(data[key := Entry(Str("1"), None)], Number(1))
    else if !data[key].value.Str? then Failed
    else match Atoi(data[key].value.text)
      case None => Failed
      case Some(n) =>
        Done(data[key := Entry(Str(Itoa(Increment(n))), data[key].expireAt)], Number(Increment(n)))
  }

  function HandlePush(args: seq<string>, right: bool, data: Data): Outcome
    requires |args| >= 2
  {
    var p := ListPush<int>(data, map[], args[0], args[1..], right);
    if p.length == None then Failed else Done(p.data, Number(p.length.value))
  }

  function PopCount(args: seq<string>): Option<int>
    requires |args| >= 1
  {
    if |args| == 1 then Some(1) else Atoi(args[1])
  }

  function HandleLPop(args: seq<string>, data: Data): Outcome
    requires |args| >= 1
  {
    var key := args[0];
    match PopCount(args)
    case None => Failed
    case Some(wanted) =>
      if key !in data then Done(data, NullBulk)
      else if !data[key].value.List? then Failed
      else
        var items := data[key].value.items;
        if items == [] || wanted <= 0 then Done(data, NullBulk)
        else
          var n := Min(wanted, |items|);
          Done(data[key := Entry(List(items[n..]), data[key].expireAt)],
               if |args| == 1 then Bulk(items[0]) else Array(items[..n]))
  }

  /** BLPOP that finds an element takes it; one that does not has timed out when it answers. */
  function HandleBLPop(args: seq<string>, parseFloat: string -> Option<Score>, data: Data): Outcome
    requires |args| >= 2
  {
    var key := args[0];
    if parseFloat(args[1]) == None then Failed
    else if key !in data then Done(data, NullArray)
    else if !data[key].value.List? then Failed
    else
      var items := data[key].value.items;
      if items == [] then Done(data, NullArray)
      else Done(data[key := Entry(List(items[1..]), data[key].expireAt)],
                if key == "" && items[0] == "" then NullArray else Array([key, items[0]]))
  }

  function ParsePairs(args: seq<string>, parseFloat: string -> Option<Score>): Option<seq<Pair>> {
    if args == [] then Some([])
    else if |args| == 1 then None
    else match parseFloat(args[0])
      case None => None
      case Some(score) =>
        match ParsePairs(args[2..], parseFloat)
        case None => None
        case Some(rest) => Some([Pair(args[1], score)] + rest)
  }

  /** `Store.ZAdd`: the new entry and the members it reports as added, or None for its error. */
  function ZAddTo(data: Data, key: string, entries: seq<Pair>): Option<(Data, nat)> {
    if key !in data then Some((data[key := Entry(Zset(Create(entries)), None)], |entries|))
    else if !data[key].value.Zset? then None
    else
      var z := data[key].value.zset;
      Some((data[key := Entry(Zset(Upsert(z, entries)), data[key].expireAt)], Added(z, entries)))
  }

  function HandleZAdd(args: seq<string>, parseFloat: string -> Option<Score>, data: Data): Outcome
    requires |args| >= 1
  {
    match ParsePairs(args[1..], parseFloat)
    case None => Failed
    case Some(entries) =>
      match ZAddTo(data, args[0], entries)
      case None => Failed
      case Some((data', added)) => Done(data', Number(added))
  }

  function HandleGeoAdd(args: seq<string>, env: Env, data: Data): Outcome
    requires |args| >= 4
  {
    match (env.parseFloat(args[1]), env.parseFloat(args[2]))
    case (Some(longitude), Some(latitude)) =>
      (match env.geocode(longitude, latitude)
       case None => Failed
       case Some(score) =>
         match ZAddTo(data, args[0], [Pair(args[3], score)])
         case None => Failed
         case Some((data', added)) => Done(data', Number(added)))
    case _ => Failed
  }

  function HandleZRem(args: seq<string>, data: Data): Outcome
    requires |args| >= 2
  {
    var key := args[0];
    if key !in data then Done(data, Number(0))
    else if !data[key].value.Zset? then Failed
    else
      var (z, removed) := Rem(data[key].value.zset, args[1]);
      Done(data[key := Entry(Zset(z), data[key].expireAt)], Number(if removed then 1 else 0))
  }

  /** GEOPOS: a point for every place asked, or none for one that is not a member. */
  function HandleGeoPos(args: seq<string>, position: Score -> (real, real), data: Data): Outcome
    requires |args| >= 1
  {
    var key, places := args[0], args[1..];
    if key !in data then Done(data, Positions(seq(|places|, _ => None)))
    else if !data[key].value.Zset? then Failed
    else
      var scores := data[key].value.zset.scores;
      Done(data, Positions(seq(|places|, i requires 0 <= i < |places| =>
        if places[i] in scores then Some(position(scores[places[i]])) else None)))
  }

  /** A command that changes nothing in the store: it answers, or fails. */
  function HandleRead(answer: Option<Reply>, data: Data): Outcome {
    if answer == None then Failed else Done(data, answer.value)
  }

  /** The requests on which a handler indexes out of range: an option of SET without its argument,
      a negative count popped from a list with elements, PUBLISH without a message, and a range
      with a negative start over an empty list. */
  predicate Panics(c: Cmd, args: seq<string>, data: Data)
    requires ArityOk(c, |args|)
  {
    match c
    case SET => SetOptions(args[2..], 0, None) == MissingArgument
    case LPOP =>
      && PopCount(args).Some? && PopCount(args).value < 0
      && args[0] in data && data[args[0]].value.List? && data[args[0]].value.items != []
    case PUBLISH => |args| == 1
    case LRANGE =>
      && Atoi(args[1]).Some? && Atoi(args[1]).value < 0 && Atoi(args[2]).Some?
      && args[0] in data && data[args[0]].value.List? && data[args[0]].value.items == []
    case _ => false
  }

  /** The handler of a command, as far as the store and the reply go. A request that panics stops
      the process; here it fails. */
  function Handle(c: Cmd, args: seq<string>, env: Env, data: Data): Outcome
    requires ArityOk(c, |args|)
  {
    if Panics(c, args, data) then Failed else
    match c
    case SET => HandleSet(args, env.now, data)
    case GET => HandleGet(args, env.now, data)
    case INCR => HandleIncr(args, data)
    case RPUSH => HandlePush(args, true, data)
    case LPUSH => HandlePush(args, false, data)
    case LPOP => HandleLPop(args, data)
    case BLPOP => HandleBLPop(args, env.parseFloat, data)
    case ZADD => HandleZAdd(args, env.parseFloat, data)
    case GEOADD => HandleGeoAdd(args, env, data)
    case ZREM => HandleZRem(args, data)
    case GEOPOS => HandleGeoPos(args, env.position, data)
    case _ => HandleRead(env.answer(c, args, data), data)
  }

  // ---------------------------------------------------------------------------------------
  // Framing
  // ---------------------------------------------------------------------------------------

  /** A successful write changes at most the key in its first argument. */
  lemma WriteFrame(c: Cmd, args: seq<string>, env: Env, data: Data, k: string)
    requires ArityOk(c, |args|) && IsWrite(c) && Handle(c, args, env, data).Done?
    requires k != args[0]
    ensures SameAt(data, Handle(c, args, env, data).data, k)
  {
    match c {
      case SET => assert KeepsOther(HandleSet(args, env.now, data), data, k);
      case INCR => assert KeepsOther(HandleIncr(args, data), data, k);
      case RPUSH => ListPushFrame<int>(data, map[], args[0], args[1..], true, k);
      case LPUSH => ListPushFrame<int>(data, map[], args[0], args[1..], false, k);
      case LPOP => assert KeepsOther(HandleLPop(args, data), data, k);
      case BLPOP => assert KeepsOther(HandleBLPop(args, env.parseFloat, data), data, k);
      case ZADD => assert KeepsOther(HandleZAdd(args, env.parseFloat, data), data, k);
      case GEOADD => assert KeepsOther(HandleGeoAdd(args, env, data), data, k);
      case ZREM => assert KeepsOther(HandleZRem(args, data), data, k);
    }
  }

  ghost predicate KeepsOther(o: Outcome, data: Data, k: string) { o.Done? ==> SameAt(data, o.data, k) }

  /** Any other command changes nothing, except that GET drops an entry it finds expired. */
  lemma ReadFrame(c: Cmd, args: seq<string>, env: Env, data: Data, k: string)
    requires ArityOk(c, |args|) && !IsWrite(c)
    ensures var o := Handle(c, args, env, data);
            o.Done? ==> SameAt(data, o.data, k) || (k in data && Expired(data[k], env.now) && k !in o.data)
  {
    if c != GET {
      ReadKeeps(c, args, env, data, Handle(c, args, env, data));
    }
  }

  lemma ReadKeeps(c: Cmd, args: seq<string>, env: Env, data: Data, o: Outcome)
    requires ArityOk(c, |args|) && !IsWrite(c) && c != GET && o == Handle(c, args, env, data)
    ensures o.Done? ==> o.data == data
  {
  }

  // ---------------------------------------------------------------------------------------
  // Commands that do not depend on the clock
  // ---------------------------------------------------------------------------------------

  /** No SET option: the entry it writes does not expire. */
  predicate ExpiryFree(c: Cmd, args: seq<string>) { c == SET ==> |args| == 2 }

  ghost predicate NoExpiry(data: Data) {
    forall k :: k in data ==> data[k].expireAt == None
  }

  lemma KeepsNoExpiry(c: Cmd, args: seq<string>, env: Env, data: Data)
    requires ArityOk(c, |args|) && NoExpiry(data) && ExpiryFree(c, args) && Handle(c, args, env, data).Done?
    ensures NoExpiry(Handle(c, args, env, data).data)
  {
    var data' := Handle(c, args, env, data).data;
    forall k | k in data'
      ensures data'[k].expireAt == None
    {
      if IsWrite(c) {
        if k != args[0] {
          WriteFrame(c, args, env, data, k);
        } else {
          WrittenEntry(c, args, env, data);
        }
      } else {
        ReadFrame(c, args, env, data, k);
      }
    }
  }

  /** What an outcome leaves at a key does not expire. */
  ghost predicate LeavesNoExpiry(o: Outcome, key: string) {
    o.Done? && key in o.data ==> o.data[key].expireAt == None
  }

  lemma WrittenEntry(c: Cmd, args: seq<string>, env: Env, data: Data)
    requires ArityOk(c, |args|) && NoExpiry(data) && ExpiryFree(c, args) && IsWrite(c)
    ensures LeavesNoExpiry(Handle(c, args, env, data), args[0])
  {
    match c {
      case SET => assert LeavesNoExpiry(HandleSet(args, env.now, data), args[0]);
      case INCR => assert LeavesNoExpiry(HandleIncr(args, data), args[0]);
      case RPUSH => assert LeavesNoExpiry(HandlePush(args, true, data), args[0]);
      case LPUSH => assert LeavesNoExpiry(HandlePush(args, false, data), args[0]);
      case LPOP => assert LeavesNoExpiry(HandleLPop(args, data), args[0]);
      case BLPOP => assert LeavesNoExpiry(HandleBLPop(args, env.parseFloat, data), args[0]);
      case ZADD => assert LeavesNoExpiry(HandleZAdd(args, env.parseFloat, data), args[0]);
      case GEOADD => assert LeavesNoExpiry(HandleGeoAdd(args, env, data), args[0]);
      case ZREM => assert LeavesNoExpiry(HandleZRem(args, data), args[0]);
    }
  }

  /** Without expiries, commands that only read leave the store as it is. */
  lemma ReadsChangeNothing(c: Cmd, args: seq<string>, env: Env, data: Data)
    requires ArityOk(c, |args|) && NoExpiry(data) && !IsWrite(c)
    ensures Handle(c, args, env, data).Done? ==> Handle(c, args, env, data).data == data
  {
    if c == GET {
      assert HandleGet(args, env.now, data).data == data;
    } else {
      ReadKeeps(c, args, env, data, Handle(c, args, env, data));
    }
  }

  /** A write without expiry options does the same at any time. */
  lemma ClockDoesNotMatter(c: Cmd, args: seq<string>, env: Env, now: int, data: Data)
    requires ArityOk(c, |args|) && IsWrite(c) && ExpiryFree(c, args)
    ensures Handle(c, args, env, data) == Handle(c, args, env.(now := now), data)
  {
  }
}
