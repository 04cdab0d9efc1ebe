/** The command table row by row: what is known of a command from its name alone. */
module Table {
  import opened Text
  import opened Commands
  import opened Transactions

  datatype Kind = Writes | OfSession | Reads

  /** The name of a command, its numbers of arguments, None for no maximum, and whether it writes, works on
      the session of the client, or neither. */
  datatype Row = Row(name: string, min: nat, max: Option<nat>, kind: Kind)

  function RowOf(c: Cmd): Row {
    match c
    case SET => Row("set", 2, None, Writes)
    case GET => Row("get", 1, None, Reads)
    case INCR => Row("incr", 1, Some(1), Writes)
    case RPUSH => Row("rpush", 2, None, Writes)
    case LPUSH => Row("lpush", 2, None, Writes)
    case LPOP => Row("lpop", 1, Some(2), Writes)
    case BLPOP => Row("blpop", 2, None, Writes)
    case LRANGE => Row("lrange", 3, None, Reads)
    case LLEN => Row("llen", 1, None, Reads)
    case MULTI => Row("multi", 0, Some(0), OfSession)
    case DISCARD => Row("discard", 0, Some(0), OfSession)
    case WATCH => Row("watch", 1, None, OfSession)
    case UNWATCH => Row("unwatch", 0, Some(0), OfSession)
    case SUBSCRIBE => Row("subscribe", 1, Some(1), OfSession)
    case PUBLISH => Row("publish", 1, Some(2), Reads)
    case UNSUBSCRIBE => Row("unsubscribe", 1, Some(1), Reads)
    case ZADD => Row("zadd", 3, None, Writes)
    case ZREM => Row("zrem", 2, Some(2), Writes)
    case ZRANGE => Row("zrange", 3, Some(3), Reads)
    case ZCARD => Row("zcard", 1, Some(1), Reads)
    case ZRANK => Row("zrank", 2, Some(2), Reads)
    case ZSCORE => Row("zscore", 2, Some(2), Reads)
    case GEOADD => Row("geoadd", 4, Some(4), Writes)
    case GEOPOS => Row("geopos", 2, None, Reads)
    case GEODIST => Row("geodist", 3, Some(3), Reads)
    case GEOSEARCH => Row("geosearch", 7, Some(7), Reads)
    case ECHO => Row("echo", 1, Some(1), Reads)
    case PING => Row("ping", 0, None, Reads)
    case CONFIG => Row("config", 2, None, Reads)
    case KEYS => Row("keys", 1, None, Reads)
    case INFO => Row("info", 0, None, Reads)
    case REPLCONF => Row("replconf", 2, Some(2), Reads)
    case PSYNC => Row("psync", 2, Some(2), Reads)
    case WAIT => Row("wait", 2, Some(2), Reads)
  }

  predicate Has(name: string, c: Cmd) { Lookup(name) == Some(c) }

  lemma StringNames()
    ensures Has("set", SET) && Has("get", GET) && Has("incr", INCR)
  {
  }

  lemma ListNames()
    ensures Has("rpush", RPUSH) && Has("lpush", LPUSH) && Has("lpop", LPOP)
    ensures Has("blpop", BLPOP) && Has("lrange", LRANGE) && Has("llen", LLEN)
  {
  }

  lemma SessionNames()
    ensures Has("multi", MULTI) && Has("discard", DISCARD) && Has("watch", WATCH)
    ensures Has("unwatch", UNWATCH)
  {
  }

  lemma ChannelNames()
    ensures Has("subscribe", SUBSCRIBE) && Has("publish", PUBLISH) && Has("unsubscribe", UNSUBSCRIBE)
  {
  }

  lemma SetNames()
    ensures Has("zadd", ZADD) && Has("zrem", ZREM) && Has("zrange", ZRANGE)
  {
  }

  lemma ScoreNames()
    ensures Has("zcard", ZCARD) && Has("zrank", ZRANK) && Has("zscore", ZSCORE)
  {
  }

  lemma GeoNames()
    ensures Has("geoadd", GEOADD) && Has("geopos", GEOPOS)
  {
  }

  lemma DistanceNames()
    ensures Has("geodist", GEODIST) && Has("geosearch", GEOSEARCH)
  {
  }

  lemma ConnectionNames()
    ensures Has("echo", ECHO) && Has("ping", PING) && Has("config", CONFIG)
    ensures Has("keys", KEYS)
  {
  }

  lemma NodeNames()
    ensures Has("info", INFO) && Has("replconf", REPLCONF)
  {
  }

  lemma ReplicaNames()
    ensures Has("psync", PSYNC) && Has("wait", WAIT)
  {
  }

  lemma NameOfRow(c: Cmd)
    ensures Has(RowOf(c).name, c)
  {
    StringNames();
    ListNames();
    SessionNames();
    ChannelNames();
    SetNames();
    ScoreNames();
    GeoNames();
    DistanceNames();
    ConnectionNames();
    NodeNames();
    ReplicaNames();
  }

  lemma NumbersOfRow(c: Cmd)
    ensures MinArgs(c) == RowOf(c).min && MaxArgs(c) == RowOf(c).max
  {
  }

  lemma KindOfRow(c: Cmd)
    ensures IsWrite(c) <==> RowOf(c).kind == Writes
    ensures OnSession(c) <==> RowOf(c).kind == OfSession
  {
  }

  // ---------------------------------------------------------------------------------------
  // By name alone
  // ---------------------------------------------------------------------------------------

  const WRITES := {"set", "incr", "rpush", "lpush", "lpop", "blpop", "zadd", "zrem", "geoadd"}

  const SESSION := {"multi", "discard", "watch", "unwatch", "subscribe"}

  const READS := {
    "get", "lrange", "llen", "publish", "unsubscribe", "zrange", "zcard", "zrank", "zscore", "geopos", "geodist",
    "geosearch", "echo", "ping", "config", "keys", "info", "replconf", "psync", "wait"
  }

  /** The name is that of a row of the given kind, for a table `look`. */
  predicate Listed(look: string -> Option<Cmd>, name: string, kind: Kind) {
    && look(name).Some?
    && RowOf(look(name).value).name == name && RowOf(look(name).value).kind == kind
  }

  lemma StringWriteListed(look: string -> Option<Cmd>, name: string)
    requires name in {"set", "incr", "rpush", "lpush", "lpop"} && forall c :: look(RowOf(c).name) == Some(c)
    ensures Listed(look, name, Writes)
  {
    assert look(RowOf(SET).name) == Some(SET) && look(RowOf(INCR).name) == Some(INCR);
    assert look(RowOf(RPUSH).name) == Some(RPUSH) && look(RowOf(LPUSH).name) == Some(LPUSH);
    assert look(RowOf(LPOP).name) == Some(LPOP);
  }

  lemma SetWriteListed(look: string -> Option<Cmd>, name: string)
    requires name in {"blpop", "zadd", "zrem", "geoadd"} && forall c :: look(RowOf(c).name) == Some(c)
    ensures Listed(look, name, Writes)
  {
    assert look(RowOf(BLPOP).name) == Some(BLPOP) && look(RowOf(ZADD).name) == Some(ZADD);
    assert look(RowOf(ZREM).name) == Some(ZREM) && look(RowOf(GEOADD).name) == Some(GEOADD);
  }

  lemma SessionListed(look: string -> Option<Cmd>, name: string)
    requires name in {"multi", "discard", "watch", "unwatch", "subscribe"} && forall c :: look(RowOf(c).name) == Some(c)
    ensures Listed(look, name, OfSession)
  {
    assert look(RowOf(MULTI).name) == Some(MULTI) && look(RowOf(DISCARD).name) == Some(DISCARD);
    assert look(RowOf(WATCH).name) == Some(WATCH) && look(RowOf(UNWATCH).name) == Some(UNWATCH);
    assert look(RowOf(SUBSCRIBE).name) == Some(SUBSCRIBE);
  }

  lemma ListReadListed(look: string -> Option<Cmd>, name: string)
    requires name in {"get", "lrange", "llen", "publish", "unsubscribe"} && forall c :: look(RowOf(c).name) == Some(c)
    ensures Listed(look, name, Reads)
  {
    assert look(RowOf(GET).name) == Some(GET) && look(RowOf(LRANGE).name) == Some(LRANGE);
    assert look(RowOf(LLEN).name) == Some(LLEN) && look(RowOf(PUBLISH).name) == Some(PUBLISH);
    assert look(RowOf(UNSUBSCRIBE).name) == Some(UNSUBSCRIBE);
  }

  lemma SetReadListed(look: string -> Option<Cmd>, name: string)
    requires name in {"zrange", "zcard", "zrank", "zscore", "geopos"} && forall c :: look(RowOf(c).name) == Some(c)
    ensures Listed(look, name, Reads)
  {
    assert look(RowOf(ZRANGE).name) == Some(ZRANGE) && look(RowOf(ZCARD).name) == Some(ZCARD);
    assert look(RowOf(ZRANK).name) == Some(ZRANK) && look(RowOf(ZSCORE).name) == Some(ZSCORE);
    assert look(RowOf(GEOPOS).name) == Some(GEOPOS);
  }

  lemma NodeReadListed(look: string -> Option<Cmd>, name: string)
    requires name in {"geodist", "geosearch", "echo", "ping", "config"} && forall c :: look(RowOf(c).name) == Some(c)
    ensures Listed(look, name, Reads)
  {
    assert look(RowOf(GEODIST).name) == Some(GEODIST) && look(RowOf(GEOSEARCH).name) == Some(GEOSEARCH);
    assert look(RowOf(ECHO).name) == Some(ECHO) && look(RowOf(PING).name) == Some(PING);
    assert look(RowOf(CONFIG).name) == Some(CONFIG);
  }

  lemma ReplicaReadListed(look: string -> Option<Cmd>, name: string)
    requires name in {"keys", "info", "replconf", "psync", "wait"} && forall c :: look(RowOf(c).name) == Some(c)
    ensures Listed(look, name, Reads)
  {
    assert look(RowOf(KEYS).name) == Some(KEYS) && look(RowOf(INFO).name) == Some(INFO);
    assert look(RowOf(REPLCONF).name) == Some(REPLCONF) && look(RowOf(PSYNC).name) == Some(PSYNC);
    assert look(RowOf(WAIT).name) == Some(WAIT);
  }

  lemma WriteListed(look: string -> Option<Cmd>, name: string)
    requires name in WRITES && forall c :: look(RowOf(c).name) == Some(c)
    ensures Listed(look, name, Writes)
  {
    if name in {"set", "incr", "rpush", "lpush", "lpop"} {
      StringWriteListed(look, name);
    } else {
      SetWriteListed(look, name);
    }
  }

  lemma ReadListed(look: string -> Option<Cmd>, name: string)
    requires name in READS && forall c :: look(RowOf(c).name) == Some(c)
    ensures Listed(look, name, Reads)
  {
    if name in {"get", "lrange", "llen", "publish", "unsubscribe"} {
      ListReadListed(look, name);
    } else if name in {"zrange", "zcard", "zrank", "zscore", "geopos"} {
      SetReadListed(look, name);
    } else if name in {"geodist", "geosearch", "echo", "ping", "config"} {
      NodeReadListed(look, name);
    } else {
      ReplicaReadListed(look, name);
    }
  }

  lemma Unlisted(name: string)
    requires name !in WRITES && name !in SESSION && name !in READS
    ensures Lookup(name) == None
  {
  }

  /** A command has one name, and its name says which kind it is. */
  lemma NameDecides(name: string, c: Cmd)
    requires Has(name, c)
    ensures name == RowOf(c).name
    ensures RowOf(c).kind == if name in WRITES then Writes else if name in SESSION then OfSession else Reads
  {
    forall d
      ensures Lookup(RowOf(d).name) == Some(d)
    {
      NameOfRow(d);
    }
    if name in WRITES {
      WriteListed(Lookup, name);
    } else if name in SESSION {
      SessionListed(Lookup, name);
    } else if name in READS {
      ReadListed(Lookup, name);
    } else {
      Unlisted(name);
    }
  }

  /** A request gets past the checks of `Execute` on its name and number of arguments if and only if the
      table has a row for them. */
  lemma AcceptedByRow(name: string, n: nat)
    ensures Lookup(name).Some? && ArityOk(Lookup(name).value, n) <==>
            exists c :: RowOf(c).name == name && RowOf(c).min <= n && (RowOf(c).max.Some? ==> n <= RowOf(c).max.value)
  {
    if Lookup(name).Some? {
      NameDecides(name, Lookup(name).value);
      NumbersOfRow(Lookup(name).value);
    }
    forall c | RowOf(c).name == name
      ensures Has(name, c) && MinArgs(c) == RowOf(c).min && MaxArgs(c) == RowOf(c).max
    {
      NameOfRow(c);
      NumbersOfRow(c);
    }
  }

  /** Whether a command writes or works on the session is decided by its name. */
  lemma KindByName(name: string, c: Cmd)
    requires Has(name, c)
    ensures IsWrite(c) <==> name in WRITES
    ensures OnSession(c) <==> name in SESSION
  {
    NameDecides(name, c);
    KindOfRow(c);
    if name in SESSION {
      NotBoth(name);
    }
  }

  lemma NotBoth(name: string)
    requires name in SESSION
    ensures name !in WRITES
  {
  }

  /** The commands on the session, by name. */
  lemma SessionByName(name: string, c: Cmd)
    requires Has(name, c)
    ensures (c == WATCH <==> name == "watch") && (c == UNWATCH <==> name == "unwatch")
    ensures (c == MULTI <==> name == "multi") && (c == DISCARD <==> name == "discard")
    ensures c == SUBSCRIBE <==> name == "subscribe"
  {
    NameDecides(name, c);
    SessionNames();
    ChannelNames();
  }
}
