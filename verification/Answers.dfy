/** What the commands on the store answer and leave, said by the arguments and the entry alone: when each
    fails, and what commands that follow each other make together. */
module Answers {
  import opened Text
  import opened Order
  import opened ZSets
  import opened Keyspace
  import opened Commands

  // ---------------------------------------------------------------------------------------
  // Strings
  // ---------------------------------------------------------------------------------------

  /** The arguments at places 2i and 2i + 1 are an expiry in milliseconds or seconds. */
  predicate OptionAt(options: seq<string>, i: nat) {
    && 2 * i + 1 < |options|
    && (InAnyCase(options[2 * i], "px") || InAnyCase(options[2 * i], "ex"))
    && Atoi(options[2 * i + 1]).Some?
  }

  ghost predicate AllOptions(options: seq<string>) {
    |options| % 2 == 0 && forall i: nat :: 2 * i < |options| ==> OptionAt(options, i)
  }

  /** The expiry of the last option, from the time given. */
  function LastExpiry(options: seq<string>, now: int): int
    requires |options| >= 2 && Atoi(options[|options| - 1]).Some?
  {
    var n := Atoi(options[|options| - 1]).value;
    if InAnyCase(options[|options| - 2], "px") then now + n else now + 1000 * n
  }

  lemma OptionNames(s: string)
    ensures ToLower(s) == "px" <==> InAnyCase(s, "px")
    ensures ToLower(s) == "ex" <==> InAnyCase(s, "ex")
  {
    LowerInAnyCase(s, "px");
    LowerInAnyCase(s, "ex");
  }

  lemma OptionsFromFront(options: seq<string>)
    requires |options| >= 2
    ensures AllOptions(options) <==> OptionAt(options, 0) && AllOptions(options[2..])
  {
    var rest := options[2..];
    forall i: nat
      ensures OptionAt(options, i + 1) <==> OptionAt(rest, i)
    {
      if 2 * i + 1 < |rest| {
        assert rest[2 * i] == options[2 * (i + 1)] && rest[2 * i + 1] == options[2 * (i + 1) + 1];
      }
    }
    if AllOptions(options) {
      forall i: nat | 2 * i < |rest|
        ensures OptionAt(rest, i)
      {
        assert OptionAt(options, i + 1);
      }
    }
    if OptionAt(options, 0) && AllOptions(rest) {
      forall i: nat | 2 * i < |options|
        ensures OptionAt(options, i)
      {
        if i > 0 {
          assert OptionAt(rest, i - 1);
        }
      }
    }
  }

  lemma LastOfRest(options: seq<string>, now: int)
    requires |options| > 2 && AllOptions(options)
    ensures |options[2..]| >= 2 && Atoi(options[2..][|options[2..]| - 1]).Some? && Atoi(options[|options| - 1]).Some?
    ensures LastExpiry(options[2..], now) == LastExpiry(options, now)
  {
    assert OptionAt(options, |options| / 2 - 1);
  }

  lemma {:induction false} OptionsDecide(options: seq<string>, now: int, at: Option<int>)
    ensures SetOptions(options, now, at).ExpiresAt? <==> AllOptions(options)
    ensures AllOptions(options) ==>
      (options != [] ==> |options| >= 2 && Atoi(options[|options| - 1]).Some?)
      && SetOptions(options, now, at) == ExpiresAt(if options == [] then at else Some(LastExpiry(options, now)))
    decreases |options|
  {
    if |options| == 1 {
      OptionNames(options[0]);
    } else if |options| >= 2 {
      OptionNames(options[0]);
      OptionsFromFront(options);
      if OptionAt(options, 0) {
        var n := Atoi(options[1]).value;
        if |options| > 2 && AllOptions(options) {
          LastOfRest(options, now);
        }
        OptionsDecide(options[2..], now, Some(if ToLower(options[0]) == "px" then now + n else now + 1000 * n));
      }
    }
  }

  /** SET succeeds if and only if what follows the value is a list of expiries, and then the last one counts. */
  lemma SetAnswers(args: seq<string>, env: Env, data: Data)
    requires |args| >= 2
    ensures Handle(SET, args, env, data).Done? <==> AllOptions(args[2..])
    ensures AllOptions(args[2..]) ==>
      && (|args| > 2 ==> |args[2..]| >= 2 && Atoi(args[2..][|args| - 3]).Some?)
      && Handle(SET, args, env, data) ==
         Done(data[args[0] := Entry(Str(args[1]), if |args| == 2 then None else Some(LastExpiry(args[2..], env.now)))],
              Status("OK"))
  {
    OptionsDecide(args[2..], env.now, None);
    OptionsDecide(args[2..], 0, None);
  }

  /** What is not set does not expire, and an entry that expires is there until its time has passed. */
  predicate Live(data: Data, key: string, now: int) {
    key in data && (data[key].expireAt.Some? ==> now <= data[key].expireAt.value)
  }

  /** GET never fails. It answers the text of an entry that has not expired, and drops one that has. */
  lemma GetAnswers(args: seq<string>, env: Env, data: Data)
    requires |args| >= 1
    ensures var o := Handle(GET, args, env, data);
            && o.Done?
            && o.data == (if Live(data, args[0], env.now) then data else data - {args[0]})
            && (Live(data, args[0], env.now) && data[args[0]].value.Str? ==> o.reply == Bulk(data[args[0]].value.text))
            && (!Live(data, args[0], env.now) ==> o.reply == NullBulk)
  {
    assert args[0] !in data ==> data - {args[0]} == data;
  }

  /** A value that was set is read back, at any time up to its expiry and not after. */
  lemma SetThenGet(args: seq<string>, env: Env, data: Data, o: Outcome, later: Env)
    requires |args| >= 2 && o == Handle(SET, args, env, data) && o.Done?
    ensures |args| > 2 ==> AllOptions(args[2..]) && |args[2..]| >= 2 && Atoi(args[2..][|args| - 3]).Some?
    ensures var live := |args| > 2 ==> later.now <= LastExpiry(args[2..], env.now);
            Handle(GET, [args[0]], later, o.data) ==
            if live then Done(o.data, Bulk(args[1])) else Done(data - {args[0]}, NullBulk)
  {
    SetAnswers(args, env, data);
    GetAnswers([args[0]], later, o.data);
    assert o.data - {args[0]} == data - {args[0]};
  }

  /** The number after `n` in 64 bits. */
  function NextInt64(n: int): int {
    if n == 9223372036854775807 then -9223372036854775808 else n + 1
  }

  lemma ZeroAndOne()
    ensures Itoa(1) == "1"
  {
    assert NatToString(1) == [Digit(1)];
  }

  /** INCR succeeds if and only if the key is absent or holds the text of a 64-bit number. It then holds and
      answers the next one, an absent key counting as 0, and keeps its expiry. */
  lemma IncrAnswers(args: seq<string>, env: Env, data: Data)
    requires |args| == 1
    ensures var key, o := args[0], Handle(INCR, args, env, data);
            && (o.Done? <==> (key in data ==> data[key].value.Str? && Atoi(data[key].value.text).Some?))
            && (o.Done? ==>
                  var n := NextInt64(if key in data then Atoi(data[key].value.text).value else 0);
                  o == Done(data[key := Entry(Str(Itoa(n)), if key in data then data[key].expireAt else None)], Number(n)))
  {
    ZeroAndOne();
  }

  /** The store after `n` times INCR of a key, and the last answer. */
  function Increments(data: Data, key: string, env: Env, n: nat): Outcome
    requires n > 0
  {
    if n == 1 then Handle(INCR, [key], env, data)
    else match Increments(data, key, env, n - 1)
      case Failed => Failed
      case Done(d, _) => Handle(INCR, [key], env, d)
  }

  /** INCR counts: after n of them on an absent key, it holds and the last one answered n. */
  lemma {:induction false} IncrCounts(data: Data, key: string, env: Env, n: nat)
    requires key !in data && 0 < n < 9223372036854775808
    ensures Increments(data, key, env, n) == Done(data[key := Entry(Str(Itoa(n)), None)], Number(n))
  {
    if n == 1 {
      IncrAnswers([key], env, data);
    } else {
      IncrCounts(data, key, env, n - 1);
      ParseIntOfItoa(n - 1, INT64_BOUND);
      IncrAnswers([key], env, data[key := Entry(Str(Itoa(n - 1)), None)]);
    }
  }

  // ---------------------------------------------------------------------------------------
  // Lists
  // ---------------------------------------------------------------------------------------

  /** A push command is `ListPush` on a key nobody waits for. */
  lemma PushHandled(c: Cmd, args: seq<string>, env: Env, data: Data, right: bool) returns (p: Pushed<int>)
    requires |args| >= 2 && c == if right then RPUSH else LPUSH
    ensures p == ListPush<int>(data, map[], args[0], args[1..], right)
    ensures Handle(c, args, env, data) == if p.length == None then Failed else Done(p.data, Number(p.length.value))
  {
    p := ListPush<int>(data, map[], args[0], args[1..], right);
  }

  lemma PushFails(data: Data, key: string, values: seq<string>, right: bool)
    requires !ListOrAbsent(data, key)
    ensures ListPush<int>(data, map[], key, values, right).length == None
  {
  }

  lemma PushLength(data: Data, key: string, values: seq<string>, right: bool, p: Pushed<int>)
    requires ListOrAbsent(data, key) && p == ListPush<int>(data, map[], key, values, right)
    ensures ListOrAbsent(p.data, key) && |ItemsAt(p.data, key)| == |ItemsAt(data, key)| + |values|
    ensures p.length == Some(|ItemsAt(data, key)| + |values|)
  {
    ListPushServes<int>(data, map[], key, values, right);
    PushedListLength(ItemsAt(data, key), values, right);
  }

  /** A push succeeds if and only if the key is absent or holds a list, and answers the new length. */
  lemma PushAnswers(c: Cmd, args: seq<string>, env: Env, data: Data, o: Outcome, right: bool)
    requires |args| >= 2 && c == (if right then RPUSH else LPUSH) && o == Handle(c, args, env, data)
    ensures o.Done? <==> ListOrAbsent(data, args[0])
    ensures o.Done? ==>
      && ListOrAbsent(o.data, args[0])
      && |ItemsAt(o.data, args[0])| == |ItemsAt(data, args[0])| + |args| - 1
      && o.reply == Number(|ItemsAt(data, args[0])| + |args| - 1)
  {
    var p := PushHandled(c, args, env, data, right);
    if ListOrAbsent(data, args[0]) {
      PushLength(data, args[0], args[1..], right, p);
    } else {
      PushFails(data, args[0], args[1..], right);
    }
  }

  lemma PushedValue(data: Data, key: string, values: seq<string>, right: bool, p: Pushed<int>, i: nat)
    requires ListOrAbsent(data, key) && p == ListPush<int>(data, map[], key, values, right)
    requires i < |ItemsAt(data, key)| + |values| && i < |ItemsAt(p.data, key)|
    ensures ItemsAt(p.data, key)[i] == ValueAt(ItemsAt(data, key), values, right, i)
  {
    PushKeepsOrder<int>(data, map[], key, values, right, p, 0, i);
  }

  lemma ValueOfArgs(before: seq<string>, args: seq<string>, right: bool, i: nat)
    requires args != [] && i < |before| + |args| - 1
    ensures ValueAt(before, args[1..], right, i) ==
            if right then (if i < |before| then before[i] else args[1 + i - |before|])
            else if i < |args| - 1 then args[|args| - 1 - i] else before[i - (|args| - 1)]
  {
  }

  /** After RPUSH the values are at the end of the list in order; after LPUSH each is before the ones given
      earlier. */
  lemma PushedItem(c: Cmd, args: seq<string>, env: Env, data: Data, o: Outcome, right: bool, i: nat)
    requires |args| >= 2 && c == (if right then RPUSH else LPUSH) && o == Handle(c, args, env, data) && o.Done?
    requires i < |ItemsAt(data, args[0])| + |args| - 1
    ensures i < |ItemsAt(o.data, args[0])|
    ensures var before, n := ItemsAt(data, args[0]), |args| - 1;
            ItemsAt(o.data, args[0])[i] ==
              if right then (if i < |before| then before[i] else args[1 + i - |before|])
              else if i < n then args[n - i] else before[i - n]
  {
    PushAnswers(c, args, env, data, o, right);
    var p := PushHandled(c, args, env, data, right);
    PushedValue(data, args[0], args[1..], right, p, i);
    ValueOfArgs(ItemsAt(data, args[0]), args, right, i);
  }

  /** How many elements a pop takes off a list of `size`. */
  function Popped(wanted: int, size: nat): nat {
    if wanted < 0 then 0 else if wanted < size then wanted else size
  }

  /** LPOP fails on a count that is no number, on another type, and on a negative count of a list with elements.
      Else it takes so many elements off the front and answers them in order, or null when there are none. */
  lemma LPopAnswers(args: seq<string>, env: Env, data: Data, o: Outcome)
    requires 1 <= |args| <= 2 && o == Handle(LPOP, args, env, data)
    ensures var items := ItemsAt(data, args[0]);
            o.Done? <==>
              && ListOrAbsent(data, args[0])
              && (|args| == 2 ==> Atoi(args[1]).Some? && (Atoi(args[1]).value >= 0 || items == []))
    ensures o.Done? ==>
      var items := ItemsAt(data, args[0]);
      var n := Popped(if |args| == 1 then 1 else Atoi(args[1]).value, |items|);
      if n == 0 then o == Done(data, NullBulk)
      else args[0] in data &&
           o == Done(data[args[0] := Entry(List(items[n..]), data[args[0]].expireAt)],
                     if |args| == 1 then Bulk(items[0]) else Array(items[..n]))
  {
  }

  /** BLPOP that finds an element takes the first one and answers it with its key. */
  lemma BLPopAnswers(args: seq<string>, env: Env, data: Data, o: Outcome)
    requires |args| >= 2 && o == Handle(BLPOP, args, env, data)
    ensures o.Done? <==> env.parseFloat(args[1]).Some? && ListOrAbsent(data, args[0])
    ensures o.Done? ==>
      var key, items := args[0], ItemsAt(data, args[0]);
      if items == [] then o == Done(data, NullArray)
      else && key in data && o.data == data[key := Entry(List(items[1..]), data[key].expireAt)]
           && o.reply == if key == "" && items[0] == "" then NullArray else Array([key, items[0]])
  {
  }

  lemma DropFront(items: seq<string>, before: seq<string>, n: nat)
    requires |items| == n + |before| && forall i :: 0 <= i < |before| ==> items[n + i] == before[i]
    ensures items[n..] == before
  {
  }

  lemma PushedLeft(args: seq<string>, env: Env, data: Data, o: Outcome)
    requires |args| >= 2 && o == Handle(LPUSH, args, env, data) && o.Done?
    ensures var n, before, items := |args| - 1, ItemsAt(data, args[0]), ItemsAt(o.data, args[0]);
            && ListOrAbsent(o.data, args[0])
            && |items| == n + |before| && items[n..] == before
            && forall i :: 0 <= i < n ==> items[i] == args[n - i]
  {
    var n, before, items := |args| - 1, ItemsAt(data, args[0]), ItemsAt(o.data, args[0]);
    PushAnswers(LPUSH, args, env, data, o, false);
    forall i | 0 <= i < n
      ensures items[i] == args[n - i]
    {
      PushedItem(LPUSH, args, env, data, o, false, i);
    }
    forall i | 0 <= i < |before|
      ensures items[n + i] == before[i]
    {
      PushedItem(LPUSH, args, env, data, o, false, n + i);
    }
    DropFront(items, before, n);
  }

  /** A list is a stack on its left: LPOP of as many elements undoes an LPUSH and answers its values, the last one
      first. */
  lemma PopUndoesPush(args: seq<string>, env: Env, data: Data, o: Outcome, later: Env, u: Outcome)
    requires 2 <= |args| <= 9223372036854775808 && o == Handle(LPUSH, args, env, data) && o.Done?
    requires u == Handle(LPOP, [args[0], Itoa(|args| - 1)], later, o.data)
    ensures u.Done? && ItemsAt(u.data, args[0]) == ItemsAt(data, args[0])
    ensures u.reply.Array? && |u.reply.items| == |args| - 1
    ensures forall i :: 0 <= i < |args| - 1 ==> u.reply.items[i] == args[|args| - 1 - i]
  {
    PushedLeft(args, env, data, o);
    ParseIntOfItoa(|args| - 1, INT64_BOUND);
    LPopAnswers([args[0], Itoa(|args| - 1)], later, o.data, u);
  }

  // ---------------------------------------------------------------------------------------
  // Sorted sets
  // ---------------------------------------------------------------------------------------

  /** The arguments of ZADD after the key: scores at even places, each before its member. */
  ghost predicate AllPairs(args: seq<string>, parseFloat: string -> Option<Score>) {
    |args| % 2 == 0 && forall i: nat :: 2 * i < |args| ==> parseFloat(args[2 * i]).Some?
  }

  lemma PairsFromFront(args: seq<string>, parseFloat: string -> Option<Score>)
    requires |args| >= 2
    ensures AllPairs(args, parseFloat) <==> parseFloat(args[0]).Some? && AllPairs(args[2..], parseFloat)
  {
    var rest := args[2..];
    assert forall i: nat :: 2 * i < |rest| ==> rest[2 * i] == args[2 * (i + 1)];
    if AllPairs(args, parseFloat) {
      assert parseFloat(args[2 * 0]).Some?;
      forall i: nat | 2 * i < |rest|
        ensures parseFloat(rest[2 * i]).Some?
      {
        assert parseFloat(args[2 * (i + 1)]).Some?;
      }
    }
    if parseFloat(args[0]).Some? && AllPairs(rest, parseFloat) {
      forall i: nat | 2 * i < |args|
        ensures parseFloat(args[2 * i]).Some?
      {
        if i > 0 {
          assert parseFloat(rest[2 * (i - 1)]).Some?;
        }
      }
    }
  }

  /** ZADD reads every pair of its arguments, in order, or none when one is no pair. */
  lemma {:induction false} PairsRead(args: seq<string>, parseFloat: string -> Option<Score>)
    ensures ParsePairs(args, parseFloat).Some? <==> AllPairs(args, parseFloat)
    ensures ParsePairs(args, parseFloat).Some? ==> |ParsePairs(args, parseFloat).value| == |args| / 2
    ensures ParsePairs(args, parseFloat).Some? ==> forall i: nat :: 2 * i + 1 < |args| ==>
      && i < |ParsePairs(args, parseFloat).value|
      && ParsePairs(args, parseFloat).value[i].member == args[2 * i + 1]
      && parseFloat(args[2 * i]) == Some(ParsePairs(args, parseFloat).value[i].score)
    decreases |args|
  {
    if |args| >= 2 {
      var rest := args[2..];
      PairsFromFront(args, parseFloat);
      PairsRead(rest, parseFloat);
      if ParsePairs(args, parseFloat).Some? {
        var pairs, later := ParsePairs(args, parseFloat).value, ParsePairs(rest, parseFloat).value;
        forall i: nat | 2 * i + 1 < |args|
          ensures i < |pairs| && pairs[i].member == args[2 * i + 1] && parseFloat(args[2 * i]) == Some(pairs[i].score)
        {
          if i > 0 {
            assert pairs[i] == later[i - 1] && rest[2 * (i - 1)] == args[2 * i] && rest[2 * (i - 1) + 1] == args[2 * i + 1];
          }
        }
      }
    }
  }

  /** The scores a key holds; an absent key, or one of another type, holds none. */
  function ScoresAt(data: Data, key: string): map<string, Score> {
    if key in data && data[key].value.Zset? then data[key].value.zset.scores else map[]
  }

  /** The scores after the pairs are laid over them in order. */
  function Laid(scores: map<string, Score>, entries: seq<Pair>): map<string, Score> {
    if entries == [] then scores else
      var last := entries[|entries| - 1];
      Laid(scores, entries[..|entries| - 1])[last.member := last.score]
  }

  lemma {:induction false} UpsertIsLaid(z: ZVal, entries: seq<Pair>)
    ensures Upsert(z, entries).scores == Laid(z.scores, entries)
    ensures Added(z, entries) == |Laid(z.scores, entries)| - |z.scores|
  {
    if entries != [] {
      UpsertIsLaid(z, entries[..|entries| - 1]);
    }
  }

  lemma {:induction false} CreateIsLaid(entries: seq<Pair>)
    ensures Create(entries).scores == Laid(map[], entries)
  {
    if entries != [] {
      CreateIsLaid(entries[..|entries| - 1]);
    }
  }

  ghost predicate NotGiven(entries: seq<Pair>, m: string, from: nat) {
    forall i :: from <= i < |entries| ==> entries[i].member != m
  }

  /** Members that a batch does not name keep their score, or stay out. */
  lemma {:induction false} NotGivenStays(scores: map<string, Score>, entries: seq<Pair>, m: string)
    requires NotGiven(entries, m, 0)
    ensures m in Laid(scores, entries) <==> m in scores
    ensures m in scores ==> Laid(scores, entries)[m] == scores[m]
  {
    if entries != [] {
      NotGivenStays(scores, entries[..|entries| - 1], m);
      assert entries[|entries| - 1].member != m;
    }
  }

  /** The last pair of a batch with a member decides its score. */
  lemma {:induction false} LastGivenWins(scores: map<string, Score>, entries: seq<Pair>, i: nat)
    requires i < |entries| && NotGiven(entries, entries[i].member, i + 1)
    ensures var m := entries[i].member;
            m in Laid(scores, entries) && Laid(scores, entries)[m] == entries[i].score
  {
    var before, last := entries[..|entries| - 1], entries[|entries| - 1];
    if i < |before| {
      assert last.member != entries[i].member;
      LastGivenWins(scores, before, i);
    }
  }

  lemma ZAddIsStored(args: seq<string>, env: Env, data: Data, o: Outcome)
    requires |args| >= 3 && o == Handle(ZADD, args, env, data)
    ensures match ParsePairs(args[1..], env.parseFloat)
            case None => o == Failed
            case Some(entries) =>
              match ZAddTo(data, args[0], entries)
              case None => o == Failed
              case Some((data', added)) => o == Done(data', Number(added))
  {
  }

  lemma CreatedBatch(data: Data, key: string, entries: seq<Pair>)
    requires key !in data
    ensures ZAddTo(data, key, entries).Some? && ZAddTo(data, key, entries).value.1 == |entries|
    ensures ScoresAt(ZAddTo(data, key, entries).value.0, key) == Laid(map[], entries)
  {
    CreateIsLaid(entries);
  }

  lemma AddedBatch(data: Data, key: string, entries: seq<Pair>)
    requires key in data && data[key].value.Zset?
    ensures ZAddTo(data, key, entries).Some?
    ensures var before := ScoresAt(data, key);
            && ZAddTo(data, key, entries).value.1 == |Laid(before, entries)| - |before|
            && ScoresAt(ZAddTo(data, key, entries).value.0, key) == Laid(before, entries)
  {
    UpsertIsLaid(data[key].value.zset, entries);
  }

  /** `Store.ZAdd`, by the scores of the key. */
  lemma StoredBatch(data: Data, key: string, entries: seq<Pair>)
    ensures var r, before := ZAddTo(data, key, entries), ScoresAt(data, key);
            && (r.Some? <==> (key in data ==> data[key].value.Zset?))
            && (r.Some? ==>
                  && ScoresAt(r.value.0, key) == Laid(before, entries)
                  && r.value.1 == (if key in data then |Laid(before, entries)| - |before| else |entries|))
  {
    if key !in data {
      CreatedBatch(data, key, entries);
    } else if data[key].value.Zset? {
      AddedBatch(data, key, entries);
    }
  }

  /** ZADD succeeds if and only if its arguments are pairs of a score and a member and the key is absent or holds
      a sorted set. It answers the growth of the scores, or on an absent key the number of pairs. */
  lemma ZAddAnswers(args: seq<string>, env: Env, data: Data, o: Outcome)
    requires |args| >= 3 && o == Handle(ZADD, args, env, data)
    ensures o.Done? <==> AllPairs(args[1..], env.parseFloat) && (args[0] in data ==> data[args[0]].value.Zset?)
    ensures o.Done? ==>
      o.reply == Number(if args[0] in data then |ScoresAt(o.data, args[0])| - |ScoresAt(data, args[0])| else |args| / 2)
  {
    ZAddIsStored(args, env, data, o);
    PairsRead(args[1..], env.parseFloat);
    var entries := ParsePairs(args[1..], env.parseFloat);
    if entries.Some? {
      StoredBatch(data, args[0], entries.value);
    }
  }

  /** The pairs of a ZADD that succeeded, as its arguments name them, and the scores they leave. */
  lemma ZAddBatch(args: seq<string>, env: Env, data: Data, o: Outcome) returns (entries: seq<Pair>)
    requires |args| >= 3 && o == Handle(ZADD, args, env, data) && o.Done?
    ensures |entries| == (|args| - 1) / 2
    ensures forall i: nat :: 2 * i + 2 < |args| ==>
      && i < |entries| && entries[i].member == args[2 * i + 2] && env.parseFloat(args[2 * i + 1]) == Some(entries[i].score)
    ensures ScoresAt(o.data, args[0]) == Laid(ScoresAt(data, args[0]), entries)
  {
    ZAddIsStored(args, env, data, o);
    PairsRead(args[1..], env.parseFloat);
    entries := ParsePairs(args[1..], env.parseFloat).value;
    StoredBatch(data, args[0], entries);
    forall i: nat | 2 * i + 2 < |args|
      ensures i < |entries| && entries[i].member == args[2 * i + 2]
      ensures env.parseFloat(args[2 * i + 1]) == Some(entries[i].score)
    {
      assert 2 * i + 1 < |args[1..]| && args[1..][2 * i] == args[2 * i + 1] && args[1..][2 * i + 1] == args[2 * i + 2];
    }
  }

  /** Argument `i` is a member that no later pair names. */
  ghost predicate LastNamed(args: seq<string>, i: nat) {
    2 * i + 2 < |args| && forall j: nat :: i < j && 2 * j + 2 < |args| ==> args[2 * j + 2] != args[2 * i + 2]
  }

  /** After ZADD each member it names has the score before its last mention. */
  lemma ZAddStores(args: seq<string>, env: Env, data: Data, o: Outcome, i: nat)
    requires |args| >= 3 && o == Handle(ZADD, args, env, data) && o.Done? && LastNamed(args, i)
    ensures var scores := ScoresAt(o.data, args[0]);
            args[2 * i + 2] in scores && env.parseFloat(args[2 * i + 1]) == Some(scores[args[2 * i + 2]])
  {
    var entries := ZAddBatch(args, env, data, o);
    forall k | i + 1 <= k < |entries|
      ensures entries[k].member != entries[i].member
    {
      assert entries[k].member == args[2 * k + 2];
    }
    LastGivenWins(ScoresAt(data, args[0]), entries, i);
  }

  /** And the members it does not name keep theirs, or stay out. */
  lemma ZAddKeeps(args: seq<string>, env: Env, data: Data, o: Outcome, m: string)
    requires |args| >= 3 && o == Handle(ZADD, args, env, data) && o.Done?
    requires forall i: nat :: 2 * i + 2 < |args| ==> args[2 * i + 2] != m
    ensures m in ScoresAt(o.data, args[0]) <==> m in ScoresAt(data, args[0])
    ensures m in ScoresAt(data, args[0]) ==> ScoresAt(o.data, args[0])[m] == ScoresAt(data, args[0])[m]
  {
    var entries := ZAddBatch(args, env, data, o);
    forall k | 0 <= k < |entries|
      ensures entries[k].member != m
    {
      assert entries[k].member == args[2 * k + 2];
    }
    NotGivenStays(ScoresAt(data, args[0]), entries, m);
  }

  /** ZREM fails on another type only. It takes the member out of the scores, leaves the others, and answers whether
      it was there. */
  lemma ZRemAnswers(args: seq<string>, env: Env, data: Data, o: Outcome)
    requires |args| == 2 && o == Handle(ZREM, args, env, data)
    ensures o.Done? <==> (args[0] in data ==> data[args[0]].value.Zset?)
    ensures o.Done? ==>
      && ScoresAt(o.data, args[0]) == ScoresAt(data, args[0]) - {args[1]}
      && o.reply == Number(if args[1] in ScoresAt(data, args[0]) then 1 else 0)
      && (args[0] !in data ==> o.data == data)
  {
  }

  /** GEOPOS fails on another type only. It answers in order, for each member asked, the point of its score, or
      none for one that is no member. */
  lemma GeoPosAnswersEach(args: seq<string>, env: Env, data: Data, o: Outcome, i: nat)
    requires |args| >= 2 && o == Handle(GEOPOS, args, env, data) && i + 1 < |args|
    ensures o.Done? <==> (args[0] in data ==> data[args[0]].value.Zset?)
    ensures o.Done? ==>
      var scores := ScoresAt(data, args[0]);
      && o.data == data && o.reply.Positions? && |o.reply.points| == |args| - 1
      && o.reply.points[i] == if args[i + 1] in scores then Some(env.position(scores[args[i + 1]])) else None
  {
  }

  // ---------------------------------------------------------------------------------------
  // Expiries
  // ---------------------------------------------------------------------------------------

  /** The entry at the key expires as before; a new one does not expire. */
  ghost predicate SameExpiry(o: Outcome, data: Data, key: string) {
    o.Done? && key in o.data ==> o.data[key].expireAt == if key in data then data[key].expireAt else None
  }

  lemma PushKeepsExpiry(args: seq<string>, right: bool, data: Data)
    requires |args| >= 2
    ensures SameExpiry(HandlePush(args, right, data), data, args[0])
  {
  }

  lemma SetKeepsExpiry(args: seq<string>, env: Env, data: Data)
    requires |args| >= 2
    ensures SameExpiry(HandleZAdd(args, env.parseFloat, data), data, args[0])
    ensures SameExpiry(HandleZRem(args, data), data, args[0])
    ensures |args| >= 4 ==> SameExpiry(HandleGeoAdd(args, env, data), data, args[0])
  {
  }

  /** Every write but SET keeps the expiry of the entry it works on, and gives none to a new one; none removes an
      entry. */
  lemma WritesKeepExpiry(c: Cmd, args: seq<string>, env: Env, data: Data)
    requires ArityOk(c, |args|) && IsWrite(c) && c != SET
    ensures SameExpiry(Handle(c, args, env, data), data, args[0])
    ensures Handle(c, args, env, data).Done? && args[0] in data ==> args[0] in Handle(c, args, env, data).data
  {
    match c {
      case RPUSH | LPUSH => PushKeepsExpiry(args, c == RPUSH, data);
      case ZADD | ZREM | GEOADD => SetKeepsExpiry(args, env, data);
      case _ =>
    }
  }

  // ---------------------------------------------------------------------------------------
  // The other commands
  // ---------------------------------------------------------------------------------------

  /** The other commands answer what the store says and leave it, but for PUBLISH without a message and LRANGE with a
      negative start on an empty list, on which the source stops. */
  lemma ReadAnswers(c: Cmd, args: seq<string>, env: Env, data: Data)
    requires ArityOk(c, |args|) && !IsWrite(c) && c != GET && c != GEOPOS
    ensures var stops :=
              || (c == PUBLISH && |args| == 1)
              || (c == LRANGE && Atoi(args[1]).Some? && Atoi(args[1]).value < 0 && Atoi(args[2]).Some?
                  && args[0] in data && data[args[0]].value == List([]));
            Handle(c, args, env, data) ==
            if stops || env.answer(c, args, data) == None then Failed else Done(data, env.answer(c, args, data).value)
  {
  }
}
