/** What the store maps keys to, and the list operations that hand values to blocked clients. */
module Keyspace {
  import opened Text
  import opened ZSets

  datatype Value = Str(text: string) | List(items: seq<string>) | Zset(zset: ZVal)

  /** An entry; the expiry is in milliseconds, None for the zero time. */
  datatype Entry = Entry(value: Value, expireAt: Option<int>)

  type Data = map<string, Entry>

  /** Blocked clients by key, oldest first. A key without any has no entry. */
  type Waiters<W> = map<string, seq<W>>

  function WaitersAt<W>(waiters: Waiters<W>, key: string): seq<W> {
    if key in waiters then waiters[key] else []
  }

  /** The list at a key; an absent key holds the empty list. */
  function ItemsAt(data: Data, key: string): seq<string> {
    if key in data && data[key].value.List? then data[key].value.items else []
  }

  predicate ListOrAbsent(data: Data, key: string) {
    key in data ==> data[key].value.List?
  }

  function Reverse(s: seq<string>): (r: seq<string>)
    ensures |r| == |s| && multiset(r) == multiset(s)
  {
    if s == [] then [] else
      assert s == s[..|s| - 1] + [s[|s| - 1]];
      [s[|s| - 1]] + Reverse(s[..|s| - 1])
  }

  function Zip<W>(ws: seq<W>, vs: seq<string>): (r: seq<(W, string)>)
    requires |ws| == |vs|
    ensures |r| == |ws| && forall i :: 0 <= i < |r| ==> r[i] == (ws[i], vs[i])
  {
    seq(|ws|, i requires 0 <= i < |ws| => (ws[i], vs[i]))
  }

  /** The outcome of `ListPush`: the new state, the values handed to waiters in the order they were
      sent, and the length of the entry it returns, or None for its error. */
  datatype Pushed<W> = Pushed(data: Data, waiters: Waiters<W>, sent: seq<(W, string)>, length: Option<nat>)

  /** The queue of a key after its first `n` waiters were served. */
  function Unqueue<W>(waiters: Waiters<W>, key: string, n: nat): Waiters<W>
    requires n <= |WaitersAt(waiters, key)|
  {
    if key !in waiters then waiters
    else if n < |waiters[key]| then waiters[key := waiters[key][n..]]
    else waiters - {key}
  }

  /** The entry part of `ListPush`, once the waiters have taken their share. */
  function Extend(data: Data, key: string, values: seq<string>, right: bool): (Data, Option<nat>) {
    if key !in data then (data[key := Entry(List(values), None)], Some(|values|))
    else if !data[key].value.List? then (data, None)
    else
      var items := if right then data[key].value.items + values else values + data[key].value.items;
      (data[key := Entry(List(items), data[key].expireAt)], Some(|items|))
  }

  /** `ListPush`: waiters first, oldest first; what is left goes to the list. A left push starts
      from the reversed values. */
  function ListPush<W>(data: Data, waiters: Waiters<W>, key: string, values: seq<string>, right: bool): Pushed<W> {
    PushValues(data, waiters, key, if right then values else Reverse(values), right)
  }

  function PushValues<W>(data: Data, waiters: Waiters<W>, key: string, vs: seq<string>, right: bool): Pushed<W> {
    var queue := WaitersAt(waiters, key);
    var n := Min(|queue|, |vs|);
    var waiters' := Unqueue(waiters, key, n);
    var sent := Zip(queue[..n], vs[..n]);
    if key in waiters && n == |vs| then Pushed(data, waiters', sent, Some(0))
    else
      var (data', length) := Extend(data, key, vs[n..], right);
      Pushed(data', waiters', sent, length)
  }

  /** A key in the waiter store has a waiter, and holds no list elements. */
  ghost predicate WaitersMeanEmpty<W>(data: Data, waiters: Waiters<W>) {
    forall k :: k in waiters ==> waiters[k] != [] && ItemsAt(data, k) == []
  }

  /** The reference: push every value, then serve waiters oldest first with left pops. */
  function PushedList(items: seq<string>, values: seq<string>, right: bool): seq<string> {
    if right then items + values else Reverse(values) + items
  }

  lemma {:induction false} ReverseAt(s: seq<string>, i: nat)
    requires i < |s|
    ensures Reverse(s)[i] == s[|s| - 1 - i]
  {
    if i > 0 {
      ReverseAt(s[..|s| - 1], i - 1);
    }
  }

  /** The value at a position of the pushed list: a right push adds at the end in order, and a left push puts
      each value before the ones pushed earlier. */
  function ValueAt(items: seq<string>, values: seq<string>, right: bool, i: nat): string
    requires i < |items| + |values|
  {
    if right then (if i < |items| then items[i] else values[i - |items|])
    else if i < |values| then values[|values| - 1 - i]
    else items[i - |values|]
  }

  lemma PushedListAt(items: seq<string>, values: seq<string>, right: bool, i: nat)
    requires i < |items| + |values|
    ensures |PushedList(items, values, right)| == |items| + |values|
    ensures PushedList(items, values, right)[i] == ValueAt(items, values, right, i)
  {
    if !right && i < |values| {
      ReverseAt(values, i);
    }
  }

  lemma ServeSplit(items: seq<string>, vs: seq<string>, right: bool, q: nat)
    requires q > 0 ==> items == []
    ensures var all := if right then items + vs else vs + items;
            var n := Min(q, |vs|);
            && Min(q, |all|) == n
            && all[..n] == vs[..n]
            && all[n..] == if right then items + vs[n..] else vs[n..] + items
  {
    if items == [] {
      assert items + vs == vs && vs + items == vs;
    }
  }

  /** Two stores hold the same entry, or none, at a key. */
  predicate SameAt(data: Data, data': Data, key: string) {
    (key in data <==> key in data') && (key in data ==> data[key] == data'[key])
  }

  lemma ExtendItems(data: Data, key: string, values: seq<string>, right: bool)
    requires ListOrAbsent(data, key)
    ensures var (data', length) := Extend(data, key, values, right);
            && ItemsAt(data', key) == (if right then ItemsAt(data, key) + values else values + ItemsAt(data, key))
            && length == Some(|ItemsAt(data', key)|)
            && ListOrAbsent(data', key)
  {
  }

  lemma ExtendFrame(data: Data, key: string, values: seq<string>, right: bool, k: string)
    ensures var (data', length) := Extend(data, key, values, right);
            && (k != key ==> SameAt(data, data', k))
            && (length == None ==> data' == data)
  {
  }

  /** `p` is what push-then-serve gives when pushing makes the list `all`: the first waiters get the
      first values, the rest is the list, and its length is returned. */
  ghost predicate Serves<W>(waiters: Waiters<W>, key: string, all: seq<string>, p: Pushed<W>) {
    var queue := WaitersAt(waiters, key);
    var n := Min(|queue|, |all|);
    && p.sent == Zip(queue[..n], all[..n])
    && WaitersAt(p.waiters, key) == queue[n..]
    && ItemsAt(p.data, key) == all[n..]
    && p.length == Some(|all| - n)
    && ListOrAbsent(p.data, key)
  }

  lemma ServesOnlyWaiters<W>(data: Data, waiters: Waiters<W>, key: string, vs: seq<string>, p: Pushed<W>)
    requires ListOrAbsent(data, key) && ItemsAt(data, key) == []
    requires key in waiters && |vs| <= |waiters[key]|
    requires p == Pushed(data, Unqueue(waiters, key, |vs|), Zip(waiters[key][..|vs|], vs), Some(0))
    ensures Serves(waiters, key, vs, p)
  {
    assert vs[..|vs|] == vs;
  }

  lemma ServesAndExtends<W>(data: Data, waiters: Waiters<W>, key: string, vs: seq<string>, right: bool, p: Pushed<W>)
    requires ListOrAbsent(data, key) && (WaitersAt(waiters, key) != [] ==> ItemsAt(data, key) == [])
    requires var n := Min(|WaitersAt(waiters, key)|, |vs|);
             && p.waiters == Unqueue(waiters, key, n)
             && p.sent == Zip(WaitersAt(waiters, key)[..n], vs[..n])
             && (p.data, p.length) == Extend(data, key, vs[n..], right)
    ensures Serves(waiters, key, if right then ItemsAt(data, key) + vs else vs + ItemsAt(data, key), p)
  {
    ServeSplit(ItemsAt(data, key), vs, right, |WaitersAt(waiters, key)|);
    ExtendItems(data, key, vs[Min(|WaitersAt(waiters, key)|, |vs|)..], right);
  }

  /** On a list or an absent key, `ListPush` is push-then-serve, in both directions. */
  lemma ListPushServes<W>(data: Data, waiters: Waiters<W>, key: string, values: seq<string>, right: bool)
    requires ListOrAbsent(data, key)
    requires key in waiters ==> waiters[key] != [] && ItemsAt(data, key) == []
    ensures Serves(waiters, key, PushedList(ItemsAt(data, key), values, right),
                   ListPush(data, waiters, key, values, right))
  {
    var p := ListPush(data, waiters, key, values, right);
    var vs := if right then values else Reverse(values);
    var queue := WaitersAt(waiters, key);
    if key in waiters && |vs| <= |queue| {
      assert vs[..|vs|] == vs;
      ServesOnlyWaiters(data, waiters, key, vs, p);
      assert PushedList(ItemsAt(data, key), values, right) == vs;
    } else {
      ServesAndExtends(data, waiters, key, vs, right, p);
    }
  }

  /** No other key changes, and a failed push changes no entry. */
  lemma ListPushFrame<W>(data: Data, waiters: Waiters<W>, key: string, values: seq<string>, right: bool, k: string)
    ensures var p := ListPush(data, waiters, key, values, right);
            && (k != key ==> (k in p.waiters <==> k in waiters) && WaitersAt(p.waiters, k) == WaitersAt(waiters, k))
            && (k != key ==> SameAt(data, p.data, k))
            && (p.length == None ==> p.data == data)
  {
    var vs := if right then values else Reverse(values);
    var n := Min(|WaitersAt(waiters, key)|, |vs|);
    ExtendFrame(data, key, vs[n..], right, k);
  }

  /** Pushing keeps the invariant it rests on, also on keys of another type. */
  lemma ListPushKeepsInvariant<W>(data: Data, waiters: Waiters<W>, key: string, values: seq<string>, right: bool)
    requires WaitersMeanEmpty(data, waiters)
    ensures var p := ListPush(data, waiters, key, values, right);
            WaitersMeanEmpty(p.data, p.waiters)
  {
    var p := ListPush(data, waiters, key, values, right);
    forall k | k in p.waiters
      ensures p.waiters[k] != [] && ItemsAt(p.data, k) == []
    {
      ListPushFrame(data, waiters, key, values, right, k);
      if k == key {
        StillEmpty(data, waiters, key, values, right, p);
      }
    }
  }

  /** Whoever still waits at the key waits on an empty list. */
  lemma StillEmpty<W>(data: Data, waiters: Waiters<W>, key: string, values: seq<string>, right: bool, p: Pushed<W>)
    requires WaitersMeanEmpty(data, waiters) && p == ListPush(data, waiters, key, values, right) && key in p.waiters
    ensures p.waiters[key] != [] && ItemsAt(p.data, key) == []
  {
    if ListOrAbsent(data, key) {
      ListPushServes(data, waiters, key, values, right);
    }
  }

  /** How many waiters a push of `n` values serves. */
  function Served<W>(waiters: Waiters<W>, key: string, n: nat): nat {
    if |WaitersAt(waiters, key)| < n then |WaitersAt(waiters, key)| else n
  }

  /** Who gets which value of a push, by position: the first waiter of the key gets the first value of a right
      push and the last of a left push, and so on. */
  lemma PushServesInOrder<W>(data: Data, waiters: Waiters<W>, key: string, values: seq<string>, right: bool, i: nat)
    requires ListOrAbsent(data, key)
    requires key in waiters ==> waiters[key] != [] && ItemsAt(data, key) == []
    requires i < Served(waiters, key, |values|)
    ensures var p := ListPush(data, waiters, key, values, right);
            && |p.sent| == Served(waiters, key, |values|)
            && p.sent[i] == (waiters[key][i], if right then values[i] else values[|values| - 1 - i])
  {
    ListPushServes(data, waiters, key, values, right);
    PushedListAt(ItemsAt(data, key), values, right, i);
  }

  lemma PushedListLength(items: seq<string>, values: seq<string>, right: bool)
    ensures |PushedList(items, values, right)| == |items| + |values|
  {
  }

  lemma ServesLeaves<W>(waiters: Waiters<W>, key: string, all: seq<string>, p: Pushed<W>, served: nat, i: nat)
    requires Serves(waiters, key, all, p) && served == Min(|WaitersAt(waiters, key)|, |all|)
    requires served + i < |all|
    ensures |ItemsAt(p.data, key)| == |all| - served && ItemsAt(p.data, key)[i] == all[served + i]
  {
  }

  /** Where the values of a push go that no waiter takes, by position: after the old items in order, or each
      before the ones pushed earlier and all before the old items. */
  lemma PushKeepsOrder<W>(data: Data, waiters: Waiters<W>, key: string, values: seq<string>, right: bool, p: Pushed<W>,
                          served: nat, i: nat)
    requires ListOrAbsent(data, key)
    requires key in waiters ==> waiters[key] != [] && ItemsAt(data, key) == []
    requires p == ListPush(data, waiters, key, values, right) && served == Served(waiters, key, |values|)
    requires i < |ItemsAt(data, key)| + |values| - served
    ensures served > 0 ==> ItemsAt(data, key) == []
    ensures |ItemsAt(p.data, key)| == |ItemsAt(data, key)| + |values| - served
    ensures ItemsAt(p.data, key)[i] == ValueAt(ItemsAt(data, key), values, right, served + i)
  {
    var all := PushedList(ItemsAt(data, key), values, right);
    ListPushServes(data, waiters, key, values, right);
    PushedListLength(ItemsAt(data, key), values, right);
    ServesLeaves(waiters, key, all, p, served, i);
    PushedListAt(ItemsAt(data, key), values, right, served + i);
  }
}
