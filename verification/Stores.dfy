/** The store as an object: entries updated in place, sorted sets with their skip lists, and the
    queues of clients blocked in BLPOP. */
module Stores {
  import opened Text
  import opened Order
  import opened ZSets
  import opened Keyspace
  import opened Commands

  datatype Held = HeldStr(text: string) | HeldList(items: seq<string>) | HeldZset(zset: ZSet)

  datatype Slot = Slot(value: Held, expireAt: Option<int>)

  /** A client blocked in BLPOP; its channel has room for one value. */
  class Waiter {
    var channel: seq<string>

    constructor ()
      ensures channel == []
    {
      channel := [];
    }
  }

  datatype Popped = Took(value: string) | Blocked(waiter: Waiter) | WrongType

  /** What a slot holds as a value. */
  ghost function ViewOf(slot: Slot): Entry
    reads if slot.value.HeldZset? then {slot.value.zset, slot.value.zset.list} else {}
  {
    match slot.value
    case HeldStr(text) => Entry(Str(text), slot.expireAt)
    case HeldList(items) => Entry(List(items), slot.expireAt)
    case HeldZset(z) => Entry(Zset(z.View()), slot.expireAt)
  }

  /** No waiter is queued twice, at one key or two. */
  ghost predicate Distinct(waiters: Waiters<Waiter>) {
    forall k, i, l, j :: k in waiters && 0 <= i < |waiters[k]| && l in waiters && 0 <= j < |waiters[l]| ==>
      waiters[k][i] == waiters[l][j] ==> k == l && i == j
  }

  /** Every value is alone in the channel it was sent to. */
  ghost predicate Delivered(sent: seq<(Waiter, string)>)
    reads set i | 0 <= i < |sent| :: sent[i].0
  {
    forall i :: 0 <= i < |sent| ==> sent[i].0.channel == [sent[i].1]
  }

  ghost predicate SameElsewhere(data: map<string, Slot>, data': map<string, Slot>, key: string) {
    forall k :: k != key ==> (k in data <==> k in data') && (k in data ==> data[k] == data'[k])
  }

  lemma UpdatedAt(data: Data, data': Data, key: string)
    requires key in data' && forall k :: k != key ==> SameAt(data, data', k)
    ensures data' == data[key := data'[key]]
  {
    var expected := data[key := data'[key]];
    assert forall k :: k in data' ==> k == key || SameAt(data, data', k);
    assert forall k :: k in expected ==> k == key || SameAt(data, data', k);
  }

  class Store {
    var data: map<string, Slot>
    var waiterStore: map<string, seq<Waiter>>
    ghost var repr: set<object>

    ghost predicate Owns(z: ZSet)
      reads `repr, repr
    {
      && z in repr && z.list in repr && z.list.repr <= repr
      && (forall p :: 0 <= p < |z.list.all| ==> z.list.all[p] in repr)
      && z !in z.list.repr && z.Valid()
    }

    ghost predicate IsZset(k: string)
      reads `data
    {
      k in data && data[k].value.HeldZset?
    }

    /** Every sorted set is well formed, and no two share an object. */
    ghost predicate Valid()
      reads `data, `repr, repr
    {
      && this !in repr
      && (forall k :: IsZset(k) ==> Owns(data[k].value.zset))
      && (forall k, l :: IsZset(k) && IsZset(l) && k != l ==>
            data[k].value.zset.Repr() !! data[l].value.zset.Repr())
    }

    /** The store as a value. */
    ghost function Abs(): Data
      reads `data, `repr, repr
      requires Valid()
    {
      map k | k in data :: ViewOf(data[k])
    }

    constructor ()
      ensures Valid() && Abs() == map[] && waiterStore == map[]
    {
      data := map[];
      waiterStore := map[];
      repr := {};
    }

    /** The objects of the sorted set at a key, if it holds one. */
    ghost function Owned(key: string): set<object>
      reads `data, `repr, repr
      requires Valid()
    {
      if IsZset(key) then data[key].value.zset.Repr() else {}
    }

    /** Only `key` changed: its slot, the objects it owned, and objects made since. */
    twostate predicate ChangedOnly(key: string)
      requires old(Valid())
      reads *
    {
      && this !in repr && old(repr) <= repr
      && SameElsewhere(old(data), data, key)
      && (IsZset(key) ==>
            && Owns(data[key].value.zset)
            && fresh(data[key].value.zset.Repr() - old(Owned(key))))
      && unchanged(old(repr) - old(Owned(key)))
    }

    twostate lemma OthersKept(key: string)
      requires old(Valid()) && ChangedOnly(key)
      ensures forall k :: k != key ==> (IsZset(k) <==> old(IsZset(k)))
      ensures forall k :: IsZset(k) && k != key ==>
        && data[k] == old(data[k])
        && Owns(data[k].value.zset)
        && data[k].value.zset.View() == old(data[k].value.zset.View())
        && data[k].value.zset.Repr() == old(data[k].value.zset.Repr())
    {
      forall k | IsZset(k) && k != key
        ensures && data[k] == old(data[k])
                && Owns(data[k].value.zset)
                && data[k].value.zset.View() == old(data[k].value.zset.View())
                && data[k].value.zset.Repr() == old(data[k].value.zset.Repr())
      {
        var z := data[k].value.zset;
        assert old(z.Repr()) !! old(Owned(key));
        assert unchanged(z) && unchanged(z.list);
        assert unchanged(old(z.Repr()));
      }
    }

    twostate lemma StillValid(key: string)
      requires old(Valid()) && ChangedOnly(key)
      ensures Valid()
    {
      OthersKept(key);
    }

    /** The abstract store changed at `key` alone. */
    twostate lemma AbsElsewhere(key: string)
      requires old(Valid()) && ChangedOnly(key) && Valid()
      ensures forall k :: k != key ==> SameAt(old(Abs()), Abs(), k)
    {
      OthersKept(key);
    }

    twostate lemma AbsChanged(key: string)
      requires old(Valid()) && ChangedOnly(key) && Valid() && key in data
      ensures Abs() == old(Abs())[key := ViewOf(data[key])]
    {
      AbsElsewhere(key);
      UpdatedAt(old(Abs()), Abs(), key);
    }

    /** `Store.ZAdd`. */
    method ZAdd(key: string, entries: seq<Pair>, heights: seq<nat>) returns (added: Option<nat>)
      requires Valid() && Heights(heights, |entries|)
      modifies `data, `repr, repr
      ensures Valid() && fresh(repr - old(repr))
      ensures match ZAddTo(old(Abs()), key, entries)
              case None => added == None && Abs() == old(Abs())
              case Some((data', n)) => added == Some(n) && Abs() == data'
    {
      if key !in data {
        CreateZset(key, entries, heights);
        added := Some(|entries|);
      } else if !data[key].value.HeldZset? {
        added := None;
      } else {
        var n := UpdateZset(key, entries, heights);
        added := Some(n);
      }
    }

    method CreateZset(key: string, entries: seq<Pair>, heights: seq<nat>)
      requires Valid() && Heights(heights, |entries|) && key !in data
      modifies `data, `repr
      ensures Valid() && fresh(repr - old(repr))
      ensures Abs() == old(Abs())[key := Entry(Zset(Create(entries)), None)]
    {
      MakeZset(key, entries, heights);
      StillValid(key);
      AbsChanged(key);
    }

    method MakeZset(key: string, entries: seq<Pair>, heights: seq<nat>)
      requires Valid() && Heights(heights, |entries|) && key !in data
      modifies `data, `repr
      ensures ChangedOnly(key) && IsZset(key) && data[key].expireAt == None
      ensures repr == old(repr) + data[key].value.zset.Repr() && fresh(data[key].value.zset.Repr())
      ensures data[key].value.zset.View() == Create(entries)
    {
      var z := NewZset(entries, heights);
      PlaceZset(key, z);
    }

    static method NewZset(entries: seq<Pair>, heights: seq<nat>) returns (z: ZSet)
      requires Heights(heights, |entries|)
      ensures z.Valid() && z !in z.list.repr && fresh(z.Repr())
      ensures z.View() == Create(entries)
    {
      z := new ZSet();
      z.Fill(entries, heights);
    }

    method PlaceZset(key: string, z: ZSet)
      requires Valid() && key !in data
      requires z.Valid() && z !in z.list.repr && this !in z.Repr() && repr !! z.Repr()
      modifies `data, `repr
      ensures data == old(data)[key := Slot(HeldZset(z), None)]
      ensures repr == old(repr) + z.Repr() && Owns(z)
      ensures z.View() == old(z.View()) && z.Repr() == old(z.Repr())
    {
      repr := repr + z.Repr();
      data := data[key := Slot(HeldZset(z), None)];
    }

    method UpdateZset(key: string, entries: seq<Pair>, heights: seq<nat>) returns (added: nat)
      requires Valid() && Heights(heights, |entries|) && IsZset(key)
      modifies `repr, Owned(key)
      ensures Valid() && fresh(repr - old(repr)) && data == old(data)
      ensures var e := old(Abs())[key];
              && Abs() == old(Abs())[key := Entry(Zset(Upsert(e.value.zset, entries)), e.expireAt)]
              && added == Added(e.value.zset, entries)
    {
      added := ChangeZset(key, entries, heights);
      StillValid(key);
      AbsChanged(key);
    }

    method ChangeZset(key: string, entries: seq<Pair>, heights: seq<nat>) returns (added: nat)
      requires Valid() && Heights(heights, |entries|) && IsZset(key)
      modifies `repr, Owned(key)
      ensures fresh(repr - old(repr)) && data == old(data) && ChangedOnly(key)
      ensures data[key].value.zset.View() == Upsert(old(data[key].value.zset.View()), entries)
      ensures added == Added(old(data[key].value.zset.View()), entries)
    {
      added := GrowZset(key, entries, heights);
    }

    method GrowZset(key: string, entries: seq<Pair>, heights: seq<nat>) returns (added: nat)
      requires IsZset(key) && Owns(data[key].value.zset) && this !in repr && Heights(heights, |entries|)
      modifies `repr, data[key].value.zset.Repr()
      ensures data == old(data) && Owns(data[key].value.zset)
      ensures repr == old(repr) + data[key].value.zset.Repr()
      ensures fresh(data[key].value.zset.Repr() - old(data[key].value.zset.Repr()))
      ensures data[key].value.zset.View() == Upsert(old(data[key].value.zset.View()), entries)
      ensures added == Added(old(data[key].value.zset.View()), entries)
    {
      var z := data[key].value.zset;
      added := z.AddAll(entries, heights);
      repr := repr + z.Repr();
    }

    /** ZREM of one member: whether it was there, or None for the error on another type. */
    method ZRem(key: string, member: string) returns (removed: Option<bool>)
      requires Valid()
      modifies repr
      ensures Valid() && repr == old(repr) && data == old(data)
      ensures key !in data ==> removed == Some(false) && Abs() == old(Abs())
      ensures key in data && !IsZset(key) ==> removed == None && Abs() == old(Abs())
      ensures IsZset(key) ==>
        var e := old(Abs())[key];
        var (z, was) := Rem(e.value.zset, member);
        removed == Some(was) && Abs() == old(Abs())[key := Entry(Zset(z), e.expireAt)]
    {
      if key !in data {
        return Some(false);
      }
      if !data[key].value.HeldZset? {
        return None;
      }
      var was := data[key].value.zset.Remove(member);
      removed := Some(was);
      assert ChangedOnly(key);
      StillValid(key);
      AbsChanged(key);
    }

    // -------------------------------------------------------------------------------------
    // Lists and blocked clients
    // -------------------------------------------------------------------------------------

    ghost function Queued(): set<Waiter>
      reads `waiterStore
    {
      set k, i | k in waiterStore && 0 <= i < |waiterStore[k]| :: waiterStore[k][i]
    }

    /** No key keeps an empty queue, no client is queued twice, and every queued client's channel
        is empty, so that a send to it does not block. */
    ghost predicate Waiting()
      reads `waiterStore, `repr, Queued()
    {
      && (forall k :: k in waiterStore ==> waiterStore[k] != [])
      && (forall k, i :: k in waiterStore && 0 <= i < |waiterStore[k]| ==>
            waiterStore[k][i].channel == [] && waiterStore[k][i] !in repr)
      && Distinct(waiterStore)
    }

    /** `addWaiter`. */
    method AddWaiter(key: string) returns (waiter: Waiter)
      requires Waiting()
      modifies `waiterStore
      ensures Waiting() && fresh(waiter) && waiter.channel == []
      ensures waiterStore == old(waiterStore)[key := WaitersAt(old(waiterStore), key) + [waiter]]
    {
      waiter := new Waiter();
      waiterStore := waiterStore[key := WaitersAt(waiterStore, key) + [waiter]];
    }

    /** The part of `ListPush` that hands values to blocked clients, oldest first. */
    static method Serve(queue: seq<Waiter>, values: seq<string>) returns (waiters: seq<Waiter>, rest: seq<string>)
      requires forall i, j :: 0 <= i < j < |queue| ==> queue[i] != queue[j]
      requires forall i :: 0 <= i < |queue| ==> queue[i].channel == []
      modifies queue
      ensures var n := Min(|queue|, |values|); waiters == queue[n..] && rest == values[n..]
      ensures forall i :: 0 <= i < |queue| ==>
        queue[i].channel == if i < |values| then [values[i]] else []
    {
      waiters, rest := queue, values;
      ghost var n := 0;
      while |waiters| > 0 && |rest| > 0
        invariant 0 <= n <= Min(|queue|, |values|)
        invariant waiters == queue[n..] && rest == values[n..]
        invariant forall i :: 0 <= i < |queue| ==> queue[i].channel == if i < n then [values[i]] else []
      {
        waiters[0].channel := waiters[0].channel + [rest[0]];
        waiters, rest := waiters[1..], rest[1..];
        n := n + 1;
      }
    }

    /** The part of `ListPush` that extends the list at the key, or creates it. */
    method Extend(key: string, values: seq<string>, right: bool) returns (length: Option<nat>)
      requires Valid()
      modifies `data
      ensures Valid()
      ensures (Abs(), length) == Keyspace.Extend(old(Abs()), key, values, right)
    {
      if key !in data {
        PutList(key, values, None);
        return Some(|values|);
      }
      if !data[key].value.HeldList? {
        return None;
      }
      var items := if right then data[key].value.items + values else values + data[key].value.items;
      PutList(key, items, data[key].expireAt);
      length := Some(|items|);
    }

    method PutList(key: string, items: seq<string>, expireAt: Option<int>)
      requires Valid()
      modifies `data
      ensures Valid() && Abs() == old(Abs())[key := Entry(List(items), expireAt)]
    {
      data := data[key := Slot(HeldList(items), expireAt)];
      StillValid(key);
      AbsChanged(key);
    }

    /** The part of `ListPush` that takes served clients off the queue of the key. */
    method ServeWaiters(key: string, values: seq<string>) returns (rest: seq<string>)
      requires Waiting() && key in waiterStore
      modifies `waiterStore, waiterStore[key]
      ensures Waiting()
      ensures var queue := old(waiterStore[key]);
              var n := Min(|queue|, |values|);
              && waiterStore == Unqueue(old(waiterStore), key, n)
              && rest == values[n..]
              && forall i :: 0 <= i < |queue| ==> queue[i].channel == if i < |values| then [values[i]] else []
    {
      var queue := waiterStore[key];
      var waiters;
      waiters, rest := Serve(queue, values);
      if |waiters| > 0 {
        waiterStore := waiterStore[key := waiters];
      } else {
        waiterStore := waiterStore - {key};
      }
    }

    method HandOver(key: string, values: seq<string>) returns (rest: seq<string>)
      requires Valid() && Waiting()
      modifies `waiterStore, WaitersAt(waiterStore, key)
      ensures Valid() && Waiting() && Abs() == old(Abs())
      ensures var queue := WaitersAt(old(waiterStore), key);
              var n := Min(|queue|, |values|);
              && waiterStore == Unqueue(old(waiterStore), key, n)
              && rest == values[n..]
              && forall i :: 0 <= i < n ==> queue[i].channel == [values[i]]
    {
      rest := values;
      if key in waiterStore {
        rest := ServeWaiters(key, values);
        assert unchanged(repr);
      }
    }

    /** `ListPush`. Every send finds room in the channel, and each value goes where push-then-serve
        puts it. */
    method ListPush(key: string, values: seq<string>, right: bool) returns (length: Option<nat>)
      requires Valid() && Waiting()
      modifies `data, `waiterStore, WaitersAt(waiterStore, key)
      ensures Valid() && Waiting()
      ensures var p := Keyspace.ListPush(old(Abs()), old(waiterStore), key, values, right);
              Abs() == p.data && waiterStore == p.waiters && length == p.length && Delivered(p.sent)
    {
      length := PushValues(key, if right then values else Reverse(values), right);
    }

    method PushValues(key: string, values: seq<string>, right: bool) returns (length: Option<nat>)
      requires Valid() && Waiting()
      modifies `data, `waiterStore, WaitersAt(waiterStore, key)
      ensures Valid() && Waiting()
      ensures var p := Keyspace.PushValues(old(Abs()), old(waiterStore), key, values, right);
              Abs() == p.data && waiterStore == p.waiters && length == p.length && Delivered(p.sent)
    {
      var served := key in waiterStore;
      var rest := HandOver(key, values);
      if served && |rest| == 0 {
        return Some(0);
      }
      length := Extend(key, rest, right);
    }

    /** `removeWaiter`. */
    method RemoveWaiter(key: string, waiter: Waiter)
      requires Waiting()
      modifies `waiterStore
      ensures Waiting() && waiter !in WaitersAt(waiterStore, key)
      ensures waiter !in WaitersAt(old(waiterStore), key) ==> waiterStore == old(waiterStore)
      ensures forall i :: 0 <= i < |WaitersAt(old(waiterStore), key)| && WaitersAt(old(waiterStore), key)[i] == waiter ==>
        WaitersAt(waiterStore, key) == WaitersAt(old(waiterStore), key)[..i] + WaitersAt(old(waiterStore), key)[i + 1..]
      ensures forall k :: k != key ==> WaitersAt(waiterStore, k) == WaitersAt(old(waiterStore), k)
    {
      var waiters := WaitersAt(waiterStore, key);
      var idx := 0;
      while idx < |waiters| && waiters[idx] != waiter
        invariant 0 <= idx <= |waiters| && waiter !in waiters[..idx]
      {
        idx := idx + 1;
      }
      if idx == |waiters| {
        return;
      }
      var remaining := waiters[..idx] + waiters[idx + 1..];
      if |remaining| == 0 {
        waiterStore := waiterStore - {key};
      } else {
        waiterStore := waiterStore[key := remaining];
      }
    }

    /** BLPOP up to where it would wait. */
    method BLPop(key: string) returns (popped: Popped)
      requires Valid() && Waiting()
      modifies `data, `waiterStore
      ensures Valid() && Waiting()
      ensures match popped
              case WrongType => !ListOrAbsent(old(Abs()), key) && Abs() == old(Abs()) && waiterStore == old(waiterStore)
              case Took(value) =>
                && ItemsAt(old(Abs()), key) != [] && value == ItemsAt(old(Abs()), key)[0]
                && Abs() == old(Abs())[key := Entry(List(ItemsAt(old(Abs()), key)[1..]), old(Abs())[key].expireAt)]
                && waiterStore == old(waiterStore)
              case Blocked(waiter) =>
                && ListOrAbsent(old(Abs()), key) && ItemsAt(old(Abs()), key) == [] && Abs() == old(Abs())
                && fresh(waiter) && waiter.channel == []
                && waiterStore == old(waiterStore)[key := WaitersAt(old(waiterStore), key) + [waiter]]
    {
      if key !in data || (data[key].value.HeldList? && data[key].value.items == []) {
        var waiter := AddWaiter(key);
        return Blocked(waiter);
      }
      if !data[key].value.HeldList? {
        return WrongType;
      }
      var items := data[key].value.items;
      PutList(key, items[1..], data[key].expireAt);
      popped := Took(items[0]);
    }
  }
}
