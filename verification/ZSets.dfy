/** A sorted set: a member-to-score map and a skip list of the same pairs, updated together. */
module ZSets {
  import opened Order
  import opened SortedSeq
  import opened SkipLists
  import opened Text

  // ---------------------------------------------------------------------------------------
  // Values: what the two halves hold, with the skip list seen as its ranked pairs.
  // ---------------------------------------------------------------------------------------

  datatype ZVal = ZVal(scores: map<string, Score>, ranked: seq<Pair>)

  ghost function Items(scores: map<string, Score>): set<Pair> {
    set m | m in scores :: Pair(m, scores[m])
  }

  /** The skip list holds exactly the pairs of the map, each once, in rank order. */
  ghost predicate Coherent(z: ZVal) {
    Sorted(z.ranked) && multiset(z.ranked) == multiset(Items(z.scores))
  }

  const EMPTY := ZVal(map[], [])

  /** One pair of a ZADD that creates its key. */
  function CreateStep(z: ZVal, e: Pair): ZVal {
    ZVal(z.scores[e.member := e.score], InsertSorted(z.ranked, e))
  }

  /** One pair of a ZADD on an existing sorted set. */
  function UpsertStep(z: ZVal, e: Pair): ZVal {
    var ranked := if e.member in z.scores then RemoveSorted(z.ranked, Pair(e.member, z.scores[e.member])) else z.ranked;
    ZVal(z.scores[e.member := e.score], InsertSorted(ranked, e))
  }

  function Create(entries: seq<Pair>): ZVal {
    if entries == [] then EMPTY else CreateStep(Create(entries[..|entries| - 1]), entries[|entries| - 1])
  }

  function Upsert(z: ZVal, entries: seq<Pair>): ZVal {
    if entries == [] then z else UpsertStep(Upsert(z, entries[..|entries| - 1]), entries[|entries| - 1])
  }

  /** The members a ZADD on an existing sorted set reports as added. */
  function Added(z: ZVal, entries: seq<Pair>): nat {
    if entries == [] then 0 else
      var before := entries[..|entries| - 1];
      Added(z, before) + if entries[|entries| - 1].member in Upsert(z, before).scores then 0 else 1
  }

  /** ZREM of one member, and whether it removed anything. */
  function Rem(z: ZVal, member: string): (ZVal, bool) {
    if member !in z.scores then (z, false)
    else (ZVal(z.scores - {member}, RemoveSorted(z.ranked, Pair(member, z.scores[member]))), true)
  }

  lemma CreateUpTo(entries: seq<Pair>, i: nat)
    requires i < |entries|
    ensures Create(entries[..i + 1]) == CreateStep(Create(entries[..i]), entries[i])
  {
    assert entries[..i + 1][..i] == entries[..i];
  }

  lemma UpsertUpTo(z: ZVal, entries: seq<Pair>, i: nat)
    requires i < |entries|
    ensures var before := Upsert(z, entries[..i]);
            && Upsert(z, entries[..i + 1]) == UpsertStep(before, entries[i])
            && Added(z, entries[..i + 1]) == Added(z, entries[..i]) + if entries[i].member in before.scores then 0 else 1
  {
    assert entries[..i + 1][..i] == entries[..i];
  }

  ghost predicate DistinctMembers(entries: seq<Pair>) {
    forall i, j :: 0 <= i < j < |entries| ==> entries[i].member != entries[j].member
  }

  lemma ItemsAdd(h: map<string, Score>, e: Pair)
    requires e.member !in h
    ensures Items(h[e.member := e.score]) == Items(h) + {e} && e !in Items(h)
    ensures multiset(Items(h[e.member := e.score])) == multiset(Items(h)) + multiset{e}
  {
    var h' := h[e.member := e.score];
    forall p | p in Items(h) + {e}
      ensures p in Items(h')
    {
      assert p.member in h' && h'[p.member] == p.score;
    }
    assert Items(h') == Items(h) + {e};
  }

  lemma ItemsDrop(h: map<string, Score>, m: string)
    requires m in h
    ensures multiset(Items(h - {m})) == multiset(Items(h)) - multiset{Pair(m, h[m])}
  {
    assert (h - {m})[m := h[m]] == h;
    ItemsAdd(h - {m}, Pair(m, h[m]));
  }

  lemma InsertCoherent(z: ZVal, e: Pair)
    requires Coherent(z) && e.member !in z.scores
    ensures Coherent(CreateStep(z, e))
  {
    InsertKeepsSorted(z.ranked, e);
    ItemsAdd(z.scores, e);
  }

  lemma RemCoherent(z: ZVal, member: string)
    requires Coherent(z)
    ensures Coherent(Rem(z, member).0)
    ensures Rem(z, member).1 <==> member in z.scores
    ensures Rem(z, member).0.scores == z.scores - {member}
  {
    if member in z.scores {
      RemoveKeepsSorted(z.ranked, Pair(member, z.scores[member]));
      RemoveTakesOne(z.ranked, Pair(member, z.scores[member]));
      ItemsDrop(z.scores, member);
    }
  }

  /** Updating a member is removing it and inserting it again. */
  lemma UpsertIsRemThenInsert(z: ZVal, e: Pair)
    ensures UpsertStep(z, e) == CreateStep(Rem(z, e.member).0, e)
  {
    assert (z.scores - {e.member})[e.member := e.score] == z.scores[e.member := e.score];
  }

  lemma UpsertStepCoherent(z: ZVal, e: Pair)
    requires Coherent(z)
    ensures Coherent(UpsertStep(z, e))
  {
    UpsertIsRemThenInsert(z, e);
    RemCoherent(z, e.member);
    InsertCoherent(Rem(z, e.member).0, e);
  }

  /** ZADD on an existing sorted set keeps the halves together, whatever members repeat, and
      reports the growth of the map. */
  lemma {:induction false} UpsertCoherent(z: ZVal, entries: seq<Pair>)
    requires Coherent(z)
    ensures Coherent(Upsert(z, entries))
    ensures Added(z, entries) == |Upsert(z, entries).scores| - |z.scores|
  {
    if entries != [] {
      var before, last := entries[..|entries| - 1], entries[|entries| - 1];
      UpsertCoherent(z, before);
      UpsertStepCoherent(Upsert(z, before), last);
    }
  }

  /** The scores after ZADD: the batch laid over the map, the last score of a member winning. */
  lemma {:induction false} UpsertScores(z: ZVal, entries: seq<Pair>)
    ensures Upsert(z, entries).scores == z.scores + Create(entries).scores
  {
    if entries != [] {
      var before, last := entries[..|entries| - 1], entries[|entries| - 1];
      UpsertScores(z, before);
      MergeThenSet(z.scores, Create(before).scores, last);
    }
  }

  lemma MergeThenSet(a: map<string, Score>, b: map<string, Score>, e: Pair)
    ensures (a + b)[e.member := e.score] == a + b[e.member := e.score]
  {
  }

  lemma MultisetOfLast(s: seq<Pair>)
    requires s != []
    ensures multiset(s) == multiset(s[..|s| - 1]) + multiset{s[|s| - 1]}
  {
    assert s == s[..|s| - 1] + [s[|s| - 1]];
  }

  lemma CreatePartsStep(z: ZVal, e: Pair)
    requires Sorted(z.ranked)
    ensures Sorted(CreateStep(z, e).ranked)
    ensures multiset(CreateStep(z, e).ranked) == multiset(z.ranked) + multiset{e}
  {
    InsertKeepsSorted(z.ranked, e);
  }

  lemma {:induction false} CreateParts(entries: seq<Pair>)
    ensures Sorted(Create(entries).ranked)
    ensures multiset(Create(entries).ranked) == multiset(entries)
  {
    if entries != [] {
      var before, last := entries[..|entries| - 1], entries[|entries| - 1];
      CreateParts(before);
      CreatePartsStep(Create(before), last);
      MultisetOfLast(entries);
    }
  }

  lemma {:induction false} CreateMembers(entries: seq<Pair>)
    ensures forall m :: m in Create(entries).scores <==> exists i :: 0 <= i < |entries| && entries[i].member == m
  {
    if entries != [] {
      var before, last := entries[..|entries| - 1], entries[|entries| - 1];
      CreateMembers(before);
      assert entries == before + [last];
      forall m | m in Create(entries).scores
        ensures exists i :: 0 <= i < |entries| && entries[i].member == m
      {
        if m == last.member {
          assert entries[|entries| - 1].member == m;
        }
      }
    }
  }

  lemma {:induction false} CreateCount(entries: seq<Pair>)
    ensures |Create(entries).scores| <= |entries|
    ensures |Create(entries).scores| == |entries| <==> DistinctMembers(entries)
  {
    if entries != [] {
      var before, last := entries[..|entries| - 1], entries[|entries| - 1];
      CreateCount(before);
      CreateMembers(before);
      DistinctAppend(before, last, entries, Create(before).scores.Keys);
    }
  }

  lemma DistinctAppend(before: seq<Pair>, last: Pair, entries: seq<Pair>, members: set<string>)
    requires entries == before + [last]
    requires forall m :: m in members <==> exists i :: 0 <= i < |before| && before[i].member == m
    ensures DistinctMembers(entries) <==> DistinctMembers(before) && last.member !in members
  {
    if DistinctMembers(entries) {
      assert forall i :: 0 <= i < |before| ==> before[i] == entries[i] && entries[|before|] == last;
    }
  }

  lemma ItemsCard(h: map<string, Score>)
    ensures |Items(h)| == |h|
  {
    if h != map[] {
      var m :| m in h;
      ItemsCard(h - {m});
      assert (h - {m})[m := h[m]] == h;
      ItemsAdd(h - {m}, Pair(m, h[m]));
    }
  }

  lemma {:induction false} CreateDistinct(entries: seq<Pair>)
    requires DistinctMembers(entries)
    ensures Coherent(Create(entries))
  {
    if entries != [] {
      var before, last := entries[..|entries| - 1], entries[|entries| - 1];
      CreateDistinct(before);
      CreateMembers(before);
      InsertCoherent(Create(before), last);
    }
  }

  /** ZADD that creates its key keeps the halves together exactly when no member repeats in it;
      only then is the number it reports, the batch length, the growth of the map. */
  lemma CreateCoherent(entries: seq<Pair>)
    ensures Coherent(Create(entries)) <==> DistinctMembers(entries)
    ensures |entries| == |Create(entries).scores| <==> DistinctMembers(entries)
  {
    var z := Create(entries);
    CreateCount(entries);
    CreateParts(entries);
    if DistinctMembers(entries) {
      CreateDistinct(entries);
    }
    if Coherent(z) {
      ItemsCard(z.scores);
      assert |entries| == |multiset(entries)| == |multiset(Items(z.scores))| == |z.scores|;
    }
  }

  lemma RepeatedMemberBreaksCreate()
    ensures !Coherent(Create([Pair("a", Finite(1.0)), Pair("a", Finite(2.0))]))
  {
    var e := [Pair("a", Finite(1.0)), Pair("a", Finite(2.0))];
    CreateCoherent(e);
    assert e[0].member == e[1].member;
  }

  // ---------------------------------------------------------------------------------------
  // A set whose halves came apart stays that way
  // ---------------------------------------------------------------------------------------

  /** The skip list holds the pairs of the map. */
  ghost predicate Covers(z: ZVal) {
    Sorted(z.ranked) && multiset(Items(z.scores)) <= multiset(z.ranked)
  }

  /** The skip list holds the pairs of the map, and others besides. */
  ghost predicate Broken(z: ZVal) {
    Covers(z) && |z.scores| < |z.ranked|
  }

  lemma BrokenIsNotCoherent(z: ZVal)
    requires Broken(z)
    ensures !Coherent(z)
  {
    if Coherent(z) {
      CoherentLength(z);
    }
  }

  lemma AddToBoth(a: multiset<Pair>, b: multiset<Pair>, p: Pair)
    requires a <= b
    ensures a + multiset{p} <= b + multiset{p}
  {
  }

  lemma DropFromBoth(a: multiset<Pair>, b: multiset<Pair>, p: Pair)
    requires a <= b
    ensures a - multiset{p} <= b - multiset{p}
  {
  }

  lemma RemKeepsCovers(z: ZVal, member: string, z': ZVal)
    requires Covers(z) && z' == Rem(z, member).0
    ensures Covers(z') && |z'.ranked| - |z'.scores| == |z.ranked| - |z.scores|
  {
    if member in z.scores {
      var p := Pair(member, z.scores[member]);
      assert p in multiset(Items(z.scores));
      RemoveKeepsSorted(z.ranked, p);
      RemoveTakesOne(z.ranked, p);
      ItemsDrop(z.scores, member);
      DropFromBoth(multiset(Items(z.scores)), multiset(z.ranked), p);
      assert |z'.ranked| == |multiset(z'.ranked)| == |multiset(z.ranked)| - 1;
    }
  }

  lemma InsertKeepsCovers(z: ZVal, e: Pair, z': ZVal)
    requires Covers(z) && e.member !in z.scores && z' == CreateStep(z, e)
    ensures Covers(z') && |z'.ranked| - |z'.scores| == |z.ranked| - |z.scores|
  {
    InsertKeepsSorted(z.ranked, e);
    ItemsAdd(z.scores, e);
    AddToBoth(multiset(Items(z.scores)), multiset(z.ranked), e);
  }

  /** No ZADD and no ZREM mends a broken set. */
  lemma RemKeepsBroken(z: ZVal, member: string)
    requires Broken(z)
    ensures Broken(Rem(z, member).0)
  {
    RemKeepsCovers(z, member, Rem(z, member).0);
  }

  lemma UpsertStepKeepsBroken(z: ZVal, e: Pair)
    requires Broken(z)
    ensures Broken(UpsertStep(z, e))
  {
    UpsertIsRemThenInsert(z, e);
    var rest := Rem(z, e.member).0;
    RemKeepsCovers(z, e.member, rest);
    InsertKeepsCovers(rest, e, CreateStep(rest, e));
  }

  lemma {:induction false} UpsertKeepsBroken(z: ZVal, entries: seq<Pair>)
    requires Broken(z)
    ensures Broken(Upsert(z, entries))
  {
    if entries != [] {
      UpsertKeepsBroken(z, entries[..|entries| - 1]);
      UpsertStepKeepsBroken(Upsert(z, entries[..|entries| - 1]), entries[|entries| - 1]);
    }
  }

  /** A member given again while creating: its old pair leaves the map and stays in the list. */
  lemma RepeatBreaks(z: ZVal, e: Pair, z': ZVal)
    requires Covers(z) && e.member in z.scores && z' == CreateStep(z, e)
    ensures Covers(z') && |z'.ranked| - |z'.scores| == |z.ranked| - |z.scores| + 1
  {
    var rest := z.scores - {e.member};
    InsertKeepsSorted(z.ranked, e);
    ItemsDrop(z.scores, e.member);
    ItemsAdd(rest, e);
    assert rest[e.member := e.score] == z.scores[e.member := e.score];
    AddToBoth(multiset(Items(rest)), multiset(z.ranked), e);
  }

  /** While creating, the list never loses a pair of the map, and gains one on it at every repeat. */
  lemma {:induction false} CreateCovers(entries: seq<Pair>)
    ensures Covers(Create(entries))
  {
    if entries != [] {
      var z, last := Create(entries[..|entries| - 1]), entries[|entries| - 1];
      CreateCovers(entries[..|entries| - 1]);
      if last.member in z.scores {
        RepeatBreaks(z, last, CreateStep(z, last));
      } else {
        InsertKeepsCovers(z, last, CreateStep(z, last));
      }
    }
  }

  /** Every ZADD that creates its key with a repeated member leaves a broken set. */
  lemma RepeatingCreateIsBroken(entries: seq<Pair>)
    requires !DistinctMembers(entries)
    ensures Broken(Create(entries))
  {
    CreateCovers(entries);
    CreateCount(entries);
    CreateParts(entries);
    assert |Create(entries).ranked| == |multiset(Create(entries).ranked)| == |entries|;
  }

  /** The pairs of a map of scores that rank before `p`. */
  ghost function Smaller(scores: map<string, Score>, p: Pair): set<Pair> {
    set q | q in Items(scores) && RanksFirst(q, p)
  }

  lemma SmallerByLess(scores: map<string, Score>, p: Pair)
    ensures Smaller(scores, p) == set q | q in Items(scores) && Less(q, p)
  {
    forall q
      ensures Less(q, p) <==> RanksFirst(q, p)
    {
      LessRanksFirst(q, p);
    }
  }

  lemma BelowGrows(a: set<Pair>, x: Pair, p: Pair)
    requires x !in a
    ensures |set q | q in a + {x} && Less(q, p)| == |set q | q in a && Less(q, p)| + if Less(x, p) then 1 else 0
  {
    var below := set q | q in a && Less(q, p);
    assert (set q | q in a + {x} && Less(q, p)) == if Less(x, p) then below + {x} else below;
  }

  lemma {:induction false} CountLessIsCard(s: seq<Pair>, a: set<Pair>, p: Pair)
    requires multiset(s) == multiset(a)
    ensures CountLess(s, p) == |set q | q in a && Less(q, p)|
  {
    if s == [] {
      assert |multiset(a)| == 0;
    } else {
      var before, last := s[..|s| - 1], s[|s| - 1];
      assert s == before + [last];
      assert multiset(s)[last] == multiset(before)[last] + 1;
      assert multiset(a)[last] == 1 && last in a;
      assert multiset(before) == multiset(s) - multiset{last};
      assert multiset(before) == multiset(a - {last});
      CountLessIsCard(before, a - {last}, p);
      BelowGrows(a - {last}, last, p);
      assert a == a - {last} + {last};
    }
  }

  /** On a coherent sorted set the rank of a member is the number of strictly smaller members. */
  lemma RankCountsSmaller(z: ZVal, member: string)
    requires Coherent(z) && member in z.scores
    ensures var p := Pair(member, z.scores[member]);
            p in z.ranked && CountLess(z.ranked, p) == |Smaller(z.scores, p)|
  {
    var p := Pair(member, z.scores[member]);
    assert p in Items(z.scores);
    assert p in multiset(z.ranked);
    CountLessIsCard(z.ranked, Items(z.scores), p);
    SmallerByLess(z.scores, p);
  }

  // ---------------------------------------------------------------------------------------
  // ZRANGE indices
  // ---------------------------------------------------------------------------------------

  /** `normalizeIndex`: negative indices count from the end, and the result is clamped. */
  function NormalizeIndex(idx: int, length: int): int {
    var i := if idx >= 0 then idx else if length + idx < 0 then 0 else length + idx;
    if i > length - 1 then length - 1 else i
  }

  function Max(a: int, b: int): int { if a < b then b else a }
  function Min(a: int, b: int): int { if a < b then a else b }

  /** The slice ZRANGE answers with, on a ranked list whose length is the map's. */
  function RangeOf<T>(s: seq<T>, first: int, last: int): seq<T> {
    var lo, hi := NormalizeIndex(first, |s|), NormalizeIndex(last, |s|);
    if lo > hi || |s| == 0 then [] else s[lo..hi + 1]
  }

  /** The same when the indices are normalised by another length `n`. */
  function RangeBy<T>(s: seq<T>, n: int, first: int, last: int): seq<T> {
    var lo, hi := NormalizeIndex(first, n), NormalizeIndex(last, n);
    var a, b := Max(1, lo + 1), Min(|s|, hi + 1);
    if lo > hi || a > b then [] else s[a - 1..b]
  }

  lemma RangeByOwnLength<T>(s: seq<T>, first: int, last: int)
    ensures RangeBy(s, |s|, first, last) == RangeOf(s, first, last)
  {
  }

  /** The slice the ZRANGE comments promise: nothing when the start is at or past the end. */
  function DocumentedRange<T>(s: seq<T>, first: int, last: int): seq<T> {
    var lo := if first < 0 then Max(0, |s| + first) else first;
    var hi := if last < 0 then Max(0, |s| + last) else Min(last, |s| - 1);
    if lo >= |s| || lo > hi then [] else s[lo..hi + 1]
  }

  /** ZRANGE differs from its description exactly when the start is at or past the end of a
      non-empty set and the stop reaches the last element: the last element is then returned. */
  lemma RangeVersusDocumented<T>(s: seq<T>, first: int, last: int)
    ensures RangeOf(s, first, last) == DocumentedRange(s, first, last) <==>
            !(0 < |s| <= first && (|s| - 1 <= last || last == -1 || |s| == 1))
  {
    var lo, hi := NormalizeIndex(first, |s|), NormalizeIndex(last, |s|);
    if 0 < |s| <= first && (|s| - 1 <= last || last == -1 || |s| == 1) {
      assert RangeOf(s, first, last) == s[|s| - 1..];
      assert |RangeOf(s, first, last)| == 1;
    }
  }

  /** ZRANGE key 1 1 on a set of one member answers with that member, and should answer with none. */
  lemma StartPastTheEndIsClamped(m: string)
    ensures RangeOf([m], 1, 1) == [m] && DocumentedRange([m], 1, 1) == []
  {
  }

  // ---------------------------------------------------------------------------------------
  // The object
  // ---------------------------------------------------------------------------------------

  /** Heights drawn by `randomLevel`, one for each insertion. */
  ghost predicate Heights(hs: seq<nat>, n: nat) {
    |hs| == n && forall i :: 0 <= i < n ==> 1 <= hs[i] <= MAX_LEVEL
  }

  class ZSet {
    var hashMap: map<string, Score>
    const list: SkipList

    ghost predicate Valid()
      reads this, list, list.all
    {
      list.Valid()
    }

    ghost function View(): ZVal
      reads this, list
    {
      ZVal(hashMap, list.Pairs())
    }

    ghost function Repr(): set<object>
      reads this, list
    {
      {this} + list.repr
    }

    constructor ()
      ensures Valid() && fresh(Repr()) && this !in list.repr
      ensures View() == EMPTY
    {
      hashMap := map[];
      list := new SkipList();
    }

    /** The branch of ZADD that creates the key. */
    method Fill(entries: seq<Pair>, heights: seq<nat>)
      requires Valid() && this !in list.repr && View() == EMPTY && Heights(heights, |entries|)
      modifies Repr()
      ensures Valid() && this !in list.repr && fresh(Repr() - old(Repr()))
      ensures View() == Create(entries)
    {
      ghost var own := Repr();
      for i := 0 to |entries|
        invariant Valid() && this !in list.repr && fresh(Repr() - own)
        invariant View() == Create(entries[..i])
      {
        CreateUpTo(entries, i);
        ghost var before := Repr();
        SetNew(entries[i], heights[i]);
        assert fresh((Repr() - before) + (before - own));
      }
      assert entries[..|entries|] == entries;
    }

    method SetNew(e: Pair, height: nat)
      requires Valid() && this !in list.repr && 1 <= height <= MAX_LEVEL
      modifies Repr()
      ensures Valid() && this !in list.repr && fresh(Repr() - old(Repr()))
      ensures View() == CreateStep(old(View()), e)
    {
      hashMap := hashMap[e.member := e.score];
      var _ := list.Insert(e, height);
    }

    /** The branch of ZADD on an existing sorted set. */
    method AddAll(entries: seq<Pair>, heights: seq<nat>) returns (added: nat)
      requires Valid() && this !in list.repr && Heights(heights, |entries|)
      modifies Repr()
      ensures Valid() && this !in list.repr && fresh(Repr() - old(Repr()))
      ensures View() == Upsert(old(View()), entries)
      ensures added == Added(old(View()), entries)
    {
      ghost var z, own := View(), Repr();
      added := 0;
      assert entries[..0] == [];
      for i := 0 to |entries|
        invariant Valid() && this !in list.repr && fresh(Repr() - own)
        invariant View() == Upsert(z, entries[..i])
        invariant added == Added(z, entries[..i])
      {
        added := AddNext(z, entries, i, heights[i], added);
      }
      assert entries[..|entries|] == entries;
    }

    /** One round of the loop. */
    method AddNext(ghost z: ZVal, entries: seq<Pair>, i: nat, height: nat, soFar: nat) returns (added: nat)
      requires Valid() && this !in list.repr && i < |entries| && 1 <= height <= MAX_LEVEL
      requires View() == Upsert(z, entries[..i]) && soFar == Added(z, entries[..i])
      modifies Repr()
      ensures Valid() && this !in list.repr && fresh(Repr() - old(Repr()))
      ensures View() == Upsert(z, entries[..i + 1]) && added == Added(z, entries[..i + 1])
    {
      UpsertUpTo(z, entries, i);
      var isNew := Set(entries[i], height);
      added := soFar + if isNew then 1 else 0;
    }

    /** One pair of ZADD: delete the old pair of the member, if any, and insert the new one. */
    method Set(e: Pair, height: nat) returns (isNew: bool)
      requires Valid() && this !in list.repr && 1 <= height <= MAX_LEVEL
      modifies Repr()
      ensures Valid() && this !in list.repr && fresh(Repr() - old(Repr()))
      ensures View() == UpsertStep(old(View()), e) && isNew == (e.member !in old(View()).scores)
    {
      isNew := e.member !in hashMap;
      if !isNew {
        DropPair(Pair(e.member, hashMap[e.member]));
      }
      SetNew(e, height);
    }

    method DropPair(pair: Pair)
      requires Valid() && this !in list.repr
      modifies list.repr
      ensures Valid() && this !in list.repr && Repr() == old(Repr())
      ensures View() == ZVal(old(hashMap), RemoveSorted(old(list.Pairs()), pair))
    {
      var _ := list.Delete(pair);
    }

    /** ZREM of one member. */
    method Remove(member: string) returns (removed: bool)
      requires Valid() && this !in list.repr
      modifies Repr()
      ensures Valid() && this !in list.repr && Repr() == old(Repr())
      ensures (View(), removed) == Rem(old(View()), member)
    {
      if member !in hashMap {
        return false;
      }
      var score := hashMap[member];
      hashMap := hashMap - {member};
      var _ := list.Delete(Pair(member, score));
      removed := true;
    }

    /** ZRANK: the 0-based rank of a member, None when the map does not have it. */
    method Rank(member: string) returns (rank: Option<int>)
      requires Valid()
      ensures rank == None <==> member !in hashMap
      ensures rank.Some? && Coherent(View()) ==> rank.value == |Smaller(hashMap, Pair(member, hashMap[member]))|
      ensures rank.Some? ==> rank.value == if Pair(member, hashMap[member]) in list.Pairs()
                                           then CountLess(list.Pairs(), Pair(member, hashMap[member])) else -1
    {
      if member !in hashMap {
        return None;
      }
      var r := list.GetRank(Pair(member, hashMap[member]));
      if Coherent(View()) {
        RankCountsSmaller(View(), member);
      }
      rank := Some(r - 1);
    }

    /** ZRANGE: the members between two indices, which are normalised by the size of the map. */
    method RangeMembers(first: int, last: int) returns (members: seq<string>)
      requires Valid()
      ensures members == MembersOf(RangeBy(list.Pairs(), |hashMap|, first, last))
      ensures Coherent(View()) ==> members == MembersOf(RangeOf(list.Pairs(), first, last))
      ensures Coherent(View()) ==> RankedFrom(hashMap, members, NormalizeIndex(first, |hashMap|))
    {
      members := SliceMembers(first, last);
      if Coherent(View()) {
        CoherentRange(View(), first, last);
        RangeIsRanked(View(), first, last);
      }
    }

    method SliceMembers(first: int, last: int) returns (members: seq<string>)
      requires Valid()
      ensures members == MembersOf(RangeBy(list.Pairs(), |hashMap|, first, last))
    {
      var lo, hi := NormalizeIndex(first, |hashMap|), NormalizeIndex(last, |hashMap|);
      if lo > hi {
        return [];
      }
      members := ClampedMembers(lo + 1, hi + 1);
    }

    method ClampedMembers(first: int, last: int) returns (members: seq<string>)
      requires Valid()
      ensures var a, b := Max(1, first), Min(|list.Pairs()|, last);
              members == if a > b then [] else MembersOf(list.Pairs()[a - 1..b])
    {
      var nodes := list.Range(first, last);
      members := NodeMembers(nodes);
      ghost var a, b := Max(1, first), Min(|list.Pairs()|, last);
      if a <= b {
        PairsOfSlice(list.all, nodes, a, b);
        SliceOfPairs(list.Pairs(), members, a, b);
      }
    }

    static method NodeMembers(nodes: seq<Node>) returns (members: seq<string>)
      ensures |members| == |nodes| && forall i :: 0 <= i < |nodes| ==> members[i] == nodes[i].pair.member
    {
      members := [];
      for i := 0 to |nodes|
        invariant |members| == i && forall j :: 0 <= j < i ==> members[j] == nodes[j].pair.member
      {
        members := members + [nodes[i].pair.member];
      }
    }
  }

  lemma PairsOfSlice(all: seq<Node>, nodes: seq<Node>, a: int, b: int)
    requires 1 <= a <= b < |all| && nodes == all[a..b + 1]
    ensures |nodes| == b - a + 1 && forall i :: 0 <= i < |nodes| ==> nodes[i].pair == PairsOf(all)[a - 1 + i]
  {
    forall i | 0 <= i < |nodes|
      ensures nodes[i].pair == PairsOf(all)[a - 1 + i]
    {
      assert nodes[i] == all[a + i];
    }
  }

  /** Members that agree with a slice one by one are the members of the slice. */
  lemma SliceOfPairs(s: seq<Pair>, members: seq<string>, a: int, b: int)
    requires 1 <= a <= b <= |s| && |members| == b - a + 1
    requires forall i :: 0 <= i < |members| ==> members[i] == s[a - 1 + i].member
    ensures members == MembersOf(s[a - 1..b])
  {
    var slice := s[a - 1..b];
    assert forall i :: 0 <= i < |members| ==> slice[i] == s[a - 1 + i];
  }

  lemma CoherentRange(z: ZVal, first: int, last: int)
    requires Coherent(z)
    ensures RangeBy(z.ranked, |z.scores|, first, last) == RangeOf(z.ranked, first, last)
  {
    CoherentLength(z);
    RangeByOwnLength(z.ranked, first, last);
  }

  lemma CoherentLength(z: ZVal)
    requires Coherent(z)
    ensures |z.ranked| == |z.scores|
  {
    ItemsCard(z.scores);
    assert |z.ranked| == |multiset(z.ranked)|;
  }

  /** On a coherent sorted set no pair repeats, and the ranked pairs are strictly ascending. */
  lemma CoherentIsStrict(z: ZVal)
    requires Coherent(z)
    ensures forall i, j :: 0 <= i < j < |z.ranked| ==> Less(z.ranked[i], z.ranked[j])
  {
    forall p | p in z.ranked
      ensures multiset(z.ranked)[p] == 1
    {
      assert p in multiset(z.ranked);
    }
    SortedDistinctIsStrict(z.ranked);
  }

  /** In a coherent set, whatever the order is defined by: scores ascend as numbers from rank to rank, with
      minus infinity first and plus infinity last, and members with the same score come in the order of
      their first different char. */
  lemma RankedScoresAscend(z: ZVal, i: nat, j: nat)
    requires Coherent(z) && i < j < |z.ranked|
    ensures var a, b := z.ranked[i].score, z.ranked[j].score;
            && (a.Finite? && b.Finite? ==> a.value <= b.value)
            && (b.NegInfinity? ==> a.NegInfinity?) && (a.PosInfinity? ==> b.PosInfinity?)
    ensures var m, n := z.ranked[i].member, z.ranked[j].member;
            z.ranked[i].score == z.ranked[j].score ==>
              || (|m| < |n| && m == n[..|m|])
              || exists k: nat :: k < |m| && k < |n| && m[..k] == n[..k] && m[k] < n[k]
  {
    CoherentIsStrict(z);
    LessRanksFirst(z.ranked[i], z.ranked[j]);
    if z.ranked[i].score == z.ranked[j].score {
      var m, n := z.ranked[i].member, z.ranked[j].member;
      LessIrreflexive(z.ranked[i]);
      var k: nat :| FirstDifferAt(m, n, k);
      assert m[..|m|] == m;
    }
  }

  /** Place and rank are the same number. */
  lemma RankIsPlace(z: ZVal, k: nat)
    requires Coherent(z) && k < |z.ranked|
    ensures var p := z.ranked[k];
            p.member in z.scores && z.scores[p.member] == p.score && |Smaller(z.scores, p)| == k
  {
    var p := z.ranked[k];
    CoherentIsStrict(z);
    assert p in multiset(z.ranked);
    assert p in Items(z.scores);
    PlaceSplits(z.ranked, k);
    CountLessSplits(z.ranked, p, k);
    RankCountsSmaller(z, p.member);
  }

  lemma PlaceSplits(s: seq<Pair>, k: nat)
    requires k < |s| && forall i, j :: 0 <= i < j < |s| ==> Less(s[i], s[j])
    ensures Splits(s, s[k], k)
  {
    forall i | k <= i < |s|
      ensures !Less(s[i], s[k])
    {
      if i == k {
        LessIrreflexive(s[k]);
      } else {
        LessAsymmetric(s[k], s[i]);
      }
    }
  }

  /** `members` are those of ranks `start`, `start + 1` and so on: so many pairs of the map rank before
      each. */
  ghost predicate RankedFrom(scores: map<string, Score>, members: seq<string>, start: int) {
    forall i :: 0 <= i < |members| ==>
      members[i] in scores && |Smaller(scores, Pair(members[i], scores[members[i]]))| == start + i
  }

  lemma RangeIsRanked(z: ZVal, first: int, last: int)
    requires Coherent(z)
    ensures RankedFrom(z.scores, MembersOf(RangeOf(z.ranked, first, last)), NormalizeIndex(first, |z.scores|))
  {
    CoherentLength(z);
    var lo := NormalizeIndex(first, |z.ranked|);
    var slice := RangeOf(z.ranked, first, last);
    forall i | 0 <= i < |slice|
      ensures slice[i].member in z.scores
      ensures |Smaller(z.scores, Pair(slice[i].member, z.scores[slice[i].member]))| == lo + i
    {
      assert slice[i] == z.ranked[lo + i];
      RankIsPlace(z, lo + i);
    }
  }

  ghost function MembersOf(s: seq<Pair>): (members: seq<string>)
    ensures |members| == |s| && forall i :: 0 <= i < |s| ==> members[i] == s[i].member
  {
    seq(|s|, i requires 0 <= i < |s| => s[i].member)
  }
}
