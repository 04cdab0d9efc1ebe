/** What a ranked list of pairs means as a plain sequence, independent of any skip list. */
module SortedSeq {
  import opened Order

  /** In rank order; equal pairs may repeat. */
  ghost predicate Sorted(s: seq<Pair>) {
    forall i, j :: 0 <= i < j < |s| ==> !Less(s[j], s[i])
  }

  /** `k` separates the pairs below `p` from the rest. */
  ghost predicate Splits(s: seq<Pair>, p: Pair, k: int) {
    && 0 <= k <= |s|
    && (forall i :: 0 <= i < k ==> Less(s[i], p))
    && (forall i :: k <= i < |s| ==> !Less(s[i], p))
  }

  /** The number of pairs strictly below `p`. */
  function CountLess(s: seq<Pair>, p: Pair): (k: nat)
    ensures k <= |s|
  {
    if s == [] then 0 else CountLess(s[..|s| - 1], p) + if Less(s[|s| - 1], p) then 1 else 0
  }

  lemma {:induction false} CountLessSplits(s: seq<Pair>, p: Pair, k: nat)
    requires Splits(s, p, k)
    ensures CountLess(s, p) == k
  {
    if s != [] {
      var t := s[..|s| - 1];
      CountLessSplits(t, p, if k == |s| then k - 1 else k);
    }
  }

  lemma {:induction false} SortedSplits(s: seq<Pair>, p: Pair)
    requires Sorted(s)
    ensures Splits(s, p, CountLess(s, p))
  {
    if s != [] {
      var t := s[..|s| - 1];
      SortedSplits(t, p);
      var k := CountLess(t, p);
      if Less(s[|t|], p) {
        forall i | 0 <= i < |t|
          ensures Less(s[i], p)
        {
          LessChain(s[i], s[|t|], p);
        }
        assert forall i :: 0 <= i < |t| ==> t[i] == s[i];
        assert k == |t|;
      }
    }
  }

  /** Membership is decided at the split point. */
  lemma SortedMember(s: seq<Pair>, p: Pair)
    requires Sorted(s)
    ensures var k := CountLess(s, p);
            p in s <==> k < |s| && s[k] == p
  {
    var k := CountLess(s, p);
    SortedSplits(s, p);
    if p in s {
      var i :| 0 <= i < |s| && s[i] == p;
      LessIrreflexive(p);
      assert k <= i;
      if i != k {
        assert !Less(s[i], s[k]) && !Less(s[k], p);
        LessTotal(s[k], p);
      }
    }
  }

  /** Insert `p` before the first pair that is not below it. */
  function InsertSorted(s: seq<Pair>, p: Pair): (r: seq<Pair>)
    ensures multiset(r) == multiset(s) + multiset{p}
  {
    var k := CountLess(s, p);
    assert s == s[..k] + s[k..];
    s[..k] + [p] + s[k..]
  }

  /** Drop the pair at the split point when it is `p`; otherwise change nothing. */
  function RemoveSorted(s: seq<Pair>, p: Pair): (r: seq<Pair>)
    ensures multiset(r) <= multiset(s)
  {
    var k := CountLess(s, p);
    if k < |s| && s[k] == p then
      assert s == s[..k] + [s[k]] + s[k + 1..];
      s[..k] + s[k + 1..]
    else s
  }

  lemma InsertKeepsSorted(s: seq<Pair>, p: Pair)
    requires Sorted(s)
    ensures Sorted(InsertSorted(s, p)) && multiset(InsertSorted(s, p)) == multiset(s) + multiset{p}
  {
    var k := CountLess(s, p);
    var r := InsertSorted(s, p);
    SortedSplits(s, p);
    forall i, j | 0 <= i < j < |r|
      ensures !Less(r[j], r[i])
    {
      if j == k {
        LessAsymmetric(r[i], p);
      }
    }
  }

  lemma RemoveKeepsSorted(s: seq<Pair>, p: Pair)
    requires Sorted(s)
    ensures Sorted(RemoveSorted(s, p))
  {
  }

  lemma RemoveAtMultiset(s: seq<Pair>, k: nat)
    requires k < |s|
    ensures multiset(s[..k] + s[k + 1..]) == multiset(s) - multiset{s[k]}
  {
    assert s == s[..k] + ([s[k]] + s[k + 1..]);
  }

  /** On a sorted list, removal takes out exactly one occurrence when there is one. */
  lemma RemoveTakesOne(s: seq<Pair>, p: Pair)
    requires Sorted(s)
    ensures multiset(RemoveSorted(s, p)) == multiset(s) - multiset{p}
  {
    var k := CountLess(s, p);
    if k < |s| && s[k] == p {
      RemoveAtMultiset(s, k);
    } else {
      SortedMember(s, p);
      assert p !in multiset(s);
    }
  }

  lemma HeadIsLeast(s: seq<Pair>, p: Pair)
    requires Sorted(s) && p in s
    ensures !Less(p, s[0])
  {
    LessIrreflexive(p);
  }

  lemma TailMultiset(s: seq<Pair>)
    requires s != []
    ensures multiset(s[1..]) == multiset(s) - multiset{s[0]}
  {
    assert s == [s[0]] + s[1..];
  }

  /** A sorted list is determined by its pairs: whatever built it, the order is the same. */
  lemma {:induction false} SortedUnique(s: seq<Pair>, t: seq<Pair>)
    requires Sorted(s) && Sorted(t)
    requires multiset(s) == multiset(t)
    ensures s == t
  {
    assert |s| == |multiset(s)| == |multiset(t)| == |t|;
    if s != [] {
      assert s[0] in multiset(t) && t[0] in multiset(s);
      HeadIsLeast(t, s[0]);
      HeadIsLeast(s, t[0]);
      LessTotal(s[0], t[0]);
      TailMultiset(s);
      TailMultiset(t);
      SortedUnique(s[1..], t[1..]);
      assert s == [s[0]] + s[1..] && t == [t[0]] + t[1..];
    }
  }

  /** Without repetitions, sorted is strictly sorted. */
  lemma SortedDistinctIsStrict(s: seq<Pair>)
    requires Sorted(s) && forall p :: p in s ==> multiset(s)[p] == 1
    ensures forall i, j :: 0 <= i < j < |s| ==> Less(s[i], s[j])
  {
    forall i, j | 0 <= i < j < |s|
      ensures Less(s[i], s[j])
    {
      LessTotal(s[i], s[j]);
      if s[i] == s[j] {
        TwoPlaces(s, i, j);
      }
    }
  }

  lemma TwoPlaces(s: seq<Pair>, i: nat, j: nat)
    requires i < j < |s| && s[i] == s[j]
    ensures multiset(s)[s[i]] >= 2
  {
    RemoveAtMultiset(s, j);
    assert (s[..j] + s[j + 1..])[i] == s[i];
    assert s[i] in multiset(s[..j] + s[j + 1..]);
  }
}
