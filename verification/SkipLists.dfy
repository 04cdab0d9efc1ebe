/** The ranked skip list behind a sorted set: sixteen levels of forward pointers with spans,
    relinked in place. The heights that `randomLevel` draws are a parameter of `Insert`. */
module SkipLists {
  import opened Order
  import opened SortedSeq

  const MAX_LEVEL := 16

  /** One level of a node: the next node at this level and the rank distance to it. */
  datatype Link = Link(forward: Node?, span: int)

  class Node {
    const pair: Pair
    var level: seq<Link>

    constructor (pair: Pair, height: nat)
      ensures this.pair == pair && level == seq(height, _ => Link(null, 0))
    {
      this.pair := pair;
      level := seq(height, _ => Link(null, 0));
    }
  }

  // ---------------------------------------------------------------------------------------
  // Shape. `all` lists the nodes by rank with the head sentinel at rank 0, and `ls[p]` holds
  // the levels of the node at rank p. Nothing in this part reads the heap.
  // ---------------------------------------------------------------------------------------

  type Levels = seq<seq<Link>>

  /** No node with a rank in `from..to` reaches level `l`. */
  ghost predicate NoneTaller(ls: Levels, from: int, to: int, l: int) {
    forall q :: 0 <= from <= q < to <= |ls| ==> |ls[q]| <= l
  }

  /** The link at (p, l) skips exactly the nodes that do not reach level `l`, and its span is the
      rank distance to the node it reaches, or to the end of the list when there is none. */
  ghost predicate LinkOk(all: seq<Node>, ls: Levels, p: int, l: int)
    requires |all| == |ls|
    requires 0 <= p < |ls| && 0 <= l < |ls[p]|
  {
    var k := ls[p][l];
    if k.forward == null then
      k.span == |all| - 1 - p && NoneTaller(ls, p + 1, |ls|, l)
    else
      && 1 <= k.span < |all| - p
      && all[p + k.span] == k.forward
      && l < |ls[p + k.span]|
      && NoneTaller(ls, p + 1, p + k.span, l)
  }

  ghost predicate Distinct(all: seq<Node>) {
    forall i, j :: 0 <= i < j < |all| ==> all[i] != all[j]
  }

  ghost predicate WellLinked(all: seq<Node>, ls: Levels) {
    && 1 <= |all| == |ls|
    && Distinct(all)
    && |ls[0]| == MAX_LEVEL
    && (forall p :: 0 <= p < |ls| ==> 1 <= |ls[p]| <= MAX_LEVEL)
    && (forall p, l :: 0 <= p < |ls| && 0 <= l < |ls[p]| ==> LinkOk(all, ls, p, l))
  }

  /** The pairs in rank order, without the head. */
  ghost function PairsOf(all: seq<Node>): (s: seq<Pair>)
    ensures |s| == if all == [] then 0 else |all| - 1
    ensures forall i :: 0 <= i < |s| ==> s[i] == all[i + 1].pair
  {
    if all == [] then [] else seq(|all| - 1, i requires 0 <= i < |all| - 1 => all[i + 1].pair)
  }

  /** `r[l]` is, for every level from `from` up, the last rank at or below `k` that reaches
      level `l`: its link at that level crosses rank `k`. */
  ghost predicate Crossing(ls: Levels, k: int, r: seq<int>, from: int)
  {
    && |r| == MAX_LEVEL
    && forall l :: 0 <= from <= l < MAX_LEVEL ==> CrossesAt(ls, k, r[l], l)
  }

  ghost predicate CrossesAt(ls: Levels, k: int, p: int, l: int) {
    && 0 <= p <= k < |ls|
    && 0 <= l < |ls[p]|
    && (ls[p][l].forward == null || k < p + ls[p][l].span)
  }

  // --- insertion -------------------------------------------------------------------------

  /** What `Insert` leaves at (p, l) of an existing node when the new node has rank k + 1. */
  ghost function RelinkedForInsert(ls: Levels, k: int, r: seq<int>, node: Node, h: int, p: int, l: int): Link
    requires |r| == MAX_LEVEL && 0 <= p < |ls| && 0 <= l < |ls[p]| && l < MAX_LEVEL
  {
    if p != r[l] then ls[p][l]
    else if l < h then Link(node, k - r[l] + 1)
    else Link(ls[p][l].forward, ls[p][l].span + 1)
  }

  /** What `Insert` leaves at level `l` of the new node. */
  ghost function LinkOfInserted(ls: Levels, k: int, r: seq<int>, l: int): Link
    requires |r| == MAX_LEVEL && 0 <= l < MAX_LEVEL && 0 <= r[l] < |ls| && l < |ls[r[l]]|
  {
    Link(ls[r[l]][l].forward, ls[r[l]][l].span - (k - r[l]))
  }

  /** `ls'` is `ls` after `Insert`: the new node at rank k + 1, the crossing links changed. */
  ghost predicate InsertedLevels(ls: Levels, k: int, r: seq<int>, node: Node, h: int, ls': Levels)
    requires Crossing(ls, k, r, 0) && 0 <= k < |ls| && 1 <= h <= MAX_LEVEL
    requires forall p :: 0 <= p < |ls| ==> |ls[p]| <= MAX_LEVEL
  {
    && |ls'| == |ls| + 1
    && |ls'[k + 1]| == h
    && (forall l :: 0 <= l < h ==> ls'[k + 1][l] == LinkOfInserted(ls, k, r, l))
    && (forall p :: k + 1 < p < |ls'| ==> ls'[p] == ls[p - 1])
    && (forall p :: 0 <= p <= k ==> |ls'[p]| == |ls[p]|)
    && (forall p, l :: 0 <= p <= k && 0 <= l < |ls[p]| ==>
          ls'[p][l] == RelinkedForInsert(ls, k, r, node, h, p, l))
  }

  /** `now` is `ls` with the links of the existing nodes changed for the insertion at the levels
      below `upto`. */
  ghost predicate RelinkedUpTo(now: Levels, ls: Levels, k: int, r: seq<int>, node: Node, h: int, upto: int)
    requires |r| == MAX_LEVEL
  {
    && |now| == |ls|
    && forall p :: 0 <= p < |ls| ==>
      && |now[p]| == |ls[p]| <= MAX_LEVEL
      && forall l :: 0 <= l < |ls[p]| ==>
        now[p][l] == if l < upto then RelinkedForInsert(ls, k, r, node, h, p, l) else ls[p][l]
  }

  lemma RelinkStep(now: Levels, ls: Levels, k: int, r: seq<int>, node: Node, h: int, i: int)
    requires |r| == MAX_LEVEL && 0 <= i < MAX_LEVEL && CrossesAt(ls, k, r[i], i)
    requires RelinkedUpTo(now, ls, k, r, node, h, i)
    ensures var p := r[i];
            RelinkedUpTo(now[p := now[p][i := RelinkedForInsert(ls, k, r, node, h, p, i)]], ls, k, r, node, h, i + 1)
  {
  }

  lemma RelinkedIsInserted(now: Levels, ls: Levels, k: int, r: seq<int>, node: Node, h: int, own: seq<Link>)
    requires Crossing(ls, k, r, 0) && 0 <= k < |ls| && 1 <= h <= MAX_LEVEL && |own| == h
    requires RelinkedUpTo(now, ls, k, r, node, h, MAX_LEVEL)
    requires forall l :: 0 <= l < h ==> own[l] == LinkOfInserted(ls, k, r, l)
    ensures InsertedLevels(ls, k, r, node, h, Inserted(now, k + 1, own))
  {
    forall p | k < p < |ls|
      ensures now[p] == ls[p]
    {
      forall l | 0 <= l < |ls[p]|
        ensures now[p][l] == ls[p][l]
      {
        assert CrossesAt(ls, k, r[l], l);
      }
    }
  }

  lemma PairsOfInserted(all: seq<Node>, k: int, node: Node)
    requires 0 <= k < |all| && CountLess(PairsOf(all), node.pair) == k
    ensures PairsOf(Inserted(all, k + 1, node)) == InsertSorted(PairsOf(all), node.pair)
  {
    var s, t := PairsOf(all), PairsOf(Inserted(all, k + 1, node));
    assert forall i :: 0 <= i < k ==> t[i] == s[i];
    assert forall i :: k < i < |t| ==> t[i] == s[i - 1];
    assert t == s[..k] + [node.pair] + s[k..];
  }

  ghost function Inserted<T>(s: seq<T>, k: int, x: T): seq<T>
    requires 0 <= k <= |s|
  {
    s[..k] + [x] + s[k..]
  }

  /** Before the crossing rank, only the links at `r` cross it. */
  lemma NotCrossing(all: seq<Node>, ls: Levels, k: int, r: seq<int>, p: int, l: int)
    requires WellLinked(all, ls) && Crossing(ls, k, r, 0)
    requires 0 <= p <= k < |ls| && 0 <= l < |ls[p]| && p != r[l]
    ensures ls[p][l].forward != null && p + ls[p][l].span <= k
  {
    assert CrossesAt(ls, k, r[l], l);
    assert LinkOk(all, ls, p, l) && LinkOk(all, ls, r[l], l);
  }

  lemma InsertedLinkLow(all: seq<Node>, ls: Levels, k: int, r: seq<int>, node: Node, h: int, ls': Levels, p: int, l: int)
    requires WellLinked(all, ls) && Crossing(ls, k, r, 0) && 0 <= k < |ls| && 1 <= h <= MAX_LEVEL
    requires InsertedLevels(ls, k, r, node, h, ls')
    requires 0 <= p <= k && 0 <= l < |ls[p]|
    ensures LinkOk(Inserted(all, k + 1, node), ls', p, l)
  {
    assert LinkOk(all, ls, p, l);
    assert CrossesAt(ls, k, r[l], l);
    assert ls'[p][l] == RelinkedForInsert(ls, k, r, node, h, p, l);
    if p != r[l] {
      NotCrossing(all, ls, k, r, p, l);
    }
  }

  lemma InsertedLinkHigh(all: seq<Node>, ls: Levels, k: int, r: seq<int>, node: Node, h: int, ls': Levels, p: int, l: int)
    requires WellLinked(all, ls) && Crossing(ls, k, r, 0) && 0 <= k < |ls| && 1 <= h <= MAX_LEVEL
    requires InsertedLevels(ls, k, r, node, h, ls')
    requires k < p < |ls| && 0 <= l < |ls[p]|
    ensures LinkOk(Inserted(all, k + 1, node), ls', p + 1, l)
  {
    assert LinkOk(all, ls, p, l);
  }

  lemma InsertedLinkNew(all: seq<Node>, ls: Levels, k: int, r: seq<int>, node: Node, h: int, ls': Levels, l: int)
    requires WellLinked(all, ls) && Crossing(ls, k, r, 0) && 0 <= k < |ls| && 1 <= h <= MAX_LEVEL
    requires InsertedLevels(ls, k, r, node, h, ls')
    requires 0 <= l < h
    ensures LinkOk(Inserted(all, k + 1, node), ls', k + 1, l)
  {
    assert CrossesAt(ls, k, r[l], l);
    assert LinkOk(all, ls, r[l], l);
    assert ls'[k + 1][l] == LinkOfInserted(ls, k, r, l);
  }

  /** Insertion keeps the shape, for every height of the new node. */
  lemma InsertWellLinked(all: seq<Node>, ls: Levels, k: int, r: seq<int>, node: Node, h: int, ls': Levels)
    requires WellLinked(all, ls) && node !in all
    requires Crossing(ls, k, r, 0) && 0 <= k < |ls| && 1 <= h <= MAX_LEVEL
    requires InsertedLevels(ls, k, r, node, h, ls')
    ensures WellLinked(Inserted(all, k + 1, node), ls')
  {
    var all' := Inserted(all, k + 1, node);
    forall p, l | 0 <= p < |ls'| && 0 <= l < |ls'[p]|
      ensures LinkOk(all', ls', p, l)
    {
      if p == k + 1 {
        InsertedLinkNew(all, ls, k, r, node, h, ls', l);
      } else if p <= k {
        InsertedLinkLow(all, ls, k, r, node, h, ls', p, l);
      } else {
        InsertedLinkHigh(all, ls, k, r, node, h, ls', p - 1, l);
      }
    }
  }

  // --- deletion --------------------------------------------------------------------------

  /** What `Delete` leaves at (p, l) when it unlinks the node at rank k + 1. */
  ghost function RelinkedForDelete(ls: Levels, k: int, r: seq<int>, p: int, l: int): Link
    requires |r| == MAX_LEVEL && 0 <= k < |ls| - 1 && 0 <= p < |ls| && 0 <= l < |ls[p]| && l < MAX_LEVEL
  {
    if p != r[l] then ls[p][l]
    else if l < |ls[k + 1]| then Link(ls[k + 1][l].forward, ls[p][l].span + ls[k + 1][l].span - 1)
    else Link(ls[p][l].forward, ls[p][l].span - 1)
  }

  /** `ls'` is `ls` after `Delete` of the node at rank k + 1. */
  ghost predicate DeletedLevels(ls: Levels, k: int, r: seq<int>, ls': Levels)
    requires |r| == MAX_LEVEL && 0 <= k < |ls| - 1
    requires forall p :: 0 <= p < |ls| ==> |ls[p]| <= MAX_LEVEL
  {
    && |ls'| == |ls| - 1
    && (forall p :: k < p < |ls'| ==> ls'[p] == ls[p + 1])
    && (forall p :: 0 <= p <= k ==> |ls'[p]| == |ls[p]|)
    && (forall p, l :: 0 <= p <= k && 0 <= l < |ls[p]| ==> ls'[p][l] == RelinkedForDelete(ls, k, r, p, l))
  }

  /** `now` is `ls` with the links changed for the deletion at the levels below `upto`. */
  ghost predicate UnlinkedUpTo(now: Levels, ls: Levels, k: int, r: seq<int>, upto: int)
    requires |r| == MAX_LEVEL && 0 <= k < |ls| - 1
  {
    && |now| == |ls|
    && forall p :: 0 <= p < |ls| ==>
      && |now[p]| == |ls[p]| <= MAX_LEVEL
      && forall l :: 0 <= l < |ls[p]| ==>
        now[p][l] == if l < upto then RelinkedForDelete(ls, k, r, p, l) else ls[p][l]
  }

  lemma UnlinkStep(now: Levels, ls: Levels, k: int, r: seq<int>, i: int)
    requires |r| == MAX_LEVEL && 0 <= i < MAX_LEVEL && 0 <= k < |ls| - 1 && CrossesAt(ls, k, r[i], i)
    requires UnlinkedUpTo(now, ls, k, r, i)
    ensures var p := r[i];
            UnlinkedUpTo(now[p := now[p][i := RelinkedForDelete(ls, k, r, p, i)]], ls, k, r, i + 1)
  {
  }

  lemma UnlinkedIsDeleted(now: Levels, ls: Levels, k: int, r: seq<int>)
    requires Crossing(ls, k, r, 0) && 0 <= k < |ls| - 1
    requires UnlinkedUpTo(now, ls, k, r, MAX_LEVEL)
    ensures DeletedLevels(ls, k, r, Removed(now, k + 1))
  {
    forall p | k < p < |ls|
      ensures now[p] == ls[p]
    {
      forall l | 0 <= l < |ls[p]|
        ensures now[p][l] == ls[p][l]
      {
        assert CrossesAt(ls, k, r[l], l);
      }
    }
  }

  lemma PairsOfRemoved(all: seq<Node>, k: int)
    requires 0 <= k < |all| - 1 && CountLess(PairsOf(all), all[k + 1].pair) == k
    ensures PairsOf(Removed(all, k + 1)) == RemoveSorted(PairsOf(all), all[k + 1].pair)
  {
    var s, t := PairsOf(all), PairsOf(Removed(all, k + 1));
    assert forall i :: 0 <= i < k ==> t[i] == s[i];
    assert forall i :: k <= i < |t| ==> t[i] == s[i + 1];
    assert t == s[..k] + s[k + 1..];
  }

  ghost function Removed<T>(s: seq<T>, k: int): seq<T>
    requires 0 <= k < |s|
  {
    s[..k] + s[k + 1..]
  }

  /** The pointer comparison in `Delete` tells exactly whether the target reaches level `l`. */
  lemma PointsAtTarget(all: seq<Node>, ls: Levels, k: int, r: seq<int>, l: int)
    requires WellLinked(all, ls) && Crossing(ls, k, r, 0) && 0 <= k < |ls| - 1 && 0 <= l < MAX_LEVEL
    ensures ls[r[l]][l].forward == all[k + 1] <==> l < |ls[k + 1]|
    ensures l < |ls[k + 1]| ==> r[l] + ls[r[l]][l].span == k + 1
  {
    assert CrossesAt(ls, k, r[l], l);
    assert LinkOk(all, ls, r[l], l);
  }

  /** What the loop of `Delete` starts from. */
  lemma BeforeUnlinking(all: seq<Node>, ls: Levels, k: int, r: seq<int>)
    requires WellLinked(all, ls) && Crossing(ls, k, r, 0) && 0 <= k < |ls| - 1
    ensures UnlinkedUpTo(ls, ls, k, r, 0)
    ensures forall l :: 0 <= l < MAX_LEVEL ==>
      CrossesAt(ls, k, r[l], l) && (ls[r[l]][l].forward == all[k + 1] <==> l < |ls[k + 1]|)
  {
    forall l | 0 <= l < MAX_LEVEL
      ensures CrossesAt(ls, k, r[l], l) && (ls[r[l]][l].forward == all[k + 1] <==> l < |ls[k + 1]|)
    {
      PointsAtTarget(all, ls, k, r, l);
    }
  }

  lemma DeletedLinkLow(all: seq<Node>, ls: Levels, k: int, r: seq<int>, ls': Levels, p: int, l: int)
    requires WellLinked(all, ls) && Crossing(ls, k, r, 0) && 0 <= k < |ls| - 1
    requires DeletedLevels(ls, k, r, ls')
    requires 0 <= p <= k && 0 <= l < |ls[p]|
    ensures LinkOk(Removed(all, k + 1), ls', p, l)
  {
    assert LinkOk(all, ls, p, l);
    assert CrossesAt(ls, k, r[l], l);
    assert ls'[p][l] == RelinkedForDelete(ls, k, r, p, l);
    PointsAtTarget(all, ls, k, r, l);
    if p != r[l] {
      NotCrossing(all, ls, k, r, p, l);
    } else if l < |ls[k + 1]| {
      assert LinkOk(all, ls, k + 1, l);
    }
  }

  lemma DeletedLinkHigh(all: seq<Node>, ls: Levels, k: int, r: seq<int>, ls': Levels, p: int, l: int)
    requires WellLinked(all, ls) && Crossing(ls, k, r, 0) && 0 <= k < |ls| - 1
    requires DeletedLevels(ls, k, r, ls')
    requires k < p < |ls'| && 0 <= l < |ls'[p]|
    ensures LinkOk(Removed(all, k + 1), ls', p, l)
  {
    assert LinkOk(all, ls, p + 1, l);
  }

  lemma DeleteWellLinked(all: seq<Node>, ls: Levels, k: int, r: seq<int>, ls': Levels)
    requires WellLinked(all, ls) && Crossing(ls, k, r, 0) && 0 <= k < |ls| - 1
    requires DeletedLevels(ls, k, r, ls')
    ensures WellLinked(Removed(all, k + 1), ls')
  {
    var all' := Removed(all, k + 1);
    forall p, l | 0 <= p < |ls'| && 0 <= l < |ls'[p]|
      ensures LinkOk(all', ls', p, l)
    {
      if p <= k {
        DeletedLinkLow(all, ls, k, r, ls', p, l);
      } else {
        DeletedLinkHigh(all, ls, k, r, ls', p, l);
      }
    }
  }

  // --- levels as sublists ----------------------------------------------------------------

  /** The ranks met by following level `l` from rank `p`. */
  ghost function Chain(all: seq<Node>, ls: Levels, p: int, l: int): seq<int>
    requires WellLinked(all, ls) && 0 <= p < |ls| && 0 <= l < |ls[p]|
    decreases |ls| - p
  {
    assert LinkOk(all, ls, p, l);
    if ls[p][l].forward == null then [] else
      [p + ls[p][l].span] + Chain(all, ls, p + ls[p][l].span, l)
  }

  /** The ranks from `from` on whose nodes reach level `l`, in order. */
  ghost function Taller(ls: Levels, from: int, l: int): seq<int>
    requires 0 <= from <= |ls|
    decreases |ls| - from
  {
    if from == |ls| then []
    else (if l < |ls[from]| then [from] else []) + Taller(ls, from + 1, l)
  }

  lemma {:induction false} TallerSkips(ls: Levels, from: int, to: int, l: int)
    requires 0 <= from <= to <= |ls| && NoneTaller(ls, from, to, l)
    ensures Taller(ls, from, l) == Taller(ls, to, l)
    decreases |ls| - from
  {
    if from < to {
      TallerSkips(ls, from + 1, to, l);
    }
  }

  /** Following the pointers of level `l` visits exactly the nodes taller than `l`, in rank order. */
  lemma {:induction false} LevelIsSublist(all: seq<Node>, ls: Levels, p: int, l: int)
    requires WellLinked(all, ls) && 0 <= p < |ls| && 0 <= l < |ls[p]|
    ensures Chain(all, ls, p, l) == Taller(ls, p + 1, l)
    decreases |ls| - p
  {
    assert LinkOk(all, ls, p, l);
    if ls[p][l].forward == null {
      TallerSkips(ls, p + 1, |ls|, l);
    } else {
      var q := p + ls[p][l].span;
      TallerSkips(ls, p + 1, q, l);
      LevelIsSublist(all, ls, q, l);
    }
  }

  // ---------------------------------------------------------------------------------------
  // Search
  // ---------------------------------------------------------------------------------------

  /** At level `l` the search for `target` stops at rank `p`: the next node there is not below it. */
  ghost predicate StopsAt(all: seq<Node>, ls: Levels, target: Pair, p: int, l: int)
    requires |all| == |ls|
  {
    && 0 <= p < |ls|
    && 0 <= l < |ls[p]|
    && (p == 0 || Less(all[p].pair, target))
    && (ls[p][l].forward == null || !Less(ls[p][l].forward.pair, target))
  }

  /** Where the search stops at level 0, the list splits. */
  lemma StopSplits(all: seq<Node>, ls: Levels, target: Pair, p: int)
    requires WellLinked(all, ls) && Sorted(PairsOf(all)) && StopsAt(all, ls, target, p, 0)
    ensures Splits(PairsOf(all), target, p)
  {
    var s := PairsOf(all);
    assert LinkOk(all, ls, p, 0);
    forall i | 0 <= i < p
      ensures Less(s[i], target)
    {
      if i < p - 1 {
        LessChain(s[i], s[p - 1], target);
      }
    }
    forall i | p <= i < |s|
      ensures !Less(s[i], target)
    {
      assert |ls[p + 1]| > 0;
      assert ls[p][0].forward == all[p + 1];
      if p < i && Less(s[i], target) {
        LessChain(s[p], s[i], target);
      }
    }
  }

  /** Above level 0 the search stops on the crossing links. */
  lemma StopCrosses(all: seq<Node>, ls: Levels, target: Pair, p: int, l: int, k: int)
    requires WellLinked(all, ls) && StopsAt(all, ls, target, p, l)
    requires p <= k && Splits(PairsOf(all), target, k)
    ensures CrossesAt(ls, k, p, l)
  {
    assert LinkOk(all, ls, p, l);
    if ls[p][l].forward != null {
      assert ls[p][l].forward.pair == PairsOf(all)[p + ls[p][l].span - 1];
    }
  }

  /** The whole descent: its ranks split the list at level 0 and cross that rank above. */
  lemma SearchStops(all: seq<Node>, ls: Levels, target: Pair, rank: seq<int>)
    requires WellLinked(all, ls) && Sorted(PairsOf(all)) && |rank| == MAX_LEVEL
    requires forall l :: 0 <= l < MAX_LEVEL ==> StopsAt(all, ls, target, rank[l], l)
    requires forall l :: 0 <= l < MAX_LEVEL ==> rank[l] <= rank[0]
    ensures Splits(PairsOf(all), target, rank[0]) && Crossing(ls, rank[0], rank, 0)
  {
    StopSplits(all, ls, target, rank[0]);
    forall l | 0 <= l < MAX_LEVEL
      ensures CrossesAt(ls, rank[0], rank[l], l)
    {
      StopCrosses(all, ls, target, rank[l], l, rank[0]);
    }
  }

  /** At level 0 the link of rank `p` reaches rank p + 1, or nothing at the end. */
  lemma NextAtLevelZero(all: seq<Node>, ls: Levels, p: int)
    requires WellLinked(all, ls) && 0 <= p < |ls|
    ensures p + 1 < |ls| ==> ls[p][0] == Link(all[p + 1], 1)
    ensures p + 1 == |ls| ==> ls[p][0] == Link(null, 0)
  {
    assert LinkOk(all, ls, p, 0);
    if p + 1 < |ls| {
      assert |ls[p + 1]| > 0;
    }
  }

  /** The level-0 link of rank `p` leads past `rank`. */
  ghost predicate StopsBeyond(ls: Levels, p: int, rank: int)
    requires 0 <= p < |ls| && 1 <= |ls[p]|
  {
    ls[p][0].forward == null || p + ls[p][0].span > rank
  }

  ghost function LevelsOf(all: seq<Node>): (ls: Levels)
    reads all
    ensures |ls| == |all|
    ensures forall p :: 0 <= p < |all| ==> ls[p] == all[p].level
  {
    seq(|all|, p requires 0 <= p < |all| reads all => all[p].level)
  }

  lemma LevelsOfInserted(all: seq<Node>, k: int, node: Node)
    requires 0 <= k <= |all|
    ensures LevelsOf(Inserted(all, k, node)) == Inserted(LevelsOf(all), k, node.level)
  {
  }

  /** The shape lemmas put together: what the two loops of `Insert` leave is well linked. */
  lemma InsertedShape(all: seq<Node>, ls: Levels, k: int, r: seq<int>, node: Node, h: int)
    requires WellLinked(all, ls) && node !in all && Splits(PairsOf(all), node.pair, k)
    requires Crossing(ls, k, r, 0) && 1 <= h <= MAX_LEVEL && |node.level| == h
    requires RelinkedUpTo(LevelsOf(all), ls, k, r, node, h, MAX_LEVEL)
    requires forall l :: 0 <= l < h ==> node.level[l] == LinkOfInserted(ls, k, r, l)
    ensures k == CountLess(PairsOf(all), node.pair)
    ensures WellLinked(Inserted(all, k + 1, node), LevelsOf(Inserted(all, k + 1, node)))
  {
    CountLessSplits(PairsOf(all), node.pair, k);
    LevelsOfInserted(all, k + 1, node);
    RelinkedIsInserted(LevelsOf(all), ls, k, r, node, h, node.level);
    InsertWellLinked(all, ls, k, r, node, h, LevelsOf(Inserted(all, k + 1, node)));
  }

  /** The nodes after `Insert`, apart from their links. */
  lemma InsertedNodes(all: seq<Node>, k: int, node: Node, repr: set<object>, all': seq<Node>)
    requires 0 <= k < |all| && k == CountLess(PairsOf(all), node.pair) && Sorted(PairsOf(all))
    requires (forall p :: 0 <= p < |all| ==> all[p] in repr) && all' == Inserted(all, k + 1, node)
    ensures |all'| == |all| + 1 && all'[0] == all[0] && node in all'
    ensures forall p :: 0 <= p < |all'| ==> all'[p] in repr + {node}
    ensures PairsOf(all') == InsertSorted(PairsOf(all), node.pair) && Sorted(PairsOf(all'))
  {
    PairsOfInserted(all, k, node);
    InsertKeepsSorted(PairsOf(all), node.pair);
  }

  lemma LevelsOfRemoved(all: seq<Node>, k: int)
    requires 0 <= k < |all|
    ensures LevelsOf(Removed(all, k)) == Removed(LevelsOf(all), k)
  {
  }

  /** What the loop of `Delete` leaves is well linked without the target. */
  lemma DeletedShape(all: seq<Node>, ls: Levels, k: int, r: seq<int>, repr: set<object>)
    returns (all': seq<Node>)
    requires forall p :: 0 <= p < |all| ==> all[p] in repr
    requires WellLinked(all, ls) && 0 <= k < |ls| - 1 && Splits(PairsOf(all), all[k + 1].pair, k)
    requires Crossing(ls, k, r, 0)
    requires UnlinkedUpTo(LevelsOf(all), ls, k, r, MAX_LEVEL)
    ensures |all'| == |all| - 1 && all'[0] == all[0]
    ensures forall p :: 0 <= p < |all'| ==> all'[p] in repr
    ensures PairsOf(all') == RemoveSorted(PairsOf(all), all[k + 1].pair)
    ensures WellLinked(all', LevelsOf(all'))
  {
    all' := Removed(all, k + 1);
    CountLessSplits(PairsOf(all), all[k + 1].pair, k);
    PairsOfRemoved(all, k);
    LevelsOfRemoved(all, k + 1);
    UnlinkedIsDeleted(LevelsOf(all), ls, k, r);
    DeleteWellLinked(all, ls, k, r, LevelsOf(all'));
  }

  class SkipList {
    var head: Node
    var length: int
    ghost var all: seq<Node>

    ghost var repr: set<object>

    ghost predicate Valid()
      reads this, all
    {
      && this in repr && (forall p :: 0 <= p < |all| ==> all[p] in repr)
      && 1 <= |all| && all[0] == head && length == |all| - 1
      && WellLinked(all, LevelsOf(all))
      && Sorted(PairsOf(all))
    }

    /** The ranked pairs the list holds. */
    ghost function Pairs(): seq<Pair>
      reads this
    {
      PairsOf(all)
    }

    constructor ()
      ensures Valid() && Pairs() == [] && fresh(repr)
    {
      head := new Node(Pair("", Finite(0.0)), MAX_LEVEL);
      length := 0;
      all := [head];
      repr := {this, head};
    }

    /** The descent that `Insert`, `Delete` and `GetRank` share: at every level, the last node
        below `target` and its rank. */
    method FindPredecessors(target: Pair) returns (update: seq<Node>, rank: seq<int>)
      requires Valid()
      ensures |update| == |rank| == MAX_LEVEL
      ensures Splits(Pairs(), target, rank[0])
      ensures Crossing(LevelsOf(all), rank[0], rank, 0)
      ensures forall l :: 0 <= l < MAX_LEVEL ==> update[l] == all[rank[l]]
    {
      ghost var ls := LevelsOf(all);
      var current := head;
      update := seq(MAX_LEVEL, _ => current);
      rank := seq(MAX_LEVEL, _ => 0);
      var i := MAX_LEVEL - 1;
      while i >= 0
        invariant -1 <= i < MAX_LEVEL && |update| == |rank| == MAX_LEVEL
        invariant var p := if i == MAX_LEVEL - 1 then 0 else rank[i + 1];
                  && 0 <= p < |all| && current == all[p]
                  && i < |ls[p]| && (p == 0 || Less(all[p].pair, target))
        invariant forall l :: i < l < MAX_LEVEL ==> StopsAt(all, ls, target, rank[l], l)
        invariant forall l :: i < l < MAX_LEVEL ==> update[l] == all[rank[l]] && rank[l] <= rank[i + 1]
      {
        var r := if i == MAX_LEVEL - 1 then 0 else rank[i + 1];
        current, r := Advance(current, r, i, target);
        rank := rank[i := r];
        update := update[i := current];
        i := i - 1;
      }
      SearchStops(all, ls, target, rank);
    }

    /** The inner loop of the descent: run along level `i` while the next node is below `target`. */
    method Advance(from: Node, fromRank: int, i: int, target: Pair) returns (node: Node, rank: int)
      requires Valid() && 0 <= fromRank < |all| && from == all[fromRank] && 0 <= i < |from.level|
      requires fromRank == 0 || Less(from.pair, target)
      ensures fromRank <= rank < |all| && node == all[rank]
      ensures StopsAt(all, LevelsOf(all), target, rank, i)
    {
      ghost var ls := LevelsOf(all);
      node, rank := from, fromRank;
      while node.level[i].forward != null && Less(node.level[i].forward.pair, target)
        invariant fromRank <= rank < |all| && node == all[rank] && i < |ls[rank]|
        invariant rank == 0 || Less(all[rank].pair, target)
        decreases |all| - rank
      {
        assert LinkOk(all, ls, rank, i);
        rank := rank + node.level[i].span;
        node := node.level[i].forward;
      }
    }

    /** Insert one more occurrence of `pair` with a node of any height. */
    method Insert(pair: Pair, height: nat) returns (node: Node)
      requires Valid() && 1 <= height <= MAX_LEVEL
      modifies repr
      ensures Valid() && fresh(repr - old(repr))
      ensures Pairs() == InsertSorted(old(Pairs()), pair)
      ensures fresh(node) && node in all && node.pair == pair
    {
      node := new Node(pair, height);
      Place(node, height);
    }

    /** `Insert` of a node that was just made. */
    method Place(node: Node, height: nat)
      requires Valid() && node !in all && |node.level| == height && 1 <= height <= MAX_LEVEL
      modifies `length, `all, `repr, node`level, all`level
      ensures Valid() && repr == old(repr) + {node}
      ensures Pairs() == InsertSorted(old(Pairs()), node.pair)
      ensures node in all
    {
      ghost var k := LinkNode(node, height);
      ghost var all' := Inserted(all, k + 1, node);
      InsertedNodes(all, k, node, repr, all');
      Resize(length + 1, all', repr + {node});
    }

    /** The new length, once the pointers are in place. */
    method Resize(newLength: int, ghost all': seq<Node>, ghost repr': set<object>)
      requires 1 <= |all'| && all'[0] == head && newLength == |all'| - 1
      requires this in repr' && forall p :: 0 <= p < |all'| ==> all'[p] in repr'
      requires WellLinked(all', LevelsOf(all')) && Sorted(PairsOf(all'))
      modifies `length, `all, `repr
      ensures Valid() && all == all' && repr == repr'
    {
      ghost var ls := LevelsOf(all');
      length := newLength;
      all, repr := all', repr';
      assert LevelsOf(all) == ls;
    }

    /** The pointer work of `Insert`: afterwards the nodes with `node` at its rank are well linked. */
    method LinkNode(node: Node, height: nat) returns (ghost k: int)
      requires Valid() && node !in all && |node.level| == height && 1 <= height <= MAX_LEVEL
      modifies node`level, all`level
      ensures 0 <= k < |all| && k == CountLess(Pairs(), node.pair)
      ensures WellLinked(Inserted(all, k + 1, node), LevelsOf(Inserted(all, k + 1, node)))
    {
      ghost var ls := LevelsOf(all);
      var update, rank := FindPredecessors(node.pair);
      SpliceIn(node, height, update, rank, ls);
      WidenAbove(node, height, update, rank, ls);
      k := rank[0];
      InsertedShape(all, ls, k, rank, node, height);
    }

    /** Overwrite one link of the node at rank `p`. */
    method SetLink(node: Node, l: int, link: Link, ghost p: int)
      requires Distinct(all) && 0 <= p < |all| && all[p] == node && 0 <= l < |node.level|
      modifies node`level
      ensures LevelsOf(all) == old(LevelsOf(all))[p := old(node.level)[l := link]]
    {
      node.level := node.level[l := link];
    }

    /** First loop of `Insert`: link the new node into the levels it reaches. */
    method SpliceIn(node: Node, height: nat, update: seq<Node>, rank: seq<int>, ghost ls: Levels)
      requires node !in all && |node.level| == height && 1 <= height <= MAX_LEVEL
      requires Distinct(all) && |update| == |rank| == MAX_LEVEL && Crossing(ls, rank[0], rank, 0)
      requires RelinkedUpTo(LevelsOf(all), ls, rank[0], rank, node, height, 0)
      requires forall l :: 0 <= l < MAX_LEVEL ==> update[l] == all[rank[l]]
      modifies node`level, all`level
      ensures RelinkedUpTo(LevelsOf(all), ls, rank[0], rank, node, height, height)
      ensures |node.level| == height
      ensures forall l :: 0 <= l < height ==> node.level[l] == LinkOfInserted(ls, rank[0], rank, l)
    {
      for i := 0 to height
        invariant |node.level| == height
        invariant forall l :: 0 <= l < i ==> node.level[l] == LinkOfInserted(ls, rank[0], rank, l)
        invariant RelinkedUpTo(LevelsOf(all), ls, rank[0], rank, node, height, i)
      {
        SpliceAt(i, node, height, update[i], rank, ls);
      }
    }

    /** One round: the new node takes over the rest of the span that crosses its rank. */
    method SpliceAt(i: int, node: Node, height: nat, previous: Node, rank: seq<int>, ghost ls: Levels)
      requires node !in all && |node.level| == height && 0 <= i < height <= MAX_LEVEL
      requires Distinct(all) && |rank| == MAX_LEVEL && Crossing(ls, rank[0], rank, 0)
      requires RelinkedUpTo(LevelsOf(all), ls, rank[0], rank, node, height, i) && previous == all[rank[i]]
      modifies node`level, previous`level
      ensures RelinkedUpTo(LevelsOf(all), ls, rank[0], rank, node, height, i + 1)
      ensures node.level == old(node.level)[i := LinkOfInserted(ls, rank[0], rank, i)]
    {
      assert CrossesAt(ls, rank[0], rank[i], i);
      RelinkStep(LevelsOf(all), ls, rank[0], rank, node, height, i);
      var link := previous.level[i];
      node.level := node.level[i := Link(link.forward, link.span - (rank[0] - rank[i]))];
      SetLink(previous, i, Link(node, rank[0] - rank[i] + 1), rank[i]);
    }

    /** Second loop of `Insert`: the links that now jump over the new node grow by one. */
    method WidenAbove(node: Node, height: nat, update: seq<Node>, rank: seq<int>, ghost ls: Levels)
      requires node !in all && 1 <= height <= MAX_LEVEL
      requires Distinct(all) && |update| == |rank| == MAX_LEVEL && Crossing(ls, rank[0], rank, 0)
      requires RelinkedUpTo(LevelsOf(all), ls, rank[0], rank, node, height, height)
      requires forall l :: 0 <= l < MAX_LEVEL ==> update[l] == all[rank[l]]
      modifies all`level
      ensures RelinkedUpTo(LevelsOf(all), ls, rank[0], rank, node, height, MAX_LEVEL)
    {
      for i := height to MAX_LEVEL
        invariant RelinkedUpTo(LevelsOf(all), ls, rank[0], rank, node, height, i)
      {
        assert CrossesAt(ls, rank[0], rank[i], i);
        var link := update[i].level[i];
        ghost var now := LevelsOf(all);
        RelinkStep(now, ls, rank[0], rank, node, height, i);
        SetLink(update[i], i, link.(span := link.span + 1), rank[i]);
      }
    }
  
    /** Delete one occurrence of `pair`; false when there is none. */
    method Delete(pair: Pair) returns (found: bool)
      requires Valid()
      modifies repr
      ensures Valid() && repr == old(repr)
      ensures found <==> pair in old(Pairs())
      ensures Pairs() == RemoveSorted(old(Pairs()), pair)
    {
      var update, rank := FindPredecessors(pair);
      ghost var k := rank[0];
      CountLessSplits(Pairs(), pair, k);
      SortedMember(Pairs(), pair);
      NextAtLevelZero(all, LevelsOf(all), k);
      assert CrossesAt(LevelsOf(all), k, k, 0);
      var target := update[0].level[0].forward;
      if target == null || target.pair != pair {
        return false;
      }
      ghost var all' := Unlink(target, update, rank);
      RemoveKeepsSorted(Pairs(), pair);
      Resize(length - 1, all', repr);
      found := true;
    }

    /** The loop of `Delete`: afterwards the nodes without `target` are well linked. */
    method Unlink(target: Node, update: seq<Node>, ghost rank: seq<int>) returns (ghost all': seq<Node>)
      requires Valid() && |update| == |rank| == MAX_LEVEL && 0 <= rank[0] < |all| - 1
      requires Crossing(LevelsOf(all), rank[0], rank, 0) && target == all[rank[0] + 1]
      requires Splits(Pairs(), target.pair, rank[0])
      requires forall l :: 0 <= l < MAX_LEVEL ==> update[l] == all[rank[l]]
      modifies all`level
      ensures |all'| == |all| - 1 && all'[0] == head
      ensures forall p :: 0 <= p < |all'| ==> all'[p] in repr
      ensures PairsOf(all') == RemoveSorted(Pairs(), target.pair)
      ensures WellLinked(all', LevelsOf(all'))
    {
      ghost var ls := LevelsOf(all);
      BeforeUnlinking(all, ls, rank[0], rank);
      UnlinkLevels(target, update, rank, ls);
      all' := DeletedShape(all, ls, rank[0], rank, repr);
    }

    method UnlinkLevels(target: Node, update: seq<Node>, ghost rank: seq<int>, ghost ls: Levels)
      requires Distinct(all) && |update| == |rank| == MAX_LEVEL && 0 <= rank[0] < |ls| - 1
      requires Crossing(ls, rank[0], rank, 0) && |all| == |ls| && target == all[rank[0] + 1]
      requires UnlinkedUpTo(LevelsOf(all), ls, rank[0], rank, 0)
      requires forall l :: 0 <= l < MAX_LEVEL ==> update[l] == all[rank[l]]
      requires forall l :: 0 <= l < MAX_LEVEL ==>
        CrossesAt(ls, rank[0], rank[l], l) && (ls[rank[l]][l].forward == target <==> l < |ls[rank[0] + 1]|)
      modifies all`level
      ensures UnlinkedUpTo(LevelsOf(all), ls, rank[0], rank, MAX_LEVEL)
    {
      ghost var k := rank[0];
      for i := 0 to MAX_LEVEL
        invariant UnlinkedUpTo(LevelsOf(all), ls, k, rank, i)
      {
        assert CrossesAt(ls, k, rank[i], i);
        UnlinkStep(LevelsOf(all), ls, k, rank, i);
        UnlinkAt(i, target, update[i], rank, ls);
      }
    }

    /** One round of the loop of `Delete`. */
    method UnlinkAt(i: int, target: Node, node: Node, ghost rank: seq<int>, ghost ls: Levels)
      requires Distinct(all) && |rank| == MAX_LEVEL && 0 <= rank[0] < |ls| - 1 && |all| == |ls|
      requires 0 <= i < MAX_LEVEL && CrossesAt(ls, rank[0], rank[i], i) && node == all[rank[i]]
      requires |node.level| == |ls[rank[i]]| && node.level[i] == ls[rank[i]][i]
      requires |target.level| == |ls[rank[0] + 1]|
      requires i < |target.level| ==> target.level[i] == ls[rank[0] + 1][i]
      requires node.level[i].forward == target <==> i < |target.level|
      modifies node`level
      ensures var now := old(LevelsOf(all));
              var p := rank[i];
              LevelsOf(all) == now[p := now[p][i := RelinkedForDelete(ls, rank[0], rank, p, i)]]
    {
      var link := node.level[i];
      if link.forward == target {
        link := Link(target.level[i].forward, link.span + target.level[i].span - 1);
      } else {
        link := link.(span := link.span - 1);
      }
      assert link == RelinkedForDelete(ls, rank[0], rank, rank[i], i);
      SetLink(node, i, link, rank[i]);
    }

    /** The 1-based rank of `pair`, or 0 when it is absent. */
    method GetRank(pair: Pair) returns (rank: int)
      requires Valid()
      ensures pair !in Pairs() ==> rank == 0
      ensures pair in Pairs() ==> rank == CountLess(Pairs(), pair) + 1
      ensures 1 <= rank ==> rank <= |Pairs()| && Pairs()[rank - 1] == pair
    {
      var update, ranks := FindPredecessors(pair);
      CountLessSplits(Pairs(), pair, ranks[0]);
      SortedMember(Pairs(), pair);
      NextAtLevelZero(all, LevelsOf(all), ranks[0]);
      assert CrossesAt(LevelsOf(all), ranks[0], ranks[0], 0);
      var next := update[0].level[0].forward;
      if next != null && next.pair == pair {
        return ranks[0] + 1;
      }
      return 0;
    }

    /** The node at a 1-based rank; null outside 1..length. */
    method GetByRank(rank: int) returns (node: Node?)
      requires Valid()
      ensures node == null <==> !(1 <= rank <= |Pairs()|)
      ensures node != null ==> node == all[rank] && node.pair == Pairs()[rank - 1]
    {
      if rank <= 0 || rank > length {
        return null;
      }
      ghost var ls := LevelsOf(all);
      var traversed := 0;
      var current := head;
      var i := MAX_LEVEL - 1;
      while i >= 0
        invariant -1 <= i < MAX_LEVEL
        invariant 0 <= traversed <= rank && current == all[traversed] && i < |ls[traversed]|
        invariant i == -1 ==> traversed < rank && StopsBeyond(ls, traversed, rank)
      {
        while current.level[i].forward != null && traversed + current.level[i].span <= rank
          invariant 0 <= traversed <= rank && current == all[traversed] && i < |ls[traversed]|
          decreases rank - traversed
        {
          assert LinkOk(all, ls, traversed, i);
          traversed := traversed + current.level[i].span;
          current := current.level[i].forward;
        }
        if traversed == rank {
          return current;
        }
        i := i - 1;
      }
      NextAtLevelZero(all, ls, traversed);
      assert false;
    }

    /** The nodes ranked `first` to `last`, both clamped to the list. */
    method Range(first: int, last: int) returns (nodes: seq<Node>)
      requires Valid()
      ensures var lo, hi := (if first < 1 then 1 else first), (if last > |Pairs()| then |Pairs()| else last);
              nodes == if lo > hi then [] else all[lo..hi + 1]
    {
      var start, end := first, last;
      if start < 1 {
        start := 1;
      }
      if end > length {
        end := length;
      }
      if start > end {
        return [];
      }
      var node := GetByRank(start);
      forall p | 0 <= p < |all|
        ensures |all[p].level| >= 1
        ensures all[p].level[0].forward == if p + 1 < |all| then all[p + 1] else null
      {
        NextAtLevelZero(all, LevelsOf(all), p);
      }
      nodes := Collect(node, start, end);
    }

    /** The loop of `Range`, along level 0. */
    method Collect(first: Node?, start: int, end: int) returns (nodes: seq<Node>)
      requires 0 <= start <= end < |all| && first == all[start]
      requires forall p :: 0 <= p < |all| ==> |all[p].level| >= 1
      requires forall p :: 0 <= p < |all| ==> all[p].level[0].forward == if p + 1 < |all| then all[p + 1] else null
      ensures nodes == all[start..end + 1]
    {
      var node, at := first, start;
      nodes := [];
      while node != null && at <= end
        invariant start <= at <= end + 1
        invariant node == if at < |all| then all[at] else null
        invariant nodes == all[start..at]
        decreases end - at
      {
        nodes := nodes + [node];
        node := node.level[0].forward;
        at := at + 1;
      }
    }
  }
}
