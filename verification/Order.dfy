/** The order in which a sorted set ranks its members: by score, then by member. */
module Order {

  /** A float64 score other than NaN. The sorted set only ever compares scores. */
  datatype Score = NegInfinity | Finite(value: real) | PosInfinity

  predicate ScoreLess(a: Score, b: Score) {
    match (a, b)
    case (NegInfinity, NegInfinity) => false
    case (NegInfinity, _) => true
    case (Finite(x), Finite(y)) => x < y
    case (Finite(_), PosInfinity) => true
    case _ => false
  }

  /** Go's `<` on strings: bytewise lexicographic. */
  predicate StringLess(a: string, b: string) {
    if b == [] then false
    else if a == [] then true
    else if a[0] != b[0] then a[0] < b[0]
    else StringLess(a[1..], b[1..])
  }

  datatype Pair = Pair(member: string, score: Score)

  /** `less` of the skip list, on (score, member) pairs. */
  predicate Less(p: Pair, q: Pair) {
    if p.score != q.score then ScoreLess(p.score, q.score) else StringLess(p.member, q.member)
  }

  /** Which of two strings comes first, said by position: one is a proper prefix of the other, or it
      has the smaller char where they first differ. */
  ghost predicate FirstDifferAt(a: string, b: string, k: nat) {
    && k <= |a| && k < |b| && a[..k] == b[..k]
    && (k == |a| || a[k] < b[k])
  }

  ghost predicate ComesFirst(a: string, b: string) {
    exists k: nat :: FirstDifferAt(a, b, k)
  }

  /** Which of two pairs ranks first, said by numbers: the one with the lower score, an infinity below or
      above all others, and of two with the same score the one whose member comes first. */
  ghost predicate RanksFirst(p: Pair, q: Pair) {
    || (p.score.NegInfinity? && !q.score.NegInfinity?)
    || (!p.score.PosInfinity? && q.score.PosInfinity?)
    || (p.score.Finite? && q.score.Finite? && p.score.value < q.score.value)
    || (p.score == q.score && ComesFirst(p.member, q.member))
  }

  lemma {:induction false} StringLessIrreflexive(a: string)
    ensures !StringLess(a, a)
  {
    if a != [] {
      StringLessIrreflexive(a[1..]);
    }
  }

  lemma {:induction false} StringLessTransitive(a: string, b: string, c: string)
    requires StringLess(a, b) && StringLess(b, c)
    ensures StringLess(a, c)
  {
    if a != [] && a[0] == b[0] == c[0] {
      StringLessTransitive(a[1..], b[1..], c[1..]);
    }
  }

  lemma {:induction false} StringLessTotal(a: string, b: string)
    ensures StringLess(a, b) || StringLess(b, a) || a == b
  {
    if a != [] && b != [] && a[0] == b[0] {
      StringLessTotal(a[1..], b[1..]);
      assert a == [a[0]] + a[1..] && b == [b[0]] + b[1..];
    }
  }

  lemma LessIrreflexive(p: Pair)
    ensures !Less(p, p)
  {
    StringLessIrreflexive(p.member);
  }

  lemma LessTransitive(p: Pair, q: Pair, r: Pair)
    requires Less(p, q) && Less(q, r)
    ensures Less(p, r)
  {
    if p.score == q.score == r.score {
      StringLessTransitive(p.member, q.member, r.member);
    }
  }

  /** `less` is a strict total order: with irreflexivity and transitivity, exactly one of
      before, after and equal holds of any two pairs. */
  lemma LessTotal(p: Pair, q: Pair)
    ensures Less(p, q) || Less(q, p) || p == q
  {
    StringLessTotal(p.member, q.member);
  }

  lemma LessAsymmetric(p: Pair, q: Pair)
    requires Less(p, q)
    ensures !Less(q, p)
  {
    if Less(q, p) {
      LessTransitive(p, q, p);
      LessIrreflexive(p);
    }
  }

  /** "Not after" composes with "before". */
  lemma LessChain(p: Pair, q: Pair, r: Pair)
    requires !Less(q, p) && Less(q, r)
    ensures Less(p, r)
  {
    LessTotal(p, q);
    if p != q {
      LessTransitive(p, q, r);
    }
  }

  lemma FirstDifferLater(a: string, b: string, k: nat)
    requires a != [] && b != [] && a[0] == b[0]
    ensures FirstDifferAt(a, b, k + 1) <==> FirstDifferAt(a[1..], b[1..], k)
  {
    if k < |a| && k + 1 < |b| {
      assert a[..k + 1] == [a[0]] + a[1..][..k] && b[..k + 1] == [b[0]] + b[1..][..k];
      assert a[1..][..k] == a[..k + 1][1..] && b[1..][..k] == b[..k + 1][1..];
    }
  }

  lemma FirstCharsAgree(a: string, b: string, k: nat)
    requires FirstDifferAt(a, b, k)
    ensures k > 0 ==> a != [] && b != [] && a[0] == b[0]
  {
    if k > 0 {
      assert a[..k][0] == b[..k][0];
    }
  }

  lemma {:induction false} StringLessIsComesFirst(a: string, b: string)
    ensures StringLess(a, b) <==> ComesFirst(a, b)
  {
    if a == [] || b == [] || a[0] != b[0] {
      if StringLess(a, b) {
        assert FirstDifferAt(a, b, 0);
      }
      if k: nat :| FirstDifferAt(a, b, k) {
        FirstCharsAgree(a, b, k);
      }
    } else {
      StringLessIsComesFirst(a[1..], b[1..]);
      if k: nat :| FirstDifferAt(a[1..], b[1..], k) {
        FirstDifferLater(a, b, k);
      }
      if k: nat :| FirstDifferAt(a, b, k) {
        FirstDifferLater(a, b, k - 1);
      }
    }
  }

  /** `less` ranks by number, and then by the first position where the members differ. */
  lemma LessRanksFirst(p: Pair, q: Pair)
    ensures Less(p, q) <==> RanksFirst(p, q)
  {
    StringLessIsComesFirst(p.member, q.member);
  }
}
