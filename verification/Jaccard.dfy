/**
 Membership overlap between a freshly derived cluster and a stored topic: the score that
 decides which scene a cluster continues, and how far that scene has changed.
 */
module Jaccard {
  import opened TextOrder

  /** How many entries of `a` occur in `b`. */
  function Overlap(a: seq<string>, b: seq<string>): (n: nat)
    ensures n <= |a|
  {
    if a == [] then 0 else (if a[0] in b then 1 else 0) + Overlap(a[1..], b)
  }

  /** How many entries of `a` do not occur in `b`. */
  function Missing(a: seq<string>, b: seq<string>): (n: nat)
    ensures n + Overlap(a, b) == |a|
  {
    if a == [] then 0 else (if a[0] !in b then 1 else 0) + Missing(a[1..], b)
  }

  function UnionSize(a: seq<string>, b: seq<string>): nat {
    |(set x | x in a) + (set x | x in b)|
  }

  function Over(p: nat, q: nat): real
    requires q > 0
  {
    p as real / q as real
  }

  function Score(a: seq<string>, b: seq<string>): real {
    var u := UnionSize(a, b);
    if u > 0 then Over(Overlap(a, b), u) else 0.0
  }

  function Churn(members: seq<string>, prior: seq<string>): nat {
    Missing(members, prior) + Missing(prior, members)
  }

  function ChurnFraction(members: seq<string>, prior: seq<string>): real {
    if |prior| > 0 then Over(Churn(members, prior), |prior|) else 1.0
  }

  // ----- Counting with sets

  ghost function Elements(s: seq<string>): set<string> { set x | x in s }

  lemma {:induction false} DistinctCount(a: seq<string>)
    requires Distinct(a)
    ensures |Elements(a)| == |a|
  {
    if a != [] {
      DistinctCount(a[1..]);
      assert a[0] !in Elements(a[1..]);
      assert Elements(a) == Elements(a[1..]) + {a[0]};
    }
  }

  lemma AddOne(s: set<string>, x: string, t: set<string>)
    requires x !in s
    ensures |(s + {x}) * t| == |s * t| + (if x in t then 1 else 0)
  {
    if x in t {
      assert (s + {x}) * t == s * t + {x};
    } else {
      assert (s + {x}) * t == s * t;
    }
  }

  lemma {:induction false} OverlapCountsIntersection(a: seq<string>, b: seq<string>)
    requires Distinct(a)
    ensures |Elements(a) * Elements(b)| == Overlap(a, b)
  {
    if a != [] {
      OverlapCountsIntersection(a[1..], b);
      assert Elements(a) == Elements(a[1..]) + {a[0]};
      AddOne(Elements(a[1..]), a[0], Elements(b));
    }
  }

  /** Overlap is symmetric, and overlap, union and churn account for every element. */
  lemma Accounting(a: seq<string>, b: seq<string>)
    requires Distinct(a) && Distinct(b)
    ensures Overlap(a, b) == Overlap(b, a)
    ensures UnionSize(a, b) == |a| + |b| - Overlap(a, b)
    ensures Churn(a, b) == UnionSize(a, b) - Overlap(a, b)
  {
    DistinctCount(a);
    DistinctCount(b);
    OverlapCountsIntersection(a, b);
    OverlapCountsIntersection(b, a);
    assert Elements(a) * Elements(b) == Elements(b) * Elements(a);
    assert UnionSize(a, b) == |Elements(a) + Elements(b)|;
  }

  lemma ScoreSymmetric(a: seq<string>, b: seq<string>)
    requires Distinct(a) && Distinct(b)
    ensures Score(a, b) == Score(b, a)
  {
    Accounting(a, b);
    Accounting(b, a);
  }

  lemma {:induction false} OverlapWithSelf(a: seq<string>, b: seq<string>)
    requires forall x :: x in a ==> x in b
    ensures Overlap(a, b) == |a|
  {
    if a != [] { OverlapWithSelf(a[1..], b); }
  }

  /** Comparing a quotient with a bound is comparing products. */
  lemma Quotient(p: real, u: real, m: real)
    requires u > 0.0
    ensures p / u >= m <==> p >= m * u
    ensures p / u <= m <==> p <= m * u
  {
    var q := p / u;
    assert q * u == p;
    Compare(q, p, u, m);
  }

  lemma Compare(q: real, p: real, u: real, m: real)
    requires u > 0.0 && q * u == p
    ensures q >= m <==> p >= m * u
    ensures q <= m <==> p <= m * u
  {
    if q > m { ScaleStrictly(m, q, u); }
    if q < m { ScaleStrictly(q, m, u); }
  }

  lemma Scale(x: real, y: real, u: real)
    requires x <= y && u >= 0.0
    ensures x * u <= y * u
  {
  }

  lemma ScaleStrictly(x: real, y: real, u: real)
    requires x < y && u > 0.0
    ensures x * u < y * u
  {
  }

  /** A share of a whole is a fraction; more than half of it is more than half of any part. */
  lemma Share(o: nat, u: nat)
    requires o <= u && u > 0
    ensures 0.0 <= o as real / u as real <= 1.0
    ensures o as real / u as real > 0.5 ==> 2 * o > u
    ensures o as real / u as real > 0.0 ==> o > 0
  {
    Quotient(o as real, u as real, 0.0);
    Quotient(o as real, u as real, 0.5);
    Quotient(o as real, u as real, 1.0);
  }

  lemma ScoreAgainst(a: seq<string>, b: seq<string>, m: real)
    requires UnionSize(a, b) > 0
    ensures Score(a, b) >= m <==> Overlap(a, b) as real >= m * UnionSize(a, b) as real
    ensures Score(a, b) <= m <==> Overlap(a, b) as real <= m * UnionSize(a, b) as real
  {
    Quotient(Overlap(a, b) as real, UnionSize(a, b) as real, m);
  }

  /** A cluster scores exactly 1 against a topic with the same members, and has no churn. */
  lemma ScoreOfSelf(a: seq<string>)
    requires Distinct(a) && a != []
    ensures Score(a, a) == 1.0 && ChurnFraction(a, a) == 0.0
  {
    OverlapWithSelf(a, a);
    Accounting(a, a);
    ScoreAgainst(a, a, 1.0);
  }

  lemma {:induction false} NoOverlapWhenDisjoint(a: seq<string>, b: seq<string>)
    requires forall x :: x in a ==> x !in b
    ensures Overlap(a, b) == 0
  {
    if a != [] { NoOverlapWhenDisjoint(a[1..], b); }
  }

  lemma ScoreOfDisjoint(a: seq<string>, b: seq<string>)
    requires forall x :: x in a ==> x !in b
    ensures Score(a, b) == 0.0
  {
    NoOverlapWhenDisjoint(a, b);
  }

  // ----- A score above one half has only one partner

  lemma AboveHalfMeansMajority(a: seq<string>, b: seq<string>)
    requires Distinct(a) && Distinct(b) && Score(a, b) > 0.5
    ensures 2 * Overlap(a, b) > |a|
  {
    Accounting(a, b);
    var o, u := Overlap(a, b), UnionSize(a, b);
    if u > 0 { Share(o, u); }
  }

  /** Two disjoint sets cannot both hold a majority of a third. */
  lemma OneMajority(s: set<string>, p: set<string>, q: set<string>)
    requires p !! q
    ensures |s * p| + |s * q| <= |s|
  {
    assert (s * p) * (s * q) == {};
    assert |s * p + s * q| == |s * p| + |s * q|;
    assert s == (s * p + s * q) + (s - (s * p + s * q));
  }

  /** No cluster scores above 1/2 against two disjoint topics. */
  lemma AboveHalfUnique(a: seq<string>, b: seq<string>, c: seq<string>)
    requires Distinct(a) && Distinct(b) && Distinct(c)
    requires forall x :: x in b ==> x !in c
    requires Score(a, b) > 0.5
    ensures Score(a, c) <= 0.5
  {
    AboveHalfMeansMajority(a, b);
    OverlapCountsIntersection(a, b);
    OverlapCountsIntersection(a, c);
    DistinctCount(a);
    OneMajority(Elements(a), Elements(b), Elements(c));
    if Score(a, c) > 0.5 { AboveHalfMeansMajority(a, c); }
  }

  /** One half is the exact bound: at 1/2 a topic of two can tie between two clusters. */
  lemma HalfIsShared(x: string, y: string)
    requires x != y
    ensures Score([x], [x, y]) == 0.5 && Score([y], [x, y]) == 0.5
  {
    Accounting([x], [x, y]);
    Accounting([y], [x, y]);
    assert Overlap([x], [x, y]) == 1;
    assert Overlap([y], [x, y]) == 1;
  }

  // ----- A matched topic cannot have churned too much

  lemma RatioBound(overlap: real, union: real, size: real, m: real)
    requires 0.0 < overlap <= size && overlap <= union && m > 0.0
    requires overlap >= m * union
    ensures (union - overlap) / size <= 1.0 / m - 1.0
  {
    var slack := 1.0 / m - 1.0;
    assert m * (slack + 1.0) == 1.0;
    if slack + 1.0 < union / overlap {
      Quotient(union, overlap, slack + 1.0);
      ScaleStrictly((slack + 1.0) * overlap, union, m);
      assert (slack + 1.0) * overlap * m == overlap;
    }
    Quotient(union, overlap, slack + 1.0);
    assert union <= (slack + 1.0) * overlap;
    assert union - overlap <= slack * overlap;
    assert slack >= 0.0 by {
      if slack < 0.0 { ScaleStrictly(slack, 0.0, overlap); }
    }
    Scale(overlap, size, slack);
    Quotient(union - overlap, size, slack);
  }

  lemma RatioBoundOfCounts(overlap: nat, union: nat, size: nat, m: real)
    requires overlap <= size && overlap <= union && m > 0.0 && union > 0
    requires Over(overlap, union) >= m
    ensures overlap > 0 && size > 0 && Over(union - overlap, size) <= 1.0 / m - 1.0
  {
    Quotient(overlap as real, union as real, m);
    ScaleStrictly(0.0, m, union as real);
    RatioBound(overlap as real, union as real, size as real, m);
  }

  lemma ChurnBound(a: seq<string>, b: seq<string>, m: real)
    requires Distinct(a) && Distinct(b)
    requires m > 0.0 && Score(a, b) >= m
    ensures ChurnFraction(a, b) <= 1.0 / m - 1.0
  {
    Accounting(a, b);
    RatioBoundOfCounts(Overlap(a, b), UnionSize(a, b), |b|, m);
  }

  /** With these thresholds a matched topic is never reorganised. */
  lemma ReorganisationUnreachable(a: seq<string>, b: seq<string>, matchThreshold: real, reorgThreshold: real)
    requires Distinct(a) && Distinct(b)
    requires matchThreshold > 0.0 && reorgThreshold > 1.0 / matchThreshold - 1.0
    requires Score(a, b) >= matchThreshold
    ensures ChurnFraction(a, b) < reorgThreshold
  {
    ChurnBound(a, b, matchThreshold);
  }

  /** The bound is attained: a topic of one that grows to two matches at 1/2 with churn 1. */
  lemma ChurnBoundTight(x: string, y: string)
    requires x != y
    ensures Score([x, y], [x]) == 0.5 && ChurnFraction([x, y], [x]) == 1.0 / 0.5 - 1.0
  {
    HalfIsShared(x, y);
    Accounting([x, y], [x]);
    ScoreSymmetric([x], [x, y]);
  }
}
