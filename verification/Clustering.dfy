/**
 Leader clustering of atoms: an atom joins the most similar cluster founder at or above
 the threshold, and founds a cluster of its own otherwise. Similarity is any function.
 */
module Clustering {
  import opened TextOrder
  import opened Tables

  datatype AtomVec = AtomVec(id: string, vec: Vec)

  datatype Cluster = Cluster(founder: AtomVec, members: seq<AtomVec>)

  /** Member ids in placement order: what a topic scene stores. */
  function MemberIds(c: Cluster): (ids: seq<string>)
    ensures |ids| == |c.members|
    ensures forall i :: 0 <= i < |ids| ==> ids[i] == c.members[i].id
  {
    seq(|c.members|, i requires 0 <= i < |c.members| => c.members[i].id)
  }

  /** Best founder so far: its index, -1 while none beats the initial score of -1. */
  datatype Best = Best(index: int, sim: real)

  function NearestOfFirst(sim: Similarity, v: Vec, cs: seq<Cluster>, k: nat): (best: Best)
    requires k <= |cs|
    ensures -1 <= best.index < k
    ensures best.index == -1 ==> best.sim == -1.0 && forall c :: 0 <= c < k ==> sim(v, cs[c].founder.vec) <= -1.0
    ensures best.index >= 0 ==>
              && best.sim == sim(v, cs[best.index].founder.vec) > -1.0
              && (forall c :: 0 <= c < best.index ==> sim(v, cs[c].founder.vec) < best.sim)
              && (forall c :: best.index < c < k ==> sim(v, cs[c].founder.vec) <= best.sim)
  {
    if k == 0 then Best(-1, -1.0)
    else
      var prev := NearestOfFirst(sim, v, cs, k - 1);
      var s := sim(v, cs[k - 1].founder.vec);
      if s > prev.sim then Best(k - 1, s) else prev
  }

  function Place(sim: Similarity, threshold: real, a: AtomVec, cs: seq<Cluster>): seq<Cluster> {
    var best := NearestOfFirst(sim, a.vec, cs, |cs|);
    if best.index >= 0 && best.sim >= threshold then
      var c := cs[best.index];
      cs[best.index := c.(members := c.members + [a])]
    else cs + [Cluster(a, [a])]
  }

  function Clusters(sim: Similarity, threshold: real, atoms: seq<AtomVec>): seq<Cluster> {
    if atoms == [] then []
    else
      var n := |atoms| - 1;
      Place(sim, threshold, atoms[n], Clusters(sim, threshold, atoms[..n]))
  }

  /** The inner loop: scan the founders for the most similar one. */
  method FindNearest(sim: Similarity, v: Vec, clusters: seq<Cluster>) returns (best: Best)
    ensures best == NearestOfFirst(sim, v, clusters, |clusters|)
  {
    best := Best(-1, -1.0);
    for c := 0 to |clusters|
      invariant best == NearestOfFirst(sim, v, clusters, c)
    {
      var s := sim(v, clusters[c].founder.vec);
      if s > best.sim {
        best := Best(c, s);
      }
    }
  }

  method ClusterAtoms(sim: Similarity, threshold: real, atoms: seq<AtomVec>) returns (clusters: seq<Cluster>)
    ensures clusters == Clusters(sim, threshold, atoms)
  {
    clusters := [];
    for i := 0 to |atoms|
      invariant clusters == Clusters(sim, threshold, atoms[..i])
    {
      var atom := atoms[i];
      var best := FindNearest(sim, atom.vec, clusters);
      assert atoms[..i + 1][..i] == atoms[..i];
      if best.index >= 0 && best.sim >= threshold {
        var joined := clusters[best.index];
        clusters := clusters[best.index := joined.(members := joined.members + [atom])];
      } else {
        clusters := clusters + [Cluster(atom, [atom])];
      }
    }
    assert atoms[..|atoms|] == atoms;
  }

  // ----- What a leader clustering is, without reference to how it is computed

  ghost predicate DistinctIds(atoms: seq<AtomVec>) {
    forall i, j :: 0 <= i < j < |atoms| ==> atoms[i].id != atoms[j].id
  }

  ghost predicate Holds(cs: seq<Cluster>, c: int, a: AtomVec) {
    0 <= c < |cs| && a in cs[c].members
  }

  ghost predicate Led(cs: seq<Cluster>) {
    forall c :: 0 <= c < |cs| ==> cs[c].members != [] && cs[c].members[0] == cs[c].founder
  }

  ghost predicate Disjoint(cs: seq<Cluster>) {
    forall c, d, a :: Holds(cs, c, a) && Holds(cs, d, a) ==> c == d
  }

  ghost predicate Covers(cs: seq<Cluster>, atoms: seq<AtomVec>) {
    && (forall a :: a in atoms ==> exists c :: Holds(cs, c, a))
    && (forall c, a :: Holds(cs, c, a) ==> a in atoms)
  }

  ghost predicate OnceEach(cs: seq<Cluster>) {
    forall c :: 0 <= c < |cs| ==> Distinct(cs[c].members)
  }

  /** Clusters are non-empty and led by their founder; each atom is in exactly one cluster, once. */
  ghost predicate Partitions(cs: seq<Cluster>, atoms: seq<AtomVec>) {
    Led(cs) && Disjoint(cs) && Covers(cs, atoms) && OnceEach(cs)
  }

  /** Every later founder was below the threshold to every earlier founder. */
  ghost predicate FoundersApart(sim: Similarity, threshold: real, cs: seq<Cluster>) {
    forall c, d :: 0 <= c < d < |cs| ==> sim(cs[d].founder.vec, cs[c].founder.vec) < threshold
  }

  /** `a` is close enough to the founder of its cluster `c`, and none of the first
      `present` founders was more similar; the earliest founder wins a tie. */
  ghost predicate NearestOf(sim: Similarity, threshold: real, cs: seq<Cluster>, a: AtomVec, c: int, present: int)
    requires 0 <= c < |cs| && present <= |cs|
  {
    var s := sim(a.vec, cs[c].founder.vec);
    && c < present
    && s >= threshold
    && (forall d :: 0 <= d < c ==> sim(a.vec, cs[d].founder.vec) < s)
    && (forall d :: c < d < present ==> sim(a.vec, cs[d].founder.vec) <= s)
  }

  /** The founders among the first `n` atoms are exactly the first `present` clusters'. */
  ghost predicate FoundedBy(cs: seq<Cluster>, atoms: seq<AtomVec>, n: int, present: int)
    requires 0 <= n <= |atoms|
  {
    && 0 <= present <= |cs|
    && (forall c :: 0 <= c < |cs| ==> (c < present <==> cs[c].founder in atoms[..n]))
  }

  /** The j-th atom is a founder, or follows the nearest founder present when it was placed. */
  ghost predicate WellPlaced(sim: Similarity, threshold: real, cs: seq<Cluster>, atoms: seq<AtomVec>, j: int)
    requires 0 <= j < |atoms|
  {
    exists c, present :: Holds(cs, c, atoms[j]) && FoundedBy(cs, atoms, j, present)
      && (cs[c].founder == atoms[j] || NearestOf(sim, threshold, cs, atoms[j], c, present))
  }

  // ----- The algorithm meets that description

  ghost predicate Joined(before: seq<Cluster>, a: AtomVec, after: seq<Cluster>, at: int) {
    && 0 <= at < |after|
    && (if at < |before| then |after| == |before| else at == |before| && |after| == |before| + 1 && after[at] == Cluster(a, [a]))
    && (forall c :: 0 <= c < |before| ==>
          && after[c].founder == before[c].founder
          && after[c].members == if c == at then before[c].members + [a] else before[c].members)
  }

  /** The cluster an atom is placed in. */
  function Slot(sim: Similarity, threshold: real, a: AtomVec, cs: seq<Cluster>): int {
    var best := NearestOfFirst(sim, a.vec, cs, |cs|);
    if best.index >= 0 && best.sim >= threshold then best.index else |cs|
  }

  lemma PlaceJoins(sim: Similarity, threshold: real, a: AtomVec, cs: seq<Cluster>)
    ensures Joined(cs, a, Place(sim, threshold, a, cs), Slot(sim, threshold, a, cs))
  {
  }

  lemma JoinedHolds(before: seq<Cluster>, a: AtomVec, after: seq<Cluster>, at: int)
    requires Joined(before, a, after, at)
    ensures forall c, x :: Holds(after, c, x) <==> Holds(before, c, x) || (c == at && x == a)
  {
  }

  lemma JoinedPartitions(before: seq<Cluster>, atoms: seq<AtomVec>, a: AtomVec, after: seq<Cluster>, at: int)
    requires Partitions(before, atoms) && a !in atoms
    requires Joined(before, a, after, at)
    ensures Partitions(after, atoms + [a])
  {
    JoinedHolds(before, a, after, at);
    assert Holds(after, at, a);
    assert Disjoint(after);
    assert Covers(after, atoms + [a]) by {
      forall x | x in atoms + [a] ensures exists c :: Holds(after, c, x) {
        if x in atoms {
          var c :| Holds(before, c, x);
          assert Holds(after, c, x);
        }
      }
    }
    forall c | 0 <= c < |after| ensures Distinct(after[c].members) {
      if c < |before| { assert a in before[c].members ==> Holds(before, c, a); }
    }
  }

  lemma {:induction false} ClustersPartition(sim: Similarity, threshold: real, atoms: seq<AtomVec>)
    requires DistinctIds(atoms)
    ensures Partitions(Clusters(sim, threshold, atoms), atoms)
  {
    if atoms != [] {
      var n := |atoms| - 1;
      var before := Clusters(sim, threshold, atoms[..n]);
      ClustersPartition(sim, threshold, atoms[..n]);
      assert atoms == atoms[..n] + [atoms[n]];
      PlaceJoins(sim, threshold, atoms[n], before);
      JoinedPartitions(before, atoms[..n], atoms[n], Clusters(sim, threshold, atoms), Slot(sim, threshold, atoms[n], before));
    }
  }

  lemma {:induction false} ClustersFoundersApart(sim: Similarity, threshold: real, atoms: seq<AtomVec>)
    requires threshold > -1.0
    ensures FoundersApart(sim, threshold, Clusters(sim, threshold, atoms))
  {
    if atoms != [] {
      ClustersFoundersApart(sim, threshold, atoms[..|atoms| - 1]);
    }
  }

  lemma WellPlacedBy(sim: Similarity, threshold: real, cs: seq<Cluster>, atoms: seq<AtomVec>, j: int, c: int,
                     present: int)
    requires 0 <= j < |atoms| && Holds(cs, c, atoms[j]) && FoundedBy(cs, atoms, j, present)
    requires cs[c].founder == atoms[j] || NearestOf(sim, threshold, cs, atoms[j], c, present)
    ensures WellPlaced(sim, threshold, cs, atoms, j)
  {
  }

  lemma JoinedFoundedBy(before: seq<Cluster>, atoms: seq<AtomVec>, a: AtomVec, after: seq<Cluster>, at: int, j: int,
                        present: int)
    requires Joined(before, a, after, at) && a !in atoms
    requires 0 <= j <= |atoms| && FoundedBy(before, atoms, j, present)
    ensures FoundedBy(after, atoms + [a], j, present)
  {
    assert (atoms + [a])[..j] == atoms[..j];
    assert a !in atoms[..j];
  }

  lemma JoinedNearest(sim: Similarity, threshold: real, before: seq<Cluster>, a: AtomVec, after: seq<Cluster>, at: int,
                      x: AtomVec, c: int, present: int)
    requires Joined(before, a, after, at)
    requires 0 <= c < |before| && present <= |before| && NearestOf(sim, threshold, before, x, c, present)
    ensures NearestOf(sim, threshold, after, x, c, present)
  {
  }

  lemma WellPlacedStable(sim: Similarity, threshold: real, before: seq<Cluster>, atoms: seq<AtomVec>,
                         a: AtomVec, after: seq<Cluster>, at: int, j: int)
    requires Partitions(before, atoms) && a !in atoms
    requires Joined(before, a, after, at)
    requires 0 <= j < |atoms| && WellPlaced(sim, threshold, before, atoms, j)
    ensures WellPlaced(sim, threshold, after, atoms + [a], j)
  {
    var c, present :| Holds(before, c, atoms[j]) && FoundedBy(before, atoms, j, present)
      && (before[c].founder == atoms[j] || NearestOf(sim, threshold, before, atoms[j], c, present));
    assert Holds(after, c, atoms[j]);
    JoinedFoundedBy(before, atoms, a, after, at, j, present);
    if before[c].founder != atoms[j] {
      JoinedNearest(sim, threshold, before, a, after, at, atoms[j], c, present);
    }
    WellPlacedBy(sim, threshold, after, atoms + [a], j, c, present);
  }

  lemma LeadersAreAtoms(cs: seq<Cluster>, atoms: seq<AtomVec>)
    requires Partitions(cs, atoms)
    ensures forall c :: 0 <= c < |cs| ==> cs[c].founder in atoms
  {
    forall c | 0 <= c < |cs| ensures cs[c].founder in atoms {
      assert Holds(cs, c, cs[c].members[0]);
    }
  }

  lemma SlotIsNearest(sim: Similarity, threshold: real, a: AtomVec, cs: seq<Cluster>)
    ensures Slot(sim, threshold, a, cs) < |cs| ==>
              NearestOf(sim, threshold, cs, a, Slot(sim, threshold, a, cs), |cs|)
  {
  }

  lemma NewlyPlaced(sim: Similarity, threshold: real, before: seq<Cluster>, atoms: seq<AtomVec>,
                    a: AtomVec, after: seq<Cluster>, at: int)
    requires Partitions(before, atoms) && a !in atoms
    requires Joined(before, a, after, at)
    requires at < |before| ==> NearestOf(sim, threshold, before, a, at, |before|)
    ensures WellPlaced(sim, threshold, after, atoms + [a], |atoms|)
  {
    LeadersAreAtoms(before, atoms);
    assert FoundedBy(before, atoms, |atoms|, |before|) by {
      assert atoms[..|atoms|] == atoms;
    }
    JoinedFoundedBy(before, atoms, a, after, at, |atoms|, |before|);
    if at < |before| {
      JoinedNearest(sim, threshold, before, a, after, at, a, at, |before|);
    }
    assert Holds(after, at, a);
    assert (atoms + [a])[|atoms|] == a;
    WellPlacedBy(sim, threshold, after, atoms + [a], |atoms|, at, |before|);
  }

  ghost predicate AllWellPlaced(sim: Similarity, threshold: real, cs: seq<Cluster>, atoms: seq<AtomVec>) {
    forall j :: 0 <= j < |atoms| ==> WellPlaced(sim, threshold, cs, atoms, j)
  }

  lemma JoinedWellPlaced(sim: Similarity, threshold: real, before: seq<Cluster>, atoms: seq<AtomVec>,
                         a: AtomVec, after: seq<Cluster>, at: int)
    requires Partitions(before, atoms) && a !in atoms
    requires Joined(before, a, after, at)
    requires at < |before| ==> NearestOf(sim, threshold, before, a, at, |before|)
    requires AllWellPlaced(sim, threshold, before, atoms)
    ensures AllWellPlaced(sim, threshold, after, atoms + [a])
  {
    forall j | 0 <= j < |atoms + [a]| ensures WellPlaced(sim, threshold, after, atoms + [a], j) {
      if j < |atoms| {
        WellPlacedStable(sim, threshold, before, atoms, a, after, at, j);
      } else {
        NewlyPlaced(sim, threshold, before, atoms, a, after, at);
      }
    }
  }

  /** Every atom founds a cluster or sits with the nearest founder present at its placement. */
  lemma {:induction false} ClustersWellPlaced(sim: Similarity, threshold: real, atoms: seq<AtomVec>)
    requires DistinctIds(atoms)
    ensures AllWellPlaced(sim, threshold, Clusters(sim, threshold, atoms), atoms)
  {
    if atoms != [] {
      var n := |atoms| - 1;
      var before := Clusters(sim, threshold, atoms[..n]);
      ClustersPartition(sim, threshold, atoms[..n]);
      ClustersWellPlaced(sim, threshold, atoms[..n]);
      assert atoms == atoms[..n] + [atoms[n]];
      PlaceJoins(sim, threshold, atoms[n], before);
      SlotIsNearest(sim, threshold, atoms[n], before);
      JoinedWellPlaced(sim, threshold, before, atoms[..n], atoms[n], Clusters(sim, threshold, atoms),
                       Slot(sim, threshold, atoms[n], before));
    }
  }

  // ----- On id-sorted input the clusters depend only on which atoms there are

  ghost predicate InIdOrder(atoms: seq<AtomVec>) {
    forall i, j :: 0 <= i < j < |atoms| ==> Before(atoms[i].id, atoms[j].id)
  }

  lemma {:induction false} SameAtomsSameOrder(s: seq<AtomVec>, t: seq<AtomVec>)
    requires InIdOrder(s) && InIdOrder(t) && forall a :: a in s <==> a in t
    ensures s == t
  {
    var x, y := seq(|s|, i requires 0 <= i < |s| => s[i].id), seq(|t|, i requires 0 <= i < |t| => t[i].id);
    forall id ensures id in x <==> id in y {
      if id in x {
        var i :| 0 <= i < |x| && x[i] == id;
        assert s[i] in t;
        var j :| 0 <= j < |t| && t[j] == s[i];
        assert y[j] == id;
      }
      if id in y {
        var i :| 0 <= i < |y| && y[i] == id;
        assert t[i] in s;
        var j :| 0 <= j < |s| && s[j] == t[i];
        assert x[j] == id;
      }
    }
    SortedListingUnique(x, y);
    SortedIsDistinct(y);
    forall i | 0 <= i < |s| ensures s[i] == t[i] {
      assert s[i] in t;
      var j :| 0 <= j < |t| && t[j] == s[i];
      assert y[j] == x[i] == y[i];
    }
  }

  lemma ClustersIgnoreRowOrder(sim: Similarity, threshold: real, s: seq<AtomVec>, t: seq<AtomVec>)
    requires InIdOrder(s) && InIdOrder(t)
    requires forall a :: a in s <==> a in t
    ensures Clusters(sim, threshold, s) == Clusters(sim, threshold, t)
  {
    SameAtomsSameOrder(s, t);
  }
}
