/**
 Where a derived cluster goes, and how clusters are derived, over sets of ids and the stored
 vectors alone.
 */
module Placement {
  import opened Tables
  import opened TextOrder
  import opened Clustering
  import opened Topics
  import opened TopicFixedPoint
  import opened Scenes
  import opened SceneFrames
  import opened Jaccard

  // ----- The topic a cluster takes

  /** Shared ids over all ids. */
  ghost function Ratio(a: set<string>, b: set<string>): real {
    if a + b == {} then 0.0 else |a * b| as real / |a + b| as real
  }

  lemma ScoreIsRatio(a: seq<string>, b: seq<string>)
    requires Distinct(a)
    ensures Score(a, b) == Ratio(Elements(a), Elements(b))
  {
    OverlapCountsIntersection(a, b);
    assert UnionSize(a, b) == |Elements(a) + Elements(b)|;
  }

  /** How much the cluster shares with each topic. */
  ghost function Ratios(members: seq<string>, existing: seq<Row>): (s: seq<real>)
    ensures |s| == |existing|
  {
    if existing == [] then []
    else
      var n := |existing| - 1;
      Ratios(members, existing[..n]) + [Ratio(Elements(members), Elements(existing[n].scene.atomIds))]
  }

  ghost predicate Scored(shares: seq<real>, members: seq<string>, existing: seq<Row>) {
    |shares| == |existing| && forall k :: 0 <= k < |existing| ==> shares[k] == Score(members, existing[k].scene.atomIds)
  }

  lemma {:induction false} RatiosScored(members: seq<string>, existing: seq<Row>)
    requires Distinct(members)
    ensures Scored(Ratios(members, existing), members, existing)
  {
    if existing != [] {
      var n := |existing| - 1;
      RatiosScored(members, existing[..n]);
      ScoreIsRatio(members, existing[n].scene.atomIds);
      ScoredGrows(Ratios(members, existing[..n]), members, existing, Ratio(Elements(members), Elements(existing[n].scene.atomIds)));
    }
  }

  lemma ScoredGrows(shares: seq<real>, members: seq<string>, existing: seq<Row>, score: real)
    requires existing != [] && Scored(shares, members, existing[..|existing| - 1])
    requires score == Score(members, existing[|existing| - 1].scene.atomIds)
    ensures Scored(shares + [score], members, existing)
  {
  }

  ghost predicate Free(existing: seq<Row>, matched: set<string>, r: int) {
    0 <= r < |existing| && existing[r].id !in matched
  }

  /** The earliest of the free topics with the greatest positive share, if that is enough. */
  ghost predicate Best(shares: seq<real>, existing: seq<Row>, matched: set<string>, enough: real, j: int) {
    && |shares| == |existing| && Free(existing, matched, j)
    && shares[j] > 0.0 && shares[j] >= enough
    && (forall r :: Free(existing, matched, r) ==> if r < j then shares[r] < shares[j] else shares[r] <= shares[j])
  }

  ghost predicate NoneIsBest(shares: seq<real>, existing: seq<Row>, matched: set<string>, enough: real) {
    forall r :: 0 <= r < |existing| ==> !Best(shares, existing, matched, enough, r)
  }

  ghost predicate BestOfFirst(shares: seq<real>, existing: seq<Row>, matched: set<string>, k: nat, m: Match) {
    && |shares| == |existing| && k <= |existing| && -1 <= m.index < k
    && (forall r :: Free(existing, matched, r) && r < k ==> if r < m.index then shares[r] < m.score else shares[r] <= m.score)
    && if m.index == -1 then m.score == 0.0
       else Free(existing, matched, m.index) && m.score == shares[m.index] > 0.0
  }

  lemma OneMore(shares: seq<real>, existing: seq<Row>, matched: set<string>, k: nat, m: Match)
    requires BestOfFirst(shares, existing, matched, k, m) && k < |existing|
    ensures BestOfFirst(shares, existing, matched, k + 1,
                        if Free(existing, matched, k) && shares[k] > m.score then Match(k, shares[k]) else m)
  {
  }

  lemma {:induction false} BestMatchExactly(members: seq<string>, existing: seq<Row>, matched: set<string>, k: nat, shares: seq<real>)
    returns (best: Match)
    requires k <= |existing| && Scored(shares, members, existing)
    ensures best == BestMatch(members, existing, matched, k) && BestOfFirst(shares, existing, matched, k, best)
  {
    if k == 0 { return Match(-1, 0.0); }
    var prev := BestMatchExactly(members, existing, matched, k - 1, shares);
    best := MatchGrows(members, existing, matched, k, shares, prev);
  }

  lemma MatchGrows(members: seq<string>, existing: seq<Row>, matched: set<string>, k: nat, shares: seq<real>, prev: Match)
    returns (next: Match)
    requires 0 < k <= |existing| && prev == BestMatch(members, existing, matched, k - 1)
    requires BestOfFirst(shares, existing, matched, k - 1, prev) && Scored(shares, members, existing)
    ensures next == BestMatch(members, existing, matched, k) && BestOfFirst(shares, existing, matched, k, next)
  {
    next := NextMatch(existing, matched, k, shares[k - 1], prev);
    ScoredAt(shares, members, existing, k);
    NextMatchIs(members, existing, matched, k, shares[k - 1], prev);
    OneMore(shares, existing, matched, k - 1, prev);
  }

  ghost function NextMatch(existing: seq<Row>, matched: set<string>, k: nat, score: real, prev: Match): Match
    requires k > 0
  {
    if Free(existing, matched, k - 1) && score > prev.score then Match(k - 1, score) else prev
  }

  lemma ScoredAt(shares: seq<real>, members: seq<string>, existing: seq<Row>, k: nat)
    requires 0 < k <= |existing| && Scored(shares, members, existing)
    ensures shares[k - 1] == Score(members, existing[k - 1].scene.atomIds)
  {
  }

  lemma NextMatchIs(members: seq<string>, existing: seq<Row>, matched: set<string>, k: nat, score: real, prev: Match)
    requires 0 < k <= |existing| && prev == BestMatch(members, existing, matched, k - 1)
    requires score == Score(members, existing[k - 1].scene.atomIds)
    ensures BestMatch(members, existing, matched, k) == NextMatch(existing, matched, k, score, prev)
  {
  }

  lemma BestOnly(shares: seq<real>, existing: seq<Row>, matched: set<string>, enough: real, m: Match, j: int)
    requires BestOfFirst(shares, existing, matched, |existing|, m)
    ensures Best(shares, existing, matched, enough, j) <==> j == m.index && j >= 0 && m.score >= enough
  {
  }

  /** The chosen topic is that one, and none is chosen exactly when there is no such topic. */
  lemma ChosenExactly(members: seq<string>, existing: seq<Row>, matched: set<string>, enough: real, j: int)
    requires Distinct(members)
    ensures var shares := Ratios(members, existing);
            Chosen(members, existing, matched, enough) == j
            <==> Best(shares, existing, matched, enough, j) || (j == -1 && NoneIsBest(shares, existing, matched, enough))
  {
    var shares := Ratios(members, existing);
    RatiosScored(members, existing);
    var best := BestMatchExactly(members, existing, matched, |existing|, shares);
    ChosenIs(members, existing, matched, enough, best);
    ChosenBest(shares, existing, matched, enough, best, Chosen(members, existing, matched, enough), j);
  }

  lemma ChosenBest(shares: seq<real>, existing: seq<Row>, matched: set<string>, enough: real, best: Match, c: int, j: int)
    requires BestOfFirst(shares, existing, matched, |existing|, best)
    requires c == if best.index >= 0 && best.score >= enough then best.index else -1
    ensures c == j <==> Best(shares, existing, matched, enough, j) || (j == -1 && NoneIsBest(shares, existing, matched, enough))
  {
    forall r ensures Best(shares, existing, matched, enough, r) <==> r == best.index && r >= 0 && best.score >= enough {
      BestOnly(shares, existing, matched, enough, best, r);
    }
    BestOnly(shares, existing, matched, enough, best, best.index);
  }

  lemma ChosenIs(members: seq<string>, existing: seq<Row>, matched: set<string>, enough: real, best: Match)
    requires best == BestMatch(members, existing, matched, |existing|)
    ensures Chosen(members, existing, matched, enough) == if best.index >= 0 && best.score >= enough then best.index else -1
  {
  }

  // ----- What becomes of it

  lemma {:induction false} MissingCountsDifference(a: seq<string>, b: seq<string>)
    requires Distinct(a)
    ensures Missing(a, b) == |Elements(a) - Elements(b)|
  {
    OverlapCountsIntersection(a, b);
    DistinctCount(a);
    assert Elements(a) - Elements(b) == Elements(a) - Elements(a) * Elements(b);
  }

  ghost predicate AtLeast(n: nat, share: real, whole: nat) { n as real >= share * whole as real }

  ghost function Exchanged(a: set<string>, b: set<string>): nat { |a - b| + |b - a| }

  /** The ids that came or went are at least this share of the ids the topic had. */
  ghost predicate Churned(members: seq<string>, prior: seq<string>, share: real) {
    AtLeast(Exchanged(Elements(members), Elements(prior)), share, |Elements(prior)|)
  }

  lemma ChurnCounts(members: seq<string>, prior: seq<string>)
    requires Distinct(members) && Distinct(prior)
    ensures Churn(members, prior) == Exchanged(Elements(members), Elements(prior))
    ensures |prior| == |Elements(prior)|
  {
    MissingCountsDifference(members, prior);
    MissingCountsDifference(prior, members);
    DistinctCount(prior);
  }

  lemma OverAtLeast(n: nat, whole: nat, share: real)
    requires whole > 0
    ensures Over(n, whole) >= share <==> AtLeast(n, share, whole)
  {
    Quotient(n as real, whole as real, share);
  }

  lemma FractionAtLeast(members: seq<string>, prior: seq<string>, share: real, n: nat, whole: nat)
    requires whole > 0 && n == Churn(members, prior) && whole == |prior|
    ensures ChurnFraction(members, prior) >= share <==> AtLeast(n, share, whole)
  {
    OverAtLeast(n, whole, share);
  }

  lemma ChurnExactly(members: seq<string>, prior: seq<string>, share: real)
    requires Distinct(members) && Distinct(prior) && prior != []
    ensures ChurnFraction(members, prior) >= share <==> Churned(members, prior, share)
  {
    ChurnCounts(members, prior);
    FractionAtLeast(members, prior, share, Exchanged(Elements(members), Elements(prior)), |Elements(prior)|);
  }

  /** A cluster that takes a topic continues it, unless too many of its ids came or went: then it
      replaces the topic. Without one it starts a topic of its own. */
  lemma PlacementExactly(env: Env, oracle: Oracle, opts: Options, existing: seq<Row>, p: Progress, members: seq<string>, j: int)
    requires Distinct(members) && forall r <- existing :: Distinct(r.scene.atomIds)
    ensures var shares := Ratios(members, existing);
            && (Best(shares, existing, p.matched, opts.matchThreshold, j) ==>
                 PlaceCluster(env, oracle, opts, existing, p, members)
                 == if Churned(members, existing[j].scene.atomIds, opts.reorgThreshold) then Reorganise(env, oracle, p, existing[j], members)
                    else Continue(env, oracle, p, existing[j], members))
            && (NoneIsBest(shares, existing, p.matched, opts.matchThreshold) ==>
                 PlaceCluster(env, oracle, opts, existing, p, members) == Create(env, oracle, p, members, Omitted))
  {
    var shares, m := Ratios(members, existing), opts.matchThreshold;
    ChosenExactly(members, existing, p.matched, m, j);
    ChosenExactly(members, existing, p.matched, m, -1);
    if Best(shares, existing, p.matched, m, j) {
      RatiosScored(members, existing);
      SharesSome(shares, members, existing, j);
      assert existing[j] in existing;
      ChurnExactly(members, existing[j].scene.atomIds, opts.reorgThreshold);
    }
  }

  lemma SharesSome(shares: seq<real>, members: seq<string>, existing: seq<Row>, j: nat)
    requires j < |existing| && Scored(shares, members, existing) && shares[j] > 0.0
    ensures existing[j].scene.atomIds != []
  {
    if existing[j].scene.atomIds == [] { ScoreOfDisjoint(members, []); }
  }

  /** A new topic has a fresh random id and a provisional title, holds its cluster, and has no words
      of the model's yet; without a parent it names none. */
  lemma CreatedExactly(env: Env, oracle: Oracle, p: Progress, members: seq<string>, parent: Field<Option<seq<string>>>, d: Db)
    requires CollisionFree(env) && WellFormed(env, p.db)
    requires Create(env, oracle, p, members, parent).ok && d == Create(env, oracle, p, members, parent).db
    ensures var id := (env.uuid)(p.db.minted);
            && id !in p.db.scenes && id in d.scenes
            && d.scenes[id] == Scene(Topic, (env.provisionalTitle)(p.db.minted), members, None, None, d.scenes[id].renderHash, Live,
                                     if parent.Given? then parent.value else None, None)
  {
    UpsertStores(env, oracle, Mint(p.db), (env.uuid)(p.db.minted), NewTopic(env, p.db, members).(derivedFrom := parent));
  }

  // ----- How clusters are derived

  /** Similarity of two stored atoms. */
  ghost function Near(opts: Options, mem: Memory, a: string, b: string): real
    requires a in mem.atomVecs && b in mem.atomVecs
  {
    (opts.sim)(mem.atomVecs[a], mem.atomVecs[b])
  }

  /** A member other than the founder is at least as close to it as the threshold asks, and closer
      than to any founder before it. */
  ghost predicate InPlace(opts: Options, mem: Memory, clusters: seq<seq<string>>, i: int, x: string) {
    && 0 <= i < |clusters| && x in mem.atomVecs
    && (forall d :: 0 <= d <= i ==> clusters[d] != [] && clusters[d][0] in mem.atomVecs)
    && (x == clusters[i][0]
        || (Near(opts, mem, x, clusters[i][0]) >= opts.topicThreshold
            && forall d :: 0 <= d < i ==> Closer(opts, mem, clusters, x, i, d)))
  }

  ghost predicate Closer(opts: Options, mem: Memory, clusters: seq<seq<string>>, x: string, i: int, d: int) {
    && 0 <= d < |clusters| && 0 <= i < |clusters| && clusters[d] != [] && clusters[i] != []
    && x in mem.atomVecs && clusters[d][0] in mem.atomVecs && clusters[i][0] in mem.atomVecs
    && Near(opts, mem, x, clusters[d][0]) < Near(opts, mem, x, clusters[i][0])
  }

  ghost predicate Apart(opts: Options, mem: Memory, clusters: seq<seq<string>>, c: int, d: int) {
    0 <= c < d < |clusters| && clusters[c] != [] && clusters[d] != []
    && clusters[c][0] in mem.atomVecs && clusters[d][0] in mem.atomVecs
    && Near(opts, mem, clusters[d][0], clusters[c][0]) < opts.topicThreshold
  }

  lemma FounderOf(opts: Options, mem: Memory, atoms: seq<AtomVec>, cs: seq<Cluster>, c: nat)
    requires Distinct(mem.atomRows) && atoms == AtomVecs(mem, SortedActive(mem)) && cs == Clusters(opts.sim, opts.topicThreshold, atoms)
    requires c < |cs|
    ensures DistinctIds(atoms) && Partitions(cs, atoms)
    ensures var f := cs[c].founder;
            MemberIds(cs[c]) != [] && MemberIds(cs[c])[0] == f.id && f in atoms && f.id in mem.atomVecs && f.vec == mem.atomVecs[f.id]
  {
    ActiveIdsDistinct(mem, mem.atomRows);
    SortIdsSorts(ActiveIds(mem, mem.atomRows));
    SortedIsDistinct(SortedActive(mem));
    AtomVecsAre(mem, SortedActive(mem));
    ClustersPartition(opts.sim, opts.topicThreshold, atoms);
    LeadersAreAtoms(cs, atoms);
  }

  ghost predicate Founded(mem: Memory, cs: seq<Cluster>, d: int) {
    && 0 <= d < |cs| && MemberIds(cs[d]) != [] && MemberIds(cs[d])[0] == cs[d].founder.id
    && cs[d].founder.id in mem.atomVecs && cs[d].founder.vec == mem.atomVecs[cs[d].founder.id]
  }

  lemma NearestInPlace(opts: Options, mem: Memory, cs: seq<Cluster>, i: nat, a: AtomVec, present: int)
    requires i < |cs| && (forall d :: 0 <= d <= i ==> Founded(mem, cs, d))
    requires a.id in mem.atomVecs && a.vec == mem.atomVecs[a.id]
    requires cs[i].founder == a || (present <= |cs| && NearestOf(opts.sim, opts.topicThreshold, cs, a, i, present))
    ensures InPlace(opts, mem, MemberLists(cs), i, a.id)
  {
    forall d | 0 <= d <= i ensures MemberLists(cs)[d] != [] && MemberLists(cs)[d][0] in mem.atomVecs
                                   && mem.atomVecs[MemberLists(cs)[d][0]] == cs[d].founder.vec {
      assert Founded(mem, cs, d);
    }
    assert Founded(mem, cs, i);
    if cs[i].founder != a {
      var lists := MemberLists(cs);
      assert Near(opts, mem, a.id, lists[i][0]) == (opts.sim)(a.vec, cs[i].founder.vec);
      assert Near(opts, mem, a.id, lists[i][0]) >= opts.topicThreshold;
      forall d | 0 <= d < i ensures Closer(opts, mem, lists, a.id, i, d) {
        assert Founded(mem, cs, d);
        assert (opts.sim)(a.vec, cs[d].founder.vec) < (opts.sim)(a.vec, cs[i].founder.vec);
      }
    }
  }

  lemma MemberPlaced(opts: Options, mem: Memory, atoms: seq<AtomVec>, cs: seq<Cluster>, i: nat, a: AtomVec) returns (present: int)
    requires DistinctIds(atoms) && cs == Clusters(opts.sim, opts.topicThreshold, atoms) && a in atoms && i < |cs| && Holds(cs, i, a)
    ensures cs[i].founder == a || (present <= |cs| && NearestOf(opts.sim, opts.topicThreshold, cs, a, i, present))
  {
    ClustersPartition(opts.sim, opts.topicThreshold, atoms);
    ClustersWellPlaced(opts.sim, opts.topicThreshold, atoms);
    var j :| 0 <= j < |atoms| && atoms[j] == a;
    assert WellPlaced(opts.sim, opts.topicThreshold, cs, atoms, j);
    var c, n :| Holds(cs, c, a) && FoundedBy(cs, atoms, j, n)
      && (cs[c].founder == a || NearestOf(opts.sim, opts.topicThreshold, cs, a, c, n));
    present := n;
    assert c == i;
  }

  lemma MemberInPlace(opts: Options, mem: Memory, atoms: seq<AtomVec>, cs: seq<Cluster>, i: nat, x: string)
    requires Distinct(mem.atomRows) && atoms == AtomVecs(mem, SortedActive(mem)) && cs == Clusters(opts.sim, opts.topicThreshold, atoms)
    requires i < |cs| && x in MemberIds(cs[i])
    ensures InPlace(opts, mem, MemberLists(cs), i, x)
  {
    forall d | 0 <= d <= i ensures Founded(mem, cs, d) {
      FounderOf(opts, mem, atoms, cs, d);
    }
    FounderOf(opts, mem, atoms, cs, i);
    var a := MembersAreAtoms(cs, atoms, i, x);
    SortedDistinct(mem);
    AtomVecsAre(mem, SortedActive(mem));
    var present := MemberPlaced(opts, mem, atoms, cs, i, a);
    NearestInPlace(opts, mem, cs, i, a, present);
  }

  lemma SortedDistinct(mem: Memory)
    requires Distinct(mem.atomRows)
    ensures Distinct(SortedActive(mem))
  {
    ActiveIdsDistinct(mem, mem.atomRows);
    SortIdsSorts(ActiveIds(mem, mem.atomRows));
    SortedIsDistinct(SortedActive(mem));
  }

  /** So it is for the clusters of the memory, whose founders are apart for any threshold above -1. */
  lemma DerivedExactly(opts: Options, mem: Memory)
    requires Distinct(mem.atomRows)
    ensures var clusters := DerivedClusters(opts, mem);
            && (forall i, x :: 0 <= i < |clusters| && x in clusters[i] ==> InPlace(opts, mem, clusters, i, x))
            && (opts.topicThreshold > -1.0 ==> forall c, d :: 0 <= c < d < |clusters| ==> Apart(opts, mem, clusters, c, d))
  {
    var atoms := AtomVecs(mem, SortedActive(mem));
    var cs := Clusters(opts.sim, opts.topicThreshold, atoms);
    forall i, x | 0 <= i < |cs| && x in MemberIds(cs[i]) ensures InPlace(opts, mem, MemberLists(cs), i, x) {
      MemberInPlace(opts, mem, atoms, cs, i, x);
    }
    if opts.topicThreshold > -1.0 {
      ClustersFoundersApart(opts.sim, opts.topicThreshold, atoms);
      forall c, d | 0 <= c < d < |cs| ensures Apart(opts, mem, MemberLists(cs), c, d) {
        FounderOf(opts, mem, atoms, cs, c);
        FounderOf(opts, mem, atoms, cs, d);
      }
    }
  }

  // ----- In which order

  /** Members, and founders of later clusters, come later in id order. */
  ghost predicate Ascending(cs: seq<Cluster>) {
    && (forall c, i, j :: 0 <= c < |cs| && 0 <= i < j < |cs[c].members| ==> Before(cs[c].members[i].id, cs[c].members[j].id))
    && forall c, d :: 0 <= c < d < |cs| ==> Before(cs[c].founder.id, cs[d].founder.id)
  }

  ghost predicate AllBefore(cs: seq<Cluster>, a: AtomVec) {
    forall c, i :: 0 <= c < |cs| && 0 <= i < |cs[c].members| ==> Before(cs[c].members[i].id, a.id)
  }

  lemma JoinedAscends(before: seq<Cluster>, a: AtomVec, after: seq<Cluster>, at: int)
    requires Joined(before, a, after, at) && Ascending(before) && AllBefore(before, a) && Led(before)
    ensures Ascending(after)
  {
    forall c | 0 <= c < |before| ensures Before(before[c].founder.id, a.id) {
      assert before[c].members[0] == before[c].founder;
    }
  }

  lemma {:induction false} ClustersAscend(sim: Similarity, threshold: real, atoms: seq<AtomVec>)
    requires InIdOrder(atoms) && DistinctIds(atoms)
    ensures Ascending(Clusters(sim, threshold, atoms))
  {
    if atoms != [] {
      var n := |atoms| - 1;
      var before := Clusters(sim, threshold, atoms[..n]);
      ClustersAscend(sim, threshold, atoms[..n]);
      ClustersPartition(sim, threshold, atoms[..n]);
      forall c, i | 0 <= c < |before| && 0 <= i < |before[c].members| ensures Before(before[c].members[i].id, atoms[n].id) {
        assert Holds(before, c, before[c].members[i]);
        var k :| 0 <= k < n && atoms[..n][k] == before[c].members[i];
      }
      PlaceJoins(sim, threshold, atoms[n], before);
      JoinedAscends(before, atoms[n], Clusters(sim, threshold, atoms), Slot(sim, threshold, atoms[n], before));
    }
  }

  lemma {:induction false} VecsInOrder(mem: Memory, ids: seq<string>)
    requires Sorted(ids)
    ensures InIdOrder(AtomVecs(mem, ids))
  {
    if ids != [] {
      VecsInOrder(mem, ids[1..]);
      SortedIsDistinct(ids[1..]);
      AtomVecsAre(mem, ids[1..]);
      var rest := AtomVecs(mem, ids[1..]);
      forall i | 0 <= i < |rest| ensures Before(ids[0], rest[i].id) { assert rest[i] in rest; }
    }
  }

  /** Clusters list their members in id order, and come in the order of their founders. */
  lemma DerivedAscend(opts: Options, mem: Memory)
    requires Distinct(mem.atomRows)
    ensures var clusters := DerivedClusters(opts, mem);
            && (forall c :: 0 <= c < |clusters| ==> Sorted(clusters[c]))
            && forall c, d :: 0 <= c < d < |clusters| ==> clusters[c] != [] && clusters[d] != [] && Before(clusters[c][0], clusters[d][0])
  {
    var atoms := AtomVecs(mem, SortedActive(mem));
    var cs := Clusters(opts.sim, opts.topicThreshold, atoms);
    ActiveIdsDistinct(mem, mem.atomRows);
    SortIdsSorts(ActiveIds(mem, mem.atomRows));
    VecsInOrder(mem, SortedActive(mem));
    SortedDistinct(mem);
    AtomVecsAre(mem, SortedActive(mem));
    ClustersAscend(opts.sim, opts.topicThreshold, atoms);
    forall c | 0 <= c < |cs| ensures MemberIds(cs[c]) != [] && MemberIds(cs[c])[0] == cs[c].founder.id {
      FounderOf(opts, mem, atoms, cs, c);
    }
  }

  ghost predicate PlacesOf(ids: seq<string>, rows: seq<Row>, at: seq<nat>) {
    && |at| == |rows| && (forall i, j :: 0 <= i < j < |at| ==> at[i] < at[j])
    && (forall i :: 0 <= i < |at| ==> at[i] < |ids| && rows[i].id == ids[at[i]])
  }

  ghost predicate MarksLive(db: Db, ids: seq<string>, at: seq<nat>) {
    forall k :: 0 <= k < |ids| ==> (k in at <==> LiveTopic(db, ids[k]))
  }

  /** `at` says where each listed topic's row is. */
  ghost predicate RowsAt(db: Db, ids: seq<string>, rows: seq<Row>, at: seq<nat>) {
    PlacesOf(ids, rows, at) && MarksLive(db, ids, at)
  }

  lemma ShiftedHas(at: seq<nat>, moved: seq<nat>, k: nat)
    requires Moved(at, moved)
    ensures k + 1 in moved <==> k in at
    ensures 0 !in moved
  {
    if k in at {
      var i :| 0 <= i < |at| && at[i] == k;
      assert moved[i] == k + 1;
    }
  }

  ghost predicate Moved(at: seq<nat>, moved: seq<nat>) {
    |moved| == |at| && forall i :: 0 <= i < |at| ==> moved[i] == at[i] + 1
  }

  lemma PlacesMove(ids: seq<string>, rest: seq<Row>, at: seq<nat>, moved: seq<nat>)
    requires ids != [] && PlacesOf(ids[1..], rest, at) && Moved(at, moved)
    ensures PlacesOf(ids, rest, moved)
  {
  }

  lemma PlacesGrow(ids: seq<string>, rest: seq<Row>, moved: seq<nat>, row: Row)
    requires ids != [] && PlacesOf(ids, rest, moved) && row.id == ids[0] && forall i :: 0 <= i < |moved| ==> moved[i] > 0
    ensures PlacesOf(ids, [row] + rest, [0] + moved)
  {
  }

  lemma MarksMove(db: Db, ids: seq<string>, at: seq<nat>, moved: seq<nat>)
    requires ids != [] && MarksLive(db, ids[1..], at) && Moved(at, moved)
    ensures MarksLive(db, ids, if LiveTopic(db, ids[0]) then [0] + moved else moved)
  {
    var places := if LiveTopic(db, ids[0]) then [0] + moved else moved;
    forall k | 0 <= k < |ids| ensures k in places <==> LiveTopic(db, ids[k]) {
      if k > 0 {
        assert ids[1..][k - 1] == ids[k];
        ShiftedHas(at, moved, k - 1);
      } else {
        ShiftedHas(at, moved, 0);
      }
    }
  }

  /** The topics a cluster is compared with come in the order of their rows. */
  lemma {:induction false} TopicsInRowOrder(db: Db, ids: seq<string>) returns (at: seq<nat>)
    ensures RowsAt(db, ids, TopicRows(db, ids), at)
  {
    at := [];
    if ids != [] {
      var rest := TopicsInRowOrder(db, ids[1..]);
      var moved := seq(|rest|, i requires 0 <= i < |rest| => rest[i] + 1);
      PlacesMove(ids, TopicRows(db, ids[1..]), rest, moved);
      MarksMove(db, ids, rest, moved);
      if LiveTopic(db, ids[0]) { PlacesGrow(ids, TopicRows(db, ids[1..]), moved, Row(ids[0], db.scenes[ids[0]])); }
      at := if LiveTopic(db, ids[0]) then [0] + moved else moved;
      assert [] + TopicRows(db, ids[1..]) == TopicRows(db, ids[1..]);
    }
  }
}
