/**
 Hysteresis: when the live topics already are the current clusters, reconciling them
 keeps every scene as it is. And the clusters partition the remembered atoms.
 */
module TopicFixedPoint {
  import opened Tables
  import opened TextOrder
  import opened Scenes
  import opened SceneFrames
  import opened Clustering
  import opened Topics
  import opened TopicProofs
  import Jaccard

  // ----- The derived clusters partition the active atoms that have a vector

  ghost predicate Separate(clusters: seq<seq<string>>) {
    && (forall i :: 0 <= i < |clusters| ==> clusters[i] != [] && Distinct(clusters[i]))
    && (forall i, j, x :: 0 <= i < |clusters| && 0 <= j < |clusters| && x in clusters[i] && x in clusters[j] ==> i == j)
  }

  ghost predicate InSome(clusters: seq<seq<string>>, id: string) {
    exists i :: 0 <= i < |clusters| && id in clusters[i]
  }

  lemma {:induction false} AtomVecsAre(mem: Memory, ids: seq<string>)
    requires Distinct(ids)
    ensures DistinctIds(AtomVecs(mem, ids))
    ensures forall a :: a in AtomVecs(mem, ids) <==> a.id in ids && a.id in mem.atomVecs && a.vec == mem.atomVecs[a.id]
  {
    if ids != [] {
      AtomVecsAre(mem, ids[1..]);
      assert ids == [ids[0]] + ids[1..];
      var rest := AtomVecs(mem, ids[1..]);
      forall i | 0 <= i < |rest| ensures rest[i].id != ids[0] {
        assert rest[i] in rest;
      }
    }
  }

  lemma {:induction false} ActiveIdsDistinct(mem: Memory, rows: seq<string>)
    requires Distinct(rows)
    ensures Distinct(ActiveIds(mem, rows))
  {
    if rows != [] {
      ActiveIdsDistinct(mem, rows[1..]);
      assert rows[0] !in rows[1..];
    }
  }

  lemma MembersAreAtoms(cs: seq<Cluster>, atoms: seq<AtomVec>, i: nat, x: string) returns (a: AtomVec)
    requires Partitions(cs, atoms) && i < |cs| && x in MemberIds(cs[i])
    ensures a.id == x && a in atoms && Holds(cs, i, a)
  {
    var m :| 0 <= m < |cs[i].members| && cs[i].members[m].id == x;
    a := cs[i].members[m];
    assert Holds(cs, i, a);
  }

  lemma MembersDistinct(cs: seq<Cluster>, atoms: seq<AtomVec>, i: nat)
    requires Partitions(cs, atoms) && DistinctIds(atoms) && i < |cs|
    ensures MemberIds(cs[i]) != [] && Distinct(MemberIds(cs[i]))
  {
    var members := cs[i].members;
    forall m, n | 0 <= m < n < |members| ensures members[m].id != members[n].id {
      assert Holds(cs, i, members[m]) && Holds(cs, i, members[n]);
      SameIdSameAtom(atoms, members[m], members[n]);
    }
  }

  lemma MemberOfOne(cs: seq<Cluster>, atoms: seq<AtomVec>, i: nat, j: nat, x: string)
    requires Partitions(cs, atoms) && DistinctIds(atoms) && i < |cs| && j < |cs|
    requires x in MemberIds(cs[i]) && x in MemberIds(cs[j])
    ensures i == j
  {
    var a := MembersAreAtoms(cs, atoms, i, x);
    var b := MembersAreAtoms(cs, atoms, j, x);
    SameIdSameAtom(atoms, a, b);
  }

  lemma AtomIsMember(cs: seq<Cluster>, atoms: seq<AtomVec>, a: AtomVec)
    requires Partitions(cs, atoms) && a in atoms
    ensures InSome(MemberLists(cs), a.id)
  {
    var c :| Holds(cs, c, a);
    var m :| 0 <= m < |cs[c].members| && cs[c].members[m] == a;
    assert MemberIds(cs[c])[m] == a.id;
    assert a.id in MemberLists(cs)[c];
  }

  lemma MemberIdsSeparate(cs: seq<Cluster>, atoms: seq<AtomVec>)
    requires Partitions(cs, atoms) && DistinctIds(atoms)
    ensures Separate(MemberLists(cs))
  {
    forall i | 0 <= i < |cs| ensures MemberIds(cs[i]) != [] && Distinct(MemberIds(cs[i])) {
      MembersDistinct(cs, atoms, i);
    }
    forall i, j, x | 0 <= i < |cs| && 0 <= j < |cs| && x in MemberIds(cs[i]) && x in MemberIds(cs[j])
      ensures i == j
    {
      MemberOfOne(cs, atoms, i, j, x);
    }
  }

  lemma SameIdSameAtom(atoms: seq<AtomVec>, a: AtomVec, b: AtomVec)
    requires DistinctIds(atoms) && a in atoms && b in atoms
    ensures a.id == b.id ==> a == b
  {
  }

  /** Each active atom with a vector is in exactly one derived cluster, once, and nothing else is. */
  lemma DerivedClustersPartition(opts: Options, mem: Memory)
    requires Distinct(mem.atomRows)
    ensures Separate(DerivedClusters(opts, mem))
    ensures forall id :: InSome(DerivedClusters(opts, mem), id)
                         <==> id in mem.atomRows && IsActive(mem, id) && id in mem.atomVecs
  {
    var active := ActiveIds(mem, mem.atomRows);
    ActiveIdsDistinct(mem, mem.atomRows);
    SortIdsSorts(active);
    SortedIsDistinct(SortIds(active));
    var atoms := AtomVecs(mem, SortedActive(mem));
    AtomVecsAre(mem, SortedActive(mem));
    var cs := Clusters(opts.sim, opts.topicThreshold, atoms);
    ClustersPartition(opts.sim, opts.topicThreshold, atoms);
    MemberIdsSeparate(cs, atoms);
    forall id
      ensures InSome(MemberLists(cs), id) <==> id in mem.atomRows && IsActive(mem, id) && id in mem.atomVecs
    {
      if id in active && id in mem.atomVecs {
        AtomIsMember(cs, atoms, AtomVec(id, mem.atomVecs[id]));
      }
      if InSome(MemberLists(cs), id) {
        var i :| 0 <= i < |MemberLists(cs)| && id in MemberLists(cs)[i];
        var a := MembersAreAtoms(cs, atoms, i, id);
      }
    }
  }

  // ----- Settled topics are a fixed point

  lemma {:induction false} BestMatchOnly(members: seq<string>, existing: seq<Row>, matched: set<string>, j: nat, k: nat)
    requires j < |existing| && k <= |existing| && existing[j].id !in matched
    requires Jaccard.Score(members, existing[j].scene.atomIds) > 0.0
    requires forall r :: 0 <= r < |existing| && r != j && existing[r].id !in matched ==>
                           Jaccard.Score(members, existing[r].scene.atomIds) == 0.0
    ensures BestMatch(members, existing, matched, k) ==
              if k <= j then Match(-1, 0.0) else Match(j, Jaccard.Score(members, existing[j].scene.atomIds))
  {
    if k > 0 { BestMatchOnly(members, existing, matched, j, k - 1); }
  }

  ghost predicate Carried(row: Row, carriers: seq<string>, clusters: seq<seq<string>>)
    requires |carriers| == |clusters|
  {
    exists i :: 0 <= i < |carriers| && carriers[i] == row.id && clusters[i] == row.scene.atomIds
  }

  /** Every listed row is carried by some carrier, with that carrier's cluster. */
  ghost predicate RowsCarried(existing: seq<Row>, carriers: seq<string>, clusters: seq<seq<string>>) {
    && |carriers| == |clusters|
    && forall r :: r in existing ==> Carried(r, carriers, clusters)
  }

  lemma OwnSceneWins(existing: seq<Row>, carriers: seq<string>, clusters: seq<seq<string>>, i: nat, j: nat,
                     matched: set<string>)
    requires RowsCarried(existing, carriers, clusters) && Distinct(carriers) && Separate(clusters)
    requires DistinctRows(existing)
    requires i < |clusters| && j < |existing| && existing[j].id == carriers[i] && carriers[i] !in matched
    ensures existing[j].scene.atomIds == clusters[i]
    ensures BestMatch(clusters[i], existing, matched, |existing|) == Match(j, 1.0)
  {
    Jaccard.ScoreOfSelf(clusters[i]);
    assert Carried(existing[j], carriers, clusters);
    forall r | 0 <= r < |existing| && r != j && existing[r].id !in matched
      ensures Jaccard.Score(clusters[i], existing[r].scene.atomIds) == 0.0
    {
      assert Carried(existing[r], carriers, clusters);
      var n :| 0 <= n < |carriers| && carriers[n] == existing[r].id && clusters[n] == existing[r].scene.atomIds;
      Jaccard.ScoreOfDisjoint(clusters[i], clusters[n]);
    }
    BestMatchOnly(clusters[i], existing, matched, j, |existing|);
  }

  function Taken(carriers: seq<string>, i: nat): set<string>
    requires i <= |carriers|
  {
    set x | x in carriers[..i]
  }

  /** Progress after i clusters when nothing has to change. */
  function AtRest(db: Db, carriers: seq<string>, i: nat): Progress
    requires i <= |carriers|
  {
    Progress(db, true, Taken(carriers, i), carriers[..i])
  }

  lemma PlaceOwn(env: Env, oracle: Oracle, opts: Options, existing: seq<Row>, db: Db,
                 carriers: seq<string>, clusters: seq<seq<string>>, i: nat)
    requires opts.matchThreshold <= 1.0 && opts.reorgThreshold > 0.0
    requires HoldAll(env, db, carriers, clusters) && Separate(clusters) && Snapshot(db, existing)
    requires RowsCarried(existing, carriers, clusters)
    requires i < |clusters|
    ensures PlaceCluster(env, oracle, opts, existing, AtRest(db, carriers, i), clusters[i]) == AtRest(db, carriers, i + 1)
  {
    var id := carriers[i];
    assert Carries(env, db, id, clusters[i]);
    var j := RowOf(db, existing, id);
    OwnSceneWins(existing, carriers, clusters, i, j, Taken(carriers, i));
    Jaccard.ScoreOfSelf(clusters[i]);
    ContinueAtRest(env, oracle, db, carriers, i, existing[j], clusters[i]);
  }

  lemma RowOf(db: Db, existing: seq<Row>, id: string) returns (j: nat)
    requires Snapshot(db, existing) && LiveTopic(db, id)
    ensures j < |existing| && existing[j] == Row(id, db.scenes[id])
  {
    assert Listed(existing, id);
    var row :| row in existing && row.id == id;
    j :| 0 <= j < |existing| && existing[j] == row;
  }

  lemma ContinueAtRest(env: Env, oracle: Oracle, db: Db, carriers: seq<string>, i: nat, row: Row, members: seq<string>)
    requires i < |carriers| && row.id == carriers[i]
    requires Carries(env, db, row.id, members) && row.scene == db.scenes[row.id]
    ensures Continue(env, oracle, AtRest(db, carriers, i), row, members) == AtRest(db, carriers, i + 1)
  {
    UpsertNoop(env, oracle, db, row.id, KeepTopic(row, members));
    assert carriers[..i + 1] == carriers[..i] + [row.id];
    assert Taken(carriers, i + 1) == Taken(carriers, i) + {row.id};
  }

  lemma {:induction false} PlaceAllAtRest(env: Env, oracle: Oracle, opts: Options, existing: seq<Row>, db: Db,
                                          carriers: seq<string>, clusters: seq<seq<string>>, i: nat)
    requires opts.matchThreshold <= 1.0 && opts.reorgThreshold > 0.0
    requires HoldAll(env, db, carriers, clusters) && Separate(clusters) && Snapshot(db, existing)
    requires RowsCarried(existing, carriers, clusters)
    requires i <= |clusters|
    ensures PlaceAll(env, oracle, opts, existing, AtRest(db, carriers, i), clusters[i..]) == AtRest(db, carriers, |carriers|)
    decreases |clusters| - i
  {
    if i < |clusters| {
      PlaceOwn(env, oracle, opts, existing, db, carriers, clusters, i);
      assert clusters[i..][1..] == clusters[i + 1..];
      PlaceAllAtRest(env, oracle, opts, existing, db, carriers, clusters, i + 1);
    }
  }

  lemma {:induction false} NothingToRetire(env: Env, oracle: Oracle, db: Db, existing: seq<Row>, matched: set<string>)
    requires forall r :: r in existing ==> r.id in matched
    ensures RetireUnmatched(env, oracle, db, existing, matched) == Out(db, true)
  {
    if existing != [] { NothingToRetire(env, oracle, db, existing[1..], matched); }
  }

  /** The live topics of `db` are exactly its current clusters. */
  ghost predicate TopicsCurrent(env: Env, opts: Options, db: Db, carriers: seq<string>) {
    && HoldAll(env, db, carriers, DerivedClusters(opts, db.mem))
    && (forall id :: LiveTopic(db, id) <==> id in carriers)
  }

  lemma CurrentRowsCarried(env: Env, opts: Options, db: Db, carriers: seq<string>, existing: seq<Row>)
    requires TopicsCurrent(env, opts, db, carriers) && Snapshot(db, existing)
    ensures RowsCarried(existing, carriers, DerivedClusters(opts, db.mem))
    ensures forall r :: r in existing ==> r.id in carriers
  {
    var clusters := DerivedClusters(opts, db.mem);
    forall r | r in existing
      ensures r.id in carriers && Carried(r, carriers, clusters)
    {
      assert LiveTopic(db, r.id);
      var i :| 0 <= i < |carriers| && carriers[i] == r.id;
      assert Carries(env, db, carriers[i], clusters[i]);
    }
  }

  lemma RowsSnapshot(db: Db)
    requires Distinct(db.sceneRows) && forall id :: id in db.scenes ==> id in db.sceneRows
    ensures Snapshot(db, TopicRows(db, db.sceneRows))
  {
    TopicRowsAre(db, db.sceneRows);
    forall id | LiveTopic(db, id) ensures Listed(TopicRows(db, db.sceneRows), id) {
      assert Row(id, db.scenes[id]) in TopicRows(db, db.sceneRows);
    }
  }

  /** No scene is created, retired or rewritten, and no scene id changes. */
  lemma TopicsAtRest(env: Env, oracle: Oracle, opts: Options, db: Db, carriers: seq<string>)
    requires opts.matchThreshold <= 1.0 && opts.reorgThreshold > 0.0
    requires WellFormed(env, db) && Distinct(db.mem.atomRows)
    requires TopicsCurrent(env, opts, db, carriers)
    ensures TopicPhase(env, oracle, opts, db).ok && TopicPhase(env, oracle, opts, db).db == db
  {
    var existing := TopicRows(db, db.sceneRows);
    var clusters := DerivedClusters(opts, db.mem);
    RowsSnapshot(db);
    CurrentRowsCarried(env, opts, db, carriers, existing);
    DerivedClustersPartition(opts, db.mem);
    if SortedActive(db.mem) == [] {
      NoAtomsNoClusters(opts, db.mem);
      assert carriers == [];
      NothingToRetire(env, oracle, db, existing, {});
    } else {
      assert AtRest(db, carriers, 0) == Start(db);
      assert clusters[0..] == clusters;
      PlaceAllAtRest(env, oracle, opts, existing, db, carriers, clusters, 0);
      NothingToRetire(env, oracle, db, existing, Taken(carriers, |carriers|));
    }
  }

  // ----- Outside those thresholds the topics never come to rest

  lemma PlacedMints(env: Env, oracle: Oracle, opts: Options, existing: seq<Row>, p: Progress, members: seq<string>)
    ensures var j := Chosen(members, existing, p.matched, opts.matchThreshold);
            PlaceCluster(env, oracle, opts, existing, p, members).db.minted
            == if j >= 0 && Jaccard.ChurnFraction(members, existing[j].scene.atomIds) < opts.reorgThreshold
               then p.db.minted else p.db.minted + 1
  {
    var j := Chosen(members, existing, p.matched, opts.matchThreshold);
    var id := NextId(p.db, env);
    if j >= 0 {
      var row := existing[j];
      UpsertFrame(env, oracle, p.db, row.id, KeepTopic(row, members));
      var link := Given(Some([row.id]));
      var c := Create(env, oracle, p, members, link);
      UpsertFrame(env, oracle, Mint(p.db), id, NewTopic(env, p.db, members).(derivedFrom := link));
      UpsertFrame(env, oracle, c.db, row.id, RetireTopic(row).(supersededBy := Given(Some([id]))));
    } else {
      UpsertFrame(env, oracle, Mint(p.db), id, NewTopic(env, p.db, members).(derivedFrom := Omitted));
    }
  }

  lemma {:induction false} PlaceAllMints(env: Env, oracle: Oracle, opts: Options, existing: seq<Row>, p: Progress,
                                         clusters: seq<seq<string>>)
    ensures PlaceAll(env, oracle, opts, existing, p, clusters).db.minted >= p.db.minted
    decreases |clusters|
  {
    if clusters != [] && p.ok {
      PlaceAllTurn(env, oracle, opts, existing, p, clusters);
      PlacedMints(env, oracle, opts, existing, p, clusters[0]);
      PlaceAllMints(env, oracle, opts, existing, PlaceCluster(env, oracle, opts, existing, p, clusters[0]), clusters[1..]);
    }
  }

  lemma {:induction false} RetiringMintsNothing(env: Env, oracle: Oracle, db: Db, existing: seq<Row>,
      matched: set<string>)
    ensures RetireUnmatched(env, oracle, db, existing, matched).db.minted == db.minted
    decreases |existing|
  {
    if existing != [] {
      if existing[0].id in matched {
        RetiringMintsNothing(env, oracle, db, existing[1..], matched);
      } else {
        var o := Upsert(env, oracle, db, existing[0].id, RetireTopic(existing[0]));
        UpsertFrame(env, oracle, db, existing[0].id, RetireTopic(existing[0]));
        if o.ok { RetiringMintsNothing(env, oracle, o.db, existing[1..], matched); }
      }
    }
  }

  lemma FirstClusterMints(env: Env, oracle: Oracle, opts: Options, existing: seq<Row>, db: Db,
                          carriers: seq<string>, clusters: seq<seq<string>>)
    requires opts.matchThreshold > 1.0 || opts.reorgThreshold <= 0.0
    requires HoldAll(env, db, carriers, clusters) && Separate(clusters) && Snapshot(db, existing)
    requires RowsCarried(existing, carriers, clusters) && clusters != []
    ensures PlaceCluster(env, oracle, opts, existing, Start(db), clusters[0]).db.minted == db.minted + 1
  {
    assert Carries(env, db, carriers[0], clusters[0]);
    var j := RowOf(db, existing, carriers[0]);
    OwnSceneWins(existing, carriers, clusters, 0, j, {});
    Jaccard.ScoreOfSelf(clusters[0]);
    PlacedMints(env, oracle, opts, existing, Start(db), clusters[0]);
  }

  /** Exactly when current topics are a fixed point: a match threshold of at most 1 and a
      positive reorganisation threshold, once there is a cluster at all. */
  lemma TopicsAtRestExactly(env: Env, oracle: Oracle, opts: Options, db: Db, carriers: seq<string>)
    requires WellFormed(env, db) && Distinct(db.mem.atomRows)
    requires TopicsCurrent(env, opts, db, carriers)
    requires DerivedClusters(opts, db.mem) != []
    ensures TopicPhase(env, oracle, opts, db).db == db <==> opts.matchThreshold <= 1.0 && opts.reorgThreshold > 0.0
  {
    if opts.matchThreshold <= 1.0 && opts.reorgThreshold > 0.0 {
      TopicsAtRest(env, oracle, opts, db, carriers);
    } else {
      var existing := TopicRows(db, db.sceneRows);
      var clusters := DerivedClusters(opts, db.mem);
      if SortedActive(db.mem) == [] { NoAtomsNoClusters(opts, db.mem); }
      RowsSnapshot(db);
      CurrentRowsCarried(env, opts, db, carriers, existing);
      DerivedClustersPartition(opts, db.mem);
      FirstClusterMints(env, oracle, opts, existing, db, carriers, clusters);
      PlaceAllTurn(env, oracle, opts, existing, Start(db), clusters);
      PlaceAllMints(env, oracle, opts, existing, PlaceCluster(env, oracle, opts, existing, Start(db), clusters[0]), clusters[1..]);
      var p := PlaceAll(env, oracle, opts, existing, Start(db), clusters);
      RetiringMintsNothing(env, oracle, p.db, existing, p.matched);
    }
  }

  // ----- Memory is partitioned by the live topics

  /** Afterwards each active atom with a vector is in exactly one live topic, once; no
      live topic is empty or holds anything else. */
  lemma TopicsPartitionMemory(env: Env, oracle: Oracle, opts: Options, db: Db)
    requires CollisionFree(env) && WellFormed(env, db) && Distinct(db.mem.atomRows)
    requires TopicPhase(env, oracle, opts, db).ok
    ensures var d := TopicPhase(env, oracle, opts, db).db;
            && d.mem == db.mem
            && (forall id :: LiveTopic(d, id) ==> d.scenes[id].atomIds != [] && Distinct(d.scenes[id].atomIds))
            && (forall a :: a in db.mem.atomRows && IsActive(db.mem, a) && a in db.mem.atomVecs
                            <==> exists id :: LiveTopic(d, id) && a in d.scenes[id].atomIds)
            && (forall a, id, id' :: LiveTopic(d, id) && LiveTopic(d, id') && a in d.scenes[id].atomIds && a in d.scenes[id'].atomIds
                                     ==> id == id')
  {
    var p := TopicPhase(env, oracle, opts, db);
    var clusters := DerivedClusters(opts, db.mem);
    TopicsCarryClusters(env, oracle, opts, db);
    DerivedClustersPartition(opts, db.mem);
    CarriersPartition(env, p.db, p.carriers, clusters);
  }

  lemma CarriersPartition(env: Env, d: Db, carriers: seq<string>, clusters: seq<seq<string>>)
    requires HoldAll(env, d, carriers, clusters) && Separate(clusters)
    requires forall id :: LiveTopic(d, id) <==> id in carriers
    ensures forall id :: LiveTopic(d, id) ==> d.scenes[id].atomIds != [] && Distinct(d.scenes[id].atomIds)
    ensures forall a :: InSome(clusters, a) <==> exists id :: LiveTopic(d, id) && a in d.scenes[id].atomIds
    ensures forall a, id, id' :: LiveTopic(d, id) && LiveTopic(d, id') && a in d.scenes[id].atomIds && a in d.scenes[id'].atomIds
                                 ==> id == id'
  {
    forall id | LiveTopic(d, id)
      ensures exists i :: 0 <= i < |clusters| && carriers[i] == id && d.scenes[id].atomIds == clusters[i]
    {
      var i :| 0 <= i < |carriers| && carriers[i] == id;
      assert Carries(env, d, carriers[i], clusters[i]);
    }
    forall a ensures InSome(clusters, a) <==> exists id :: LiveTopic(d, id) && a in d.scenes[id].atomIds {
      if InSome(clusters, a) {
        var i :| 0 <= i < |clusters| && a in clusters[i];
        assert Carries(env, d, carriers[i], clusters[i]);
      }
    }
  }
}
