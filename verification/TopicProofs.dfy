/**
 After the topic phase the live topics carry exactly the derived clusters, whatever branches
 placed them; the rest of the scene table is as it was, and what was replaced or dropped is
 retired with its members. One invariant is kept by each cluster placed and each topic retired.
 */
module TopicProofs {
  import opened Tables
  import opened TextOrder
  import opened Scenes
  import opened SceneFrames
  import opened Clustering
  import opened Topics
  import Jaccard

  // ----- The rows the pass reads

  lemma {:induction false} TopicRowsAre(db: Db, ids: seq<string>)
    requires Distinct(ids)
    ensures forall r :: r in TopicRows(db, ids) <==> r.id in ids && LiveTopic(db, r.id) && r.scene == db.scenes[r.id]
    ensures forall i, j :: 0 <= i < j < |TopicRows(db, ids)| ==> TopicRows(db, ids)[i].id != TopicRows(db, ids)[j].id
  {
    if ids != [] {
      TopicRowsAre(db, ids[1..]);
      assert ids == [ids[0]] + ids[1..];
      var rest := TopicRows(db, ids[1..]);
      forall r ensures r in TopicRows(db, ids) <==> r.id in ids && LiveTopic(db, r.id) && r.scene == db.scenes[r.id] {
        assert ids[0] !in ids[1..];
      }
      forall i | 0 <= i < |rest| ensures rest[i].id != ids[0] {
        assert rest[i] in rest;
      }
    }
  }

  ghost predicate Listed(existing: seq<Row>, id: string) {
    exists r :: r in existing && r.id == id
  }

  ghost predicate DistinctRows(existing: seq<Row>) {
    forall i, j :: 0 <= i < j < |existing| ==> existing[i].id != existing[j].id
  }

  // ----- The invariant between two clusters

  /** Scene `id` is a live, rendered topic holding exactly `members`. */
  ghost predicate Carries(env: Env, db: Db, id: string, members: seq<string>) {
    LiveTopic(db, id) && db.scenes[id].atomIds == members && Rendered(env, db, id)
  }

  /** Nothing outside the scene tables has changed, nor any scene that was not a live
      topic; new scenes have random ids. */
  ghost predicate TopicsOnly(env: Env, db0: Db, d: Db) {
    && d == db0.(scenes := d.scenes, sceneRows := d.sceneRows, sceneVecs := d.sceneVecs,
                 embedCalls := d.embedCalls, minted := d.minted)
    && db0.minted <= d.minted
    && (forall x :: x in d.scenes ==> x in db0.scenes || Minted(env, x))
    && forall x :: x in db0.scenes && !LiveTopic(db0, x) ==> Untouched(db0, d, x)
  }

  ghost predicate Minted(env: Env, x: string) {
    exists n: nat :: (env.uuid)(n) == x
  }

  ghost predicate Untouched(db0: Db, d: Db, x: string) {
    && (x in db0.scenes <==> x in d.scenes)
    && (x in db0.scenes ==> d.scenes[x] == db0.scenes[x])
    && (x in db0.sceneVecs <==> x in d.sceneVecs)
    && (x in db0.sceneVecs ==> d.sceneVecs[x] == db0.sceneVecs[x])
  }

  ghost predicate Waiting(existing: seq<Row>, p: Progress, id: string) {
    Listed(existing, id) && id !in p.matched
  }

  /** The carriers are distinct scenes, each holding its cluster. */
  ghost predicate HoldAll(env: Env, db: Db, carriers: seq<string>, done: seq<seq<string>>) {
    && |carriers| == |done| && Distinct(carriers)
    && forall i :: 0 <= i < |done| ==> Carries(env, db, carriers[i], done[i])
  }

  /** The live topics are the carriers and the topics still unclaimed. */
  ghost predicate LiveAre(existing: seq<Row>, p: Progress) {
    && (forall id :: LiveTopic(p.db, id) <==> id in p.carriers || Waiting(existing, p, id))
    && (forall id :: id in p.carriers ==> !Waiting(existing, p, id))
  }

  ghost predicate Intact(existing: seq<Row>, p: Progress) {
    forall r :: r in existing && r.id !in p.matched ==> r.id in p.db.scenes && p.db.scenes[r.id] == r.scene
  }

  ghost predicate Inv(env: Env, db0: Db, existing: seq<Row>, p: Progress, done: seq<seq<string>>) {
    && WellFormed(env, p.db)
    && TopicsOnly(env, db0, p.db)
    && HoldAll(env, p.db, p.carriers, done)
    && LiveAre(existing, p)
    && Intact(existing, p)
  }

  ghost predicate Snapshot(db0: Db, existing: seq<Row>) {
    && DistinctRows(existing)
    && (forall r :: r in existing ==> LiveTopic(db0, r.id) && r.scene == db0.scenes[r.id])
    && (forall id :: LiveTopic(db0, id) ==> Listed(existing, id))
  }

  lemma StartInv(env: Env, db: Db, existing: seq<Row>)
    requires WellFormed(env, db) && Snapshot(db, existing)
    ensures Inv(env, db, existing, Start(db), [])
  {
    forall id ensures LiveTopic(db, id) <==> Waiting(existing, Start(db), id) {
      if Listed(existing, id) {
        var r :| r in existing && r.id == id;
      }
    }
  }

  /** Scenes other than the written one keep carrying what they carried. */
  lemma CarriesElsewhere(env: Env, db: Db, d: Db, id: string, x: string, members: seq<string>)
    requires OnlyScene(db, d, id) && x != id && Carries(env, db, x, members)
    ensures Carries(env, d, x, members)
  {
  }

  lemma TopicsOnlyStep(env: Env, db0: Db, db: Db, d: Db, id: string)
    requires TopicsOnly(env, db0, db) && OnlyScene(db, d, id)
    requires if id in db0.scenes then LiveTopic(db0, id) else Minted(env, id)
    ensures TopicsOnly(env, db0, d)
  {
    forall x | x in db0.scenes && !LiveTopic(db0, x) ensures Untouched(db0, d, x) {
      assert Untouched(db0, db, x);
    }
  }

  lemma HoldAllKept(env: Env, db: Db, d: Db, id: string, carriers: seq<string>, done: seq<seq<string>>)
    requires HoldAll(env, db, carriers, done) && OnlyScene(db, d, id) && id !in carriers
    ensures HoldAll(env, d, carriers, done)
  {
    forall i | 0 <= i < |done| ensures Carries(env, d, carriers[i], done[i]) {
      assert carriers[i] in carriers;
      CarriesElsewhere(env, db, d, id, carriers[i], done[i]);
    }
  }

  lemma HoldAllExtended(env: Env, d: Db, carriers: seq<string>, done: seq<seq<string>>, id: string,
                        members: seq<string>)
    requires HoldAll(env, d, carriers, done) && id !in carriers && Carries(env, d, id, members)
    ensures HoldAll(env, d, carriers + [id], done + [members])
  {
  }

  lemma LiveAfterClaim(existing: seq<Row>, p: Progress, d: Db, id: string)
    requires LiveAre(existing, p) && OnlyScene(p.db, d, id) && Waiting(existing, p, id)
    ensures LiveTopic(d, id) ==> LiveAre(existing, Progress(d, true, p.matched + {id}, p.carriers + [id]))
    ensures !LiveTopic(d, id) ==> LiveAre(existing, p.(db := d, matched := p.matched + {id}))
  {
    var live := Progress(d, true, p.matched + {id}, p.carriers + [id]);
    var retired := p.(db := d, matched := p.matched + {id});
    forall x
      ensures x != id ==> (LiveTopic(d, x) <==> x in p.carriers || Waiting(existing, p, x))
      ensures Waiting(existing, live, x) <==> x != id && Waiting(existing, p, x)
      ensures Waiting(existing, retired, x) <==> x != id && Waiting(existing, p, x)
    {
      assert LiveTopic(p.db, x) <==> x in p.carriers || Waiting(existing, p, x);
    }
  }

  lemma LiveAfterCreate(existing: seq<Row>, p: Progress, d: Db, id: string)
    requires LiveAre(existing, p) && id !in p.db.scenes && LiveTopic(d, id) && !Listed(existing, id)
    requires forall x :: x != id ==> (LiveTopic(d, x) <==> LiveTopic(p.db, x))
    ensures LiveAre(existing, Progress(d, true, p.matched, p.carriers + [id]))
  {
    var q := Progress(d, true, p.matched, p.carriers + [id]);
    forall x
      ensures LiveTopic(d, x) <==> x in q.carriers || Waiting(existing, q, x)
      ensures x in q.carriers ==> !Waiting(existing, q, x)
    {
      assert LiveTopic(p.db, x) <==> x in p.carriers || Waiting(existing, p, x);
      assert Waiting(existing, p, x) <==> Waiting(existing, q, x);
    }
  }

  lemma WaitingIsNoCarrier(existing: seq<Row>, p: Progress, id: string)
    requires LiveAre(existing, p) && Waiting(existing, p, id)
    ensures id !in p.carriers && LiveTopic(p.db, id)
  {
  }

  /** Writing an unclaimed topic: it becomes a carrier, or is retired. */
  lemma ClaimInv(env: Env, oracle: Oracle, db0: Db, existing: seq<Row>, p: Progress, done: seq<seq<string>>,
                 row: Row, w: SceneWrite)
    requires Inv(env, db0, existing, p, done) && Snapshot(db0, existing)
    requires row in existing && row.id !in p.matched
    requires w.kind == Topic && w.status.Given?
    requires Upsert(env, oracle, p.db, row.id, w).ok
    ensures var d := Upsert(env, oracle, p.db, row.id, w).db;
            if w.status.value == Live
            then Inv(env, db0, existing, Progress(d, true, p.matched + {row.id}, p.carriers + [row.id]), done + [w.atomIds])
            else Inv(env, db0, existing, p.(db := d, matched := p.matched + {row.id}), done)
  {
    var d := Upsert(env, oracle, p.db, row.id, w).db;
    UpsertFrame(env, oracle, p.db, row.id, w);
    UpsertStores(env, oracle, p.db, row.id, w);
    assert Waiting(existing, p, row.id);
    WaitingIsNoCarrier(existing, p, row.id);
    TopicsOnlyStep(env, db0, p.db, d, row.id);
    OnlySceneKeepsWellFormed(env, p.db, d, row.id);
    HoldAllKept(env, p.db, d, row.id, p.carriers, done);
    LiveAfterClaim(existing, p, d, row.id);
    if w.status.value == Live {
      assert Carries(env, d, row.id, w.atomIds);
      HoldAllExtended(env, d, p.carriers, done, row.id, w.atomIds);
    }
  }

  lemma UnlistedWhenNew(db0: Db, existing: seq<Row>, id: string)
    requires Snapshot(db0, existing) && id !in db0.scenes
    ensures !Listed(existing, id)
  {
  }

  /** Creating a topic under a random id. */
  lemma CreateInv(env: Env, oracle: Oracle, db0: Db, existing: seq<Row>, p: Progress, done: seq<seq<string>>,
                  members: seq<string>, derivedFrom: Field<Option<seq<string>>>)
    requires CollisionFree(env)
    requires Inv(env, db0, existing, p, done) && Snapshot(db0, existing) && WellFormed(env, db0)
    requires Create(env, oracle, p, members, derivedFrom).ok
    ensures Inv(env, db0, existing, Create(env, oracle, p, members, derivedFrom), done + [members])
  {
    var id := NextId(p.db, env);
    var w := NewTopic(env, p.db, members).(derivedFrom := derivedFrom);
    var base := Mint(p.db);
    var d := Upsert(env, oracle, base, id, w).db;
    UpsertFrame(env, oracle, base, id, w);
    MintKeeps(env, db0, p.db, p.carriers, done);
    assert id !in p.db.scenes && id !in db0.scenes && Minted(env, id);
    TopicsOnlyStep(env, db0, base, d, id);
    OnlySceneKeepsWellFormed(env, base, d, id);
    UnlistedWhenNew(db0, existing, id);
    NotYetCarrier(existing, p, id);
    HoldAllKept(env, base, d, id, p.carriers, done);
    NewTopicCarries(env, oracle, base, id, w);
    HoldAllExtended(env, d, p.carriers, done, id, members);
    LiveAfterCreate(existing, p, d, id);
    IntactAfterCreate(existing, p, base, d, id);
  }

  lemma MintKeeps(env: Env, db0: Db, db: Db, carriers: seq<string>, done: seq<seq<string>>)
    requires WellFormed(env, db) && TopicsOnly(env, db0, db) && HoldAll(env, db, carriers, done)
    ensures WellFormed(env, Mint(db)) && TopicsOnly(env, db0, Mint(db)) && HoldAll(env, Mint(db), carriers, done)
  {
    forall x | x in db0.scenes && !LiveTopic(db0, x) ensures Untouched(db0, Mint(db), x) {
      assert Untouched(db0, db, x);
    }
    forall i | 0 <= i < |done| ensures Carries(env, Mint(db), carriers[i], done[i]) {
      assert Carries(env, db, carriers[i], done[i]);
    }
  }

  lemma NewTopicCarries(env: Env, oracle: Oracle, db: Db, id: string, w: SceneWrite)
    requires id !in db.scenes && w.kind == Topic && w.status == Given(Live) && Upsert(env, oracle, db, id, w).ok
    ensures Carries(env, Upsert(env, oracle, db, id, w).db, id, w.atomIds)
  {
    UpsertStores(env, oracle, db, id, w);
  }

  lemma NotYetCarrier(existing: seq<Row>, p: Progress, id: string)
    requires LiveAre(existing, p) && id !in p.db.scenes
    ensures id !in p.carriers
  {
    assert !LiveTopic(p.db, id);
  }

  lemma IntactAfterCreate(existing: seq<Row>, p: Progress, base: Db, d: Db, id: string)
    requires Intact(existing, p) && base.scenes == p.db.scenes && OnlyScene(base, d, id) && !Listed(existing, id)
    ensures Intact(existing, Progress(d, true, p.matched, p.carriers + [id]))
  {
    forall r | r in existing && r.id !in p.matched ensures r.id in d.scenes && d.scenes[r.id] == r.scene {
      assert Listed(existing, r.id);
    }
  }

  lemma PlaceClusterInv(env: Env, oracle: Oracle, opts: Options, db0: Db, existing: seq<Row>, p: Progress,
                        done: seq<seq<string>>, members: seq<string>)
    requires CollisionFree(env)
    requires Inv(env, db0, existing, p, done) && Snapshot(db0, existing) && WellFormed(env, db0)
    requires PlaceCluster(env, oracle, opts, existing, p, members).ok
    ensures Inv(env, db0, existing, PlaceCluster(env, oracle, opts, existing, p, members), done + [members])
  {
    var j := Chosen(members, existing, p.matched, opts.matchThreshold);
    if j >= 0 {
      var row := existing[j];
      if Jaccard.ChurnFraction(members, row.scene.atomIds) < opts.reorgThreshold {
        ClaimInv(env, oracle, db0, existing, p, done, row, KeepTopic(row, members));
      } else {
        ReorganiseInv(env, oracle, db0, existing, p, done, row, members);
      }
    } else {
      CreateInv(env, oracle, db0, existing, p, done, members, Omitted);
    }
  }

  lemma ReorganiseInv(env: Env, oracle: Oracle, db0: Db, existing: seq<Row>, p: Progress,
                      done: seq<seq<string>>, row: Row, members: seq<string>)
    requires CollisionFree(env)
    requires Inv(env, db0, existing, p, done) && Snapshot(db0, existing) && WellFormed(env, db0)
    requires row in existing && row.id !in p.matched
    requires Reorganise(env, oracle, p, row, members).ok
    ensures Inv(env, db0, existing, Reorganise(env, oracle, p, row, members), done + [members])
  {
    var link := Given(Some([row.id]));
    var c := Create(env, oracle, p, members, link);
    CreateInv(env, oracle, db0, existing, p, done, members, link);
    ClaimInv(env, oracle, db0, existing, c, done + [members], row,
             RetireTopic(row).(supersededBy := Given(Some([NextId(p.db, env)]))));
  }

  /** What each turn of the loop over clusters keeps, the whole loop keeps. */
  lemma {:induction false} PlaceAllKeeps(env: Env, oracle: Oracle, opts: Options, existing: seq<Row>, p: Progress,
                                         done: seq<seq<string>>, rest: seq<seq<string>>,
                                         kept: (Progress, seq<seq<string>>) -> bool)
    requires forall q: Progress, d: seq<seq<string>>, c: seq<string> :: q.ok && kept(q, d) && PlaceCluster(env, oracle, opts, existing, q, c).ok ==>
                                 kept(PlaceCluster(env, oracle, opts, existing, q, c), d + [c])
    requires p.ok && kept(p, done)
    requires PlaceAll(env, oracle, opts, existing, p, rest).ok
    ensures kept(PlaceAll(env, oracle, opts, existing, p, rest), done + rest)
    decreases |rest|
  {
    if rest == [] {
      assert done + rest == done;
    } else {
      var q := PlaceCluster(env, oracle, opts, existing, p, rest[0]);
      PlaceAllTurn(env, oracle, opts, existing, p, rest);
      MoveHead(done, rest);
      PlaceAllKeeps(env, oracle, opts, existing, q, done + [rest[0]], rest[1..], kept);
    }
  }

  lemma PlaceAllInv(env: Env, oracle: Oracle, opts: Options, db0: Db, existing: seq<Row>, clusters: seq<seq<string>>)
    requires CollisionFree(env)
    requires Snapshot(db0, existing) && WellFormed(env, db0)
    requires PlaceAll(env, oracle, opts, existing, Start(db0), clusters).ok
    ensures Inv(env, db0, existing, PlaceAll(env, oracle, opts, existing, Start(db0), clusters), clusters)
  {
    var kept := (p: Progress, done: seq<seq<string>>) => Inv(env, db0, existing, p, done);
    forall q: Progress, d: seq<seq<string>>, c: seq<string> | q.ok && kept(q, d) && PlaceCluster(env, oracle, opts, existing, q, c).ok
      ensures kept(PlaceCluster(env, oracle, opts, existing, q, c), d + [c])
    {
      PlaceClusterInv(env, oracle, opts, db0, existing, q, d, c);
    }
    StartInv(env, db0, existing);
    PlaceAllKeeps(env, oracle, opts, existing, Start(db0), [], clusters, kept);
    assert [] + clusters == clusters;
  }

  /** Topics `rest` are still to be looked at; every other one has been claimed or retired. */
  ghost predicate Remaining(existing: seq<Row>, taken: set<string>, rest: seq<Row>, matched: set<string>) {
    && (forall r :: r in rest ==> r in existing && (r.id in taken <==> r.id in matched))
    && (forall r :: r in existing ==> r in rest || r.id in taken)
    && DistinctRows(rest)
  }

  lemma RemainingTurn(existing: seq<Row>, taken: set<string>, rest: seq<Row>, matched: set<string>)
    requires Remaining(existing, taken, rest, matched) && rest != []
    ensures Remaining(existing, taken + {rest[0].id}, rest[1..], matched)
  {
    assert rest == [rest[0]] + rest[1..];
    forall r | r in rest[1..] ensures r in existing && r.id != rest[0].id && (r.id in taken <==> r.id in matched) {
      assert r in rest;
    }
  }

  /** `seen` is the progress with every row already passed over counted as claimed. */
  lemma {:induction false} RetireInv(env: Env, oracle: Oracle, db0: Db, existing: seq<Row>, seen: Progress,
                                     done: seq<seq<string>>, rest: seq<Row>, matched: set<string>)
    requires Inv(env, db0, existing, seen, done) && Snapshot(db0, existing)
    requires Remaining(existing, seen.matched, rest, matched)
    requires RetireUnmatched(env, oracle, seen.db, rest, matched).ok
    ensures Settled(env, db0, RetireUnmatched(env, oracle, seen.db, rest, matched).db, seen.carriers, done)
    decreases |rest|
  {
    if rest == [] {
      assert forall id :: !Waiting(existing, seen, id);
    } else {
      var row := rest[0];
      assert row in rest;
      RemainingTurn(existing, seen.matched, rest, matched);
      if row.id in matched {
        assert seen.matched + {row.id} == seen.matched;
        RetireInv(env, oracle, db0, existing, seen, done, rest[1..], matched);
      } else {
        ClaimInv(env, oracle, db0, existing, seen, done, row, RetireTopic(row));
        var o := Upsert(env, oracle, seen.db, row.id, RetireTopic(row));
        RetireInv(env, oracle, db0, existing, seen.(db := o.db, matched := seen.matched + {row.id}), done, rest[1..], matched);
      }
    }
  }

  /** The live topics are exactly `carriers`, holding `clusters` one for one. */
  ghost predicate Settled(env: Env, db0: Db, d: Db, carriers: seq<string>, clusters: seq<seq<string>>) {
    && WellFormed(env, d)
    && TopicsOnly(env, db0, d)
    && HoldAll(env, d, carriers, clusters)
    && (forall id :: LiveTopic(d, id) <==> id in carriers)
  }

  lemma NoAtomsNoClusters(opts: Options, mem: Memory)
    requires SortedActive(mem) == []
    ensures DerivedClusters(opts, mem) == []
  {
  }

  /** After topic reconciliation the live topics are in one-to-one correspondence with
      the clusters, whatever mix of branches ran, from any earlier set of topics. */
  lemma TopicsCarryClusters(env: Env, oracle: Oracle, opts: Options, db: Db)
    requires CollisionFree(env) && WellFormed(env, db)
    requires TopicPhase(env, oracle, opts, db).ok
    ensures var p := TopicPhase(env, oracle, opts, db);
            Settled(env, db, p.db, p.carriers, DerivedClusters(opts, db.mem))
  {
    var existing := TopicRows(db, db.sceneRows);
    TopicRowsAre(db, db.sceneRows);
    assert Snapshot(db, existing) by {
      forall id | LiveTopic(db, id) ensures Listed(existing, id) {
        assert Row(id, db.scenes[id]) in existing;
      }
    }
    StartInv(env, db, existing);
    if SortedActive(db.mem) == [] {
      NoAtomsNoClusters(opts, db.mem);
      RetireInv(env, oracle, db, existing, Start(db), [], existing, {});
    } else {
      var clusters := DerivedClusters(opts, db.mem);
      var p := PlaceAll(env, oracle, opts, existing, Start(db), clusters);
      PlaceAllInv(env, oracle, opts, db, existing, clusters);
      RetireInv(env, oracle, db, existing, p, clusters, existing, p.matched);
    }
  }

  // ----- Lineage

  lemma CreateLinks(env: Env, oracle: Oracle, p: Progress, members: seq<string>,
                    derivedFrom: Field<Option<seq<string>>>, d: Db, id: string)
    requires WellFormed(env, p.db) && Create(env, oracle, p, members, derivedFrom).ok
    requires d == Create(env, oracle, p, members, derivedFrom).db && id == NextId(p.db, env)
    ensures id !in p.db.scenes && LiveTopic(d, id) && d.scenes[id].atomIds == members
    ensures d.scenes[id].derivedFrom == Keep(derivedFrom, None) && d.scenes[id].supersededBy == None
    ensures forall x :: x != id ==> Untouched(p.db, d, x)
  {
    var w := NewTopic(env, p.db, members).(derivedFrom := derivedFrom);
    UpsertFrame(env, oracle, Mint(p.db), id, w);
    UpsertStores(env, oracle, Mint(p.db), id, w);
  }

  lemma RetireLinks(env: Env, oracle: Oracle, db: Db, row: Row, successor: string, d: Db)
    requires row.id in db.scenes
    requires Upsert(env, oracle, db, row.id, RetireTopic(row).(supersededBy := Given(Some([successor])))) == Out(d, true)
    ensures row.id in d.scenes && d.scenes[row.id].status == Retired && d.scenes[row.id].atomIds == row.scene.atomIds
    ensures d.scenes[row.id].kind == Topic
    ensures d.scenes[row.id].supersededBy == Some([successor]) && d.scenes[row.id].derivedFrom == db.scenes[row.id].derivedFrom
    ensures forall x :: x != row.id ==> Untouched(db, d, x)
  {
    var w := RetireTopic(row).(supersededBy := Given(Some([successor])));
    UpsertFrame(env, oracle, db, row.id, w);
    UpsertStores(env, oracle, db, row.id, w);
  }

  /** A topic replaced for churn is kept, retired, and linked both ways to its fresh successor;
      no other scene changes. */
  lemma ReorganiseLinks(env: Env, oracle: Oracle, p: Progress, row: Row, members: seq<string>, d: Db, id: string)
    requires CollisionFree(env) && WellFormed(env, p.db) && row.id in p.db.scenes
    requires Reorganise(env, oracle, p, row, members).ok
    requires d == Reorganise(env, oracle, p, row, members).db && id == NextId(p.db, env)
    ensures id !in p.db.scenes && LiveTopic(d, id) && d.scenes[id].atomIds == members
    ensures d.scenes[id].derivedFrom == Some([row.id]) && d.scenes[id].supersededBy == None
    ensures d.scenes[row.id].kind == Topic && d.scenes[row.id].status == Retired && d.scenes[row.id].atomIds == row.scene.atomIds
    ensures d.scenes[row.id].supersededBy == Some([id]) && d.scenes[row.id].derivedFrom == p.db.scenes[row.id].derivedFrom
    ensures forall x :: x != id && x != row.id ==> Untouched(p.db, d, x)
  {
    var c := Create(env, oracle, p.(matched := p.matched + {row.id}), members, Given(Some([row.id])));
    CreateLinks(env, oracle, p.(matched := p.matched + {row.id}), members, Given(Some([row.id])), c.db, id);
    assert row.id != id && Untouched(p.db, c.db, row.id);
    RetireLinks(env, oracle, c.db, row, id, d);
    forall x | x != id && x != row.id ensures Untouched(p.db, d, x) {
      assert Untouched(p.db, c.db, x) && Untouched(c.db, d, x);
    }
  }

  /** A topic that is kept changes its members and nothing else a reader sees. */
  lemma ContinueKeeps(env: Env, oracle: Oracle, p: Progress, row: Row, members: seq<string>, d: Db)
    requires LiveTopic(p.db, row.id) && row.scene == p.db.scenes[row.id]
    requires Continue(env, oracle, p, row, members).ok && d == Continue(env, oracle, p, row, members).db
    ensures row.id in d.scenes && d.scenes[row.id] == row.scene.(atomIds := members, renderHash := d.scenes[row.id].renderHash)
    ensures forall x :: x != row.id ==> Untouched(p.db, d, x)
  {
    UpsertFrame(env, oracle, p.db, row.id, KeepTopic(row, members));
    UpsertStores(env, oracle, p.db, row.id, KeepTopic(row, members));
  }
}
