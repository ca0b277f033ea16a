/**
 What a pass never takes away, wherever it stops: no scene is lost, none changes its kind,
 sessions' scenes are episodes, and the member list of a topic is one without repetition or
 the list it had. Each phase is taken from the store it read its rows from, so that what a
 later write does to a scene can be told from the row alone.
 */
module Growth {
  import opened Tables
  import opened TextOrder
  import opened Scenes
  import opened SceneFrames
  import opened Topics
  import opened TopicProofs
  import opened TopicFixedPoint
  import opened Reconcile
  import opened Effects
  import ReconcileProofs
  import Runs

  ghost predicate IsTopic(db: Db, id: string) {
    id in db.scenes && db.scenes[id].kind == Topic
  }

  ghost predicate Grows(db: Db, d: Db) {
    forall id :: id in db.scenes ==> id in d.scenes
  }

  /** Scenes keep their kind, and a new one named by a session is an episode. */
  ghost predicate KindsKept(env: Env, db: Db, d: Db) {
    && (forall id :: id in db.scenes ==> id in d.scenes && d.scenes[id].kind == db.scenes[id].kind)
    && (forall s :: (env.episodeId)(s) in d.scenes && (env.episodeId)(s) !in db.scenes ==> d.scenes[(env.episodeId)(s)].kind == Episode)
  }

  /** A member list a topic may have after a step from `db`. */
  ghost predicate ListFor(db: Db, id: string, atomIds: seq<string>) {
    Distinct(atomIds) || (id in db.scenes && atomIds == db.scenes[id].atomIds)
  }

  ghost predicate ListsKept(db: Db, d: Db) {
    forall id :: IsTopic(d, id) ==> ListFor(db, id, d.scenes[id].atomIds)
  }

  ghost predicate Grown(env: Env, base: Db, db: Db) {
    KindsKept(env, base, db) && ListsKept(base, db)
  }

  lemma GrownFromSelf(env: Env, db: Db, d: Db)
    requires d.scenes == db.scenes
    ensures Grown(env, db, d)
  {
  }

  lemma GrownThen(env: Env, a: Db, b: Db, c: Db)
    requires Grown(env, a, b) && Grown(env, b, c)
    ensures Grown(env, a, c)
  {
    forall s | (env.episodeId)(s) in c.scenes && (env.episodeId)(s) !in a.scenes
      ensures c.scenes[(env.episodeId)(s)].kind == Episode
    {
      if (env.episodeId)(s) in b.scenes { assert b.scenes[(env.episodeId)(s)].kind == Episode; }
    }
    forall id | IsTopic(c, id) ensures ListFor(a, id, c.scenes[id].atomIds) {
      assert ListFor(b, id, c.scenes[id].atomIds);
      if id in b.scenes { assert IsTopic(b, id) && ListFor(a, id, b.scenes[id].atomIds); }
    }
  }

  lemma GrownTyped(env: Env, db: Db, d: Db)
    requires EpisodesTyped(env, db) && Grown(env, db, d)
    ensures EpisodesTyped(env, d)
  {
  }

  /** A write that keeps what `base` fixed keeps the whole store grown from it. */
  lemma WriteGrown(env: Env, oracle: Oracle, base: Db, db: Db, id: string, w: SceneWrite)
    requires Grown(env, base, db)
    requires if id in db.scenes then w.kind == db.scenes[id].kind else w.kind == Episode || forall s :: (env.episodeId)(s) != id
    requires w.kind == Topic ==> ListFor(base, id, w.atomIds)
    ensures Grown(env, base, Upsert(env, oracle, db, id, w).db)
  {
    var d := Upsert(env, oracle, db, id, w).db;
    UpsertFrame(env, oracle, db, id, w);
    assert d.scenes[id].kind == w.kind && d.scenes[id].atomIds == w.atomIds;
    forall x | IsTopic(d, x) ensures ListFor(base, x, d.scenes[x].atomIds) {
      if x != id { assert IsTopic(db, x); }
    }
  }

  // ----- Episodes

  lemma {:induction false} EpisodesGrown(env: Env, oracle: Oracle, base: Db, db: Db, sessions: seq<string>)
    requires EpisodesTyped(env, base) && Grown(env, base, db)
    ensures Grown(env, base, EpisodePhase(env, oracle, db, sessions).db)
    decreases |sessions|
  {
    if sessions != [] {
      var o := EpisodeStep(env, oracle, db, sessions[0]);
      EpisodeGrown(env, oracle, base, db, sessions[0]);
      if o.ok { EpisodesGrown(env, oracle, base, o.db, sessions[1..]); }
    }
  }

  lemma EpisodeGrown(env: Env, oracle: Oracle, base: Db, db: Db, session: string)
    requires EpisodesTyped(env, base) && Grown(env, base, db)
    ensures Grown(env, base, EpisodeStep(env, oracle, db, session).db)
  {
    var id := (env.episodeId)(session);
    var members := SessionAtoms(db.mem, session);
    GrownTyped(env, base, db);
    if members != [] {
      WriteGrown(env, oracle, base, db, id, Structural(Episode, EpisodeTitle(db, id, session), members, Live));
    } else if id in db.scenes {
      WriteGrown(env, oracle, base, db, id, Structural(Episode, db.scenes[id].title, [], Retired));
    }
  }

  // ----- Topics

  /** Rows read from `base`. */
  ghost predicate ReadFrom(base: Db, rows: seq<Row>) {
    forall r <- rows :: r.id in base.scenes && base.scenes[r.id] == r.scene
  }

  ghost predicate TopicsFrom(base: Db, rows: seq<Row>) {
    ReadFrom(base, rows) && forall r <- rows :: r.scene.kind == Topic
  }

  lemma CreateGrown(env: Env, oracle: Oracle, base: Db, db: Db, w: SceneWrite)
    requires CollisionFree(env) && WellFormed(env, db) && Grown(env, base, db) && Distinct(w.atomIds)
    ensures Grown(env, base, Upsert(env, oracle, Mint(db), NextId(db, env), w).db)
  {
    assert Grown(env, base, Mint(db)) by {
      GrownFromSelf(env, db, Mint(db));
      GrownThen(env, base, db, Mint(db));
    }
    WriteGrown(env, oracle, base, Mint(db), NextId(db, env), w);
  }

  lemma PlaceGrown(env: Env, oracle: Oracle, opts: Options, base: Db, existing: seq<Row>, p: Progress, members: seq<string>,
                   q: Progress)
    requires CollisionFree(env) && WellFormed(env, p.db) && Grown(env, base, p.db) && TopicsFrom(base, existing)
    requires Distinct(members) && q == PlaceCluster(env, oracle, opts, existing, p, members)
    ensures Grown(env, base, q.db)
  {
    var j := Chosen(members, existing, p.matched, opts.matchThreshold);
    if j < 0 {
      CreateGrown(env, oracle, base, p.db, NewTopic(env, p.db, members).(derivedFrom := Omitted));
    } else {
      var row := existing[j];
      assert row in existing;
      if q == Continue(env, oracle, p, row, members) {
        WriteGrown(env, oracle, base, p.db, row.id, KeepTopic(row, members));
      } else {
        ReorganiseGrown(env, oracle, base, p, row, members);
      }
    }
  }

  lemma ReorganiseGrown(env: Env, oracle: Oracle, base: Db, p: Progress, row: Row, members: seq<string>)
    requires CollisionFree(env) && WellFormed(env, p.db) && Grown(env, base, p.db) && TopicsFrom(base, [row]) && Distinct(members)
    ensures Grown(env, base, Reorganise(env, oracle, p, row, members).db)
  {
    assert row in [row];
    var created := NewTopic(env, p.db, members).(derivedFrom := Given(Some([row.id])));
    var c := Upsert(env, oracle, Mint(p.db), NextId(p.db, env), created);
    CreateGrown(env, oracle, base, p.db, created);
    WriteGrown(env, oracle, base, c.db, row.id, RetireTopic(row).(supersededBy := Given(Some([NextId(p.db, env)]))));
  }

  lemma {:induction false} PlaceAllGrown(env: Env, oracle: Oracle, opts: Options, base: Db, existing: seq<Row>, p: Progress,
                                         clusters: seq<seq<string>>)
    requires CollisionFree(env) && WellFormed(env, p.db) && Grown(env, base, p.db) && TopicsFrom(base, existing)
    requires forall members <- clusters :: Distinct(members)
    ensures Grown(env, base, PlaceAll(env, oracle, opts, existing, p, clusters).db)
    decreases |clusters|
  {
    if clusters != [] && p.ok {
      var next := PlaceCluster(env, oracle, opts, existing, p, clusters[0]);
      assert clusters[0] in clusters && forall members <- clusters[1..] :: members in clusters;
      PlaceGrown(env, oracle, opts, base, existing, p, clusters[0], next);
      Runs.PlaceKept(env, oracle, opts, existing, p, clusters[0]);
      PlaceAllGrown(env, oracle, opts, base, existing, next, clusters[1..]);
    }
  }

  lemma {:induction false} RetireGrown(env: Env, oracle: Oracle, base: Db, db: Db, existing: seq<Row>, matched: set<string>)
    requires Grown(env, base, db) && TopicsFrom(base, existing)
    ensures Grown(env, base, RetireUnmatched(env, oracle, db, existing, matched).db)
    decreases |existing|
  {
    if existing != [] {
      assert existing[0] in existing && forall r <- existing[1..] :: r in existing;
      if existing[0].id in matched {
        RetireGrown(env, oracle, base, db, existing[1..], matched);
      } else {
        var o := Upsert(env, oracle, db, existing[0].id, RetireTopic(existing[0]));
        WriteGrown(env, oracle, base, db, existing[0].id, RetireTopic(existing[0]));
        if o.ok { RetireGrown(env, oracle, base, o.db, existing[1..], matched); }
      }
    }
  }

  lemma TopicsGrown(env: Env, oracle: Oracle, opts: Options, db: Db)
    requires CollisionFree(env) && WellFormed(env, db) && Distinct(db.mem.atomRows)
    ensures Grown(env, db, TopicPhase(env, oracle, opts, db).db)
  {
    var existing := TopicRows(db, db.sceneRows);
    TopicRowsAre(db, db.sceneRows);
    GrownFromSelf(env, db, db);
    if SortedActive(db.mem) == [] {
      RetireGrown(env, oracle, db, db, existing, {});
    } else {
      var clusters := DerivedClusters(opts, db.mem);
      var p := PlaceAll(env, oracle, opts, existing, Start(db), clusters);
      DerivedClustersPartition(opts, db.mem);
      PlaceAllGrown(env, oracle, opts, db, existing, Start(db), clusters);
      RetireGrown(env, oracle, db, p.db, existing, p.matched);
    }
  }

  // ----- Narration

  lemma {:induction false} NarrateGrown(env: Env, oracle: Oracle, base: Db, db: Db, rows: seq<Row>)
    requires Grown(env, base, db) && ReadFrom(base, rows)
    ensures Grown(env, base, Narrate(env, oracle, db, rows).db)
    decreases |rows|
  {
    if rows != [] {
      assert rows[0] in rows && forall r <- rows[1..] :: r in rows;
      var n := NarrateOne(env, oracle, db, rows[0]);
      NarrateOneGrown(env, oracle, base, db, rows[0]);
      if n.ok { NarrateGrown(env, oracle, base, n.db, rows[1..]); }
    }
  }

  lemma NarrateOneGrown(env: Env, oracle: Oracle, base: Db, db: Db, row: Row)
    requires Grown(env, base, db) && row.id in base.scenes && base.scenes[row.id] == row.scene
    ensures Grown(env, base, NarrateOne(env, oracle, db, row).db)
  {
    var words := Compose(oracle, db, row);
    ReconcileProofs.ComposeFrame(oracle, db, row);
    GrownFromSelf(env, db, words.db);
    GrownThen(env, base, db, words.db);
    WriteGrown(env, oracle, base, words.db, row.id, NarrationWrite(row, words, SceneHash(env, db.mem, row.scene.kind, row.scene.atomIds)));
  }

  lemma {:induction false} LiveRowsReadFrom(db: Db, ids: seq<string>)
    ensures ReadFrom(db, LiveRows(db, ids))
  {
    if ids != [] { LiveRowsReadFrom(db, ids[1..]); }
  }

  // ----- The pass

  lemma ScenesGrown(env: Env, oracle: Oracle, opts: Options, db: Db, e: Db, t: Db)
    requires CollisionFree(env) && Fit(env, db)
    requires e == EpisodePhase(env, oracle, db, Sessions(db.mem)).db && t == TopicPhase(env, oracle, opts, e).db
    ensures Grown(env, db, e) && Grown(env, db, t)
  {
    GrownFromSelf(env, db, db);
    EpisodesGrown(env, oracle, db, db, Sessions(db.mem));
    Runs.EpisodesKept(env, oracle, db, Sessions(db.mem));
    TopicsGrown(env, oracle, opts, e);
    GrownThen(env, db, e, t);
  }

  lemma WordsGrown(env: Env, oracle: Oracle, db: Db, t: Db, n: Db)
    requires Grown(env, db, t) && n == Narrate(env, oracle, t, LiveRows(t, t.sceneRows)).db
    ensures Grown(env, db, n)
  {
    LiveRowsReadFrom(t, t.sceneRows);
    GrownFromSelf(env, t, t);
    NarrateGrown(env, oracle, t, t, LiveRows(t, t.sceneRows));
    GrownThen(env, db, t, n);
  }

  lemma PassGrown(env: Env, oracle: Oracle, opts: Options, db: Db, d: Db)
    requires CollisionFree(env) && Fit(env, db) && d == Pass(env, oracle, opts, db).db
    ensures Grown(env, db, d)
  {
    var e := EpisodePhase(env, oracle, db, Sessions(db.mem));
    var t := TopicPhase(env, oracle, opts, e.db);
    var n := Narrate(env, oracle, t.db, LiveRows(t.db, t.db.sceneRows));
    ScenesGrown(env, oracle, opts, db, e.db, t.db);
    WordsGrown(env, oracle, db, t.db, n.db);
    Runs.FinishFrame(env, oracle, n);
    assert d.scenes == e.db.scenes || d.scenes == t.db.scenes || d.scenes == n.db.scenes;
  }

  /** What a history of passes asks of a store. */
  ghost predicate Fit(env: Env, db: Db) {
    WellFormed(env, db) && EpisodesTyped(env, db) && Distinct(db.mem.atomRows)
  }

  /** It is kept by every pass, wherever it stops. */
  lemma PassKeepsFit(env: Env, oracle: Oracle, opts: Options, db: Db, d: Db)
    requires CollisionFree(env) && Fit(env, db) && d == Pass(env, oracle, opts, db).db
    ensures Fit(env, d) && Grows(db, d) && KindsKept(env, db, d) && ListsKept(db, d)
  {
    PassGrown(env, oracle, opts, db, d);
    GrownTyped(env, db, d);
    Runs.PassKept(env, oracle, opts, db, Pass(env, oracle, opts, db));
  }
}
