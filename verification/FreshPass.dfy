/**
 The vectors a pass leaves behind. Every summary a pass writes is trimmed, or one that was
 stored already, so the digest of a scene's text stays unambiguous throughout; a pass that
 returns therefore leaves each scene it settled with the embedding of its own text.
 */
module FreshPass {
  import opened Tables
  import opened Text
  import opened TextOrder
  import opened Scenes
  import opened SceneCache
  import opened SceneFrames
  import opened Topics
  import opened TopicProofs
  import opened TopicFixedPoint
  import opened Reconcile
  import opened ReconcileProofs
  import Runs

  /** No summary ends in a line break, and each vector is the embedding its digest names. */
  ghost predicate Cached(env: Env, meaning: string -> Vec, db: Db) {
    CacheBacked(env, meaning, TrimmedSummaries, db)
  }

  predicate Trimmed(summary: Option<string>) { Obeys(TrimmedSummaries, "", summary) }

  lemma {:induction false} TrimEndTrims(s: string)
    ensures TrimEnd(s) == "" || TrimEnd(s)[|TrimEnd(s)| - 1] != '\n'
  {
    if s != "" && IsSpace(s[|s| - 1]) { TrimEndTrims(s[..|s| - 1]); }
  }

  lemma SameTablesCached(env: Env, meaning: string -> Vec, db: Db, d: Db)
    requires Cached(env, meaning, db) && d.scenes == db.scenes && d.sceneVecs == db.sceneVecs
    ensures Cached(env, meaning, d)
  {
    forall id | id in d.sceneVecs ensures Backed(env, meaning, TrimmedSummaries, d, id) {
      assert Backed(env, meaning, TrimmedSummaries, db, id);
      BackingMoves(env, meaning, TrimmedSummaries, db, d, id);
    }
  }

  lemma WriteCached(env: Env, oracle: Oracle, meaning: string -> Vec, db: Db, id: string, w: SceneWrite)
    requires Deterministic(oracle, meaning) && Cached(env, meaning, db) && (w.summary.Given? ==> Trimmed(w.summary.value))
    ensures Cached(env, meaning, Upsert(env, oracle, db, id, w).db)
  {
    ApplyKeepsBacking(env, oracle, meaning, TrimmedSummaries, db, Write(id, w));
  }

  lemma {:induction false} EpisodesCached(env: Env, oracle: Oracle, meaning: string -> Vec, db: Db, sessions: seq<string>)
    requires Deterministic(oracle, meaning) && Cached(env, meaning, db)
    ensures Cached(env, meaning, EpisodePhase(env, oracle, db, sessions).db)
    decreases |sessions|
  {
    if sessions != [] {
      var o := EpisodeStep(env, oracle, db, sessions[0]);
      EpisodeCached(env, oracle, meaning, db, sessions[0]);
      if o.ok { EpisodesCached(env, oracle, meaning, o.db, sessions[1..]); }
    }
  }

  lemma EpisodeCached(env: Env, oracle: Oracle, meaning: string -> Vec, db: Db, session: string)
    requires Deterministic(oracle, meaning) && Cached(env, meaning, db)
    ensures Cached(env, meaning, EpisodeStep(env, oracle, db, session).db)
  {
    var id := (env.episodeId)(session);
    var members := SessionAtoms(db.mem, session);
    if members != [] {
      WriteCached(env, oracle, meaning, db, id, Structural(Episode, EpisodeTitle(db, id, session), members, Live));
    } else if id in db.scenes {
      WriteCached(env, oracle, meaning, db, id, Structural(Episode, db.scenes[id].title, [], Retired));
    }
  }

  lemma CreateCached(env: Env, oracle: Oracle, meaning: string -> Vec, db: Db, w: SceneWrite)
    requires Deterministic(oracle, meaning) && Cached(env, meaning, db) && w.summary.Omitted?
    ensures Cached(env, meaning, Upsert(env, oracle, Mint(db), NextId(db, env), w).db)
  {
    SameTablesCached(env, meaning, db, Mint(db));
    WriteCached(env, oracle, meaning, Mint(db), NextId(db, env), w);
  }

  lemma PlaceCached(env: Env, oracle: Oracle, meaning: string -> Vec, opts: Options, existing: seq<Row>, p: Progress,
                    members: seq<string>)
    requires Deterministic(oracle, meaning) && Cached(env, meaning, p.db)
    ensures Cached(env, meaning, PlaceCluster(env, oracle, opts, existing, p, members).db)
  {
    var j := Chosen(members, existing, p.matched, opts.matchThreshold);
    if j < 0 {
      CreateCached(env, oracle, meaning, p.db, NewTopic(env, p.db, members).(derivedFrom := Omitted));
    } else {
      WriteCached(env, oracle, meaning, p.db, existing[j].id, KeepTopic(existing[j], members));
      ReorganiseCached(env, oracle, meaning, p, existing[j], members);
    }
  }

  lemma ReorganiseCached(env: Env, oracle: Oracle, meaning: string -> Vec, p: Progress, row: Row, members: seq<string>)
    requires Deterministic(oracle, meaning) && Cached(env, meaning, p.db)
    ensures Cached(env, meaning, Reorganise(env, oracle, p, row, members).db)
  {
    var created := NewTopic(env, p.db, members).(derivedFrom := Given(Some([row.id])));
    CreateCached(env, oracle, meaning, p.db, created);
    var c := Upsert(env, oracle, Mint(p.db), NextId(p.db, env), created);
    WriteCached(env, oracle, meaning, c.db, row.id, RetireTopic(row).(supersededBy := Given(Some([NextId(p.db, env)]))));
  }

  lemma {:induction false} PlaceAllCached(env: Env, oracle: Oracle, meaning: string -> Vec, opts: Options,
                                          existing: seq<Row>, p: Progress, clusters: seq<seq<string>>)
    requires Deterministic(oracle, meaning) && Cached(env, meaning, p.db)
    ensures Cached(env, meaning, PlaceAll(env, oracle, opts, existing, p, clusters).db)
    decreases |clusters|
  {
    if clusters != [] && p.ok {
      PlaceCached(env, oracle, meaning, opts, existing, p, clusters[0]);
      PlaceAllCached(env, oracle, meaning, opts, existing, PlaceCluster(env, oracle, opts, existing, p, clusters[0]), clusters[1..]);
    }
  }

  lemma {:induction false} RetireCached(env: Env, oracle: Oracle, meaning: string -> Vec, db: Db, existing: seq<Row>,
                                        matched: set<string>)
    requires Deterministic(oracle, meaning) && Cached(env, meaning, db)
    ensures Cached(env, meaning, RetireUnmatched(env, oracle, db, existing, matched).db)
    decreases |existing|
  {
    if existing != [] {
      if existing[0].id in matched {
        RetireCached(env, oracle, meaning, db, existing[1..], matched);
      } else {
        var o := Upsert(env, oracle, db, existing[0].id, RetireTopic(existing[0]));
        WriteCached(env, oracle, meaning, db, existing[0].id, RetireTopic(existing[0]));
        if o.ok { RetireCached(env, oracle, meaning, o.db, existing[1..], matched); }
      }
    }
  }

  lemma TopicsCached(env: Env, oracle: Oracle, meaning: string -> Vec, opts: Options, db: Db)
    requires Deterministic(oracle, meaning) && Cached(env, meaning, db)
    ensures Cached(env, meaning, TopicPhase(env, oracle, opts, db).db)
  {
    var existing := TopicRows(db, db.sceneRows);
    if SortedActive(db.mem) == [] {
      RetireCached(env, oracle, meaning, db, existing, {});
    } else {
      var clusters := DerivedClusters(opts, db.mem);
      var p := PlaceAll(env, oracle, opts, existing, Start(db), clusters);
      PlaceAllCached(env, oracle, meaning, opts, existing, Start(db), clusters);
      RetireCached(env, oracle, meaning, p.db, existing, p.matched);
    }
  }

  lemma ComposedTrimmed(oracle: Oracle, db: Db, row: Row)
    requires Trimmed(row.scene.summary)
    ensures Trimmed(Compose(oracle, db, row).summary)
  {
    var words := Compose(oracle, db, row);
    if words.summary != row.scene.summary {
      var reply := (oracle.llm)(db.llmCalls + 1).value;
      TrimEndTrims(TrimStart(reply));
    }
  }

  ghost predicate RowsTrimmed(rows: seq<Row>) {
    forall r <- rows :: Trimmed(r.scene.summary)
  }

  lemma {:induction false} NarrateCached(env: Env, oracle: Oracle, meaning: string -> Vec, db: Db, rows: seq<Row>)
    requires Deterministic(oracle, meaning) && Cached(env, meaning, db) && RowsTrimmed(rows)
    ensures Cached(env, meaning, Narrate(env, oracle, db, rows).db)
    decreases |rows|
  {
    if rows != [] {
      assert rows[0] in rows && forall r <- rows[1..] :: r in rows;
      var n := NarrateOne(env, oracle, db, rows[0]);
      NarrateOneCached(env, oracle, meaning, db, rows[0]);
      if n.ok { NarrateCached(env, oracle, meaning, n.db, rows[1..]); }
    }
  }

  lemma NarrateOneCached(env: Env, oracle: Oracle, meaning: string -> Vec, db: Db, row: Row)
    requires Deterministic(oracle, meaning) && Cached(env, meaning, db) && Trimmed(row.scene.summary)
    ensures Cached(env, meaning, NarrateOne(env, oracle, db, row).db)
  {
    var words := Compose(oracle, db, row);
    ComposeFrame(oracle, db, row);
    ComposedTrimmed(oracle, db, row);
    SameTablesCached(env, meaning, db, words.db);
    WriteCached(env, oracle, meaning, words.db, row.id, NarrationWrite(row, words, SceneHash(env, db.mem, row.scene.kind, row.scene.atomIds)));
  }

  lemma {:induction false} LiveRowsTrimmed(env: Env, meaning: string -> Vec, db: Db, ids: seq<string>)
    requires Cached(env, meaning, db)
    ensures RowsTrimmed(LiveRows(db, ids))
  {
    if ids != [] { LiveRowsTrimmed(env, meaning, db, ids[1..]); }
  }

  /** Wherever a pass stops, every vector is the embedding of the text its digest names. */
  lemma PassKeepsCached(env: Env, oracle: Oracle, meaning: string -> Vec, opts: Options, db: Db, d: Db)
    requires Deterministic(oracle, meaning) && Cached(env, meaning, db) && d == Pass(env, oracle, opts, db).db
    ensures Cached(env, meaning, d)
  {
    var e := EpisodePhase(env, oracle, db, Sessions(db.mem));
    var t := TopicPhase(env, oracle, opts, e.db);
    EpisodesCached(env, oracle, meaning, db, Sessions(db.mem));
    TopicsCached(env, oracle, meaning, opts, e.db);
    var n := Narrate(env, oracle, t.db, LiveRows(t.db, t.db.sceneRows));
    LiveRowsTrimmed(env, meaning, t.db, t.db.sceneRows);
    NarrateCached(env, oracle, meaning, t.db, LiveRows(t.db, t.db.sceneRows));
    if e.ok && t.ok && n.ok { FinishCached(env, oracle, meaning, n, d); }
  }

  lemma FinishCached(env: Env, oracle: Oracle, meaning: string -> Vec, n: Narrated, d: Db)
    requires Cached(env, meaning, n.db) && d == Finish(env, oracle, n).db
    ensures Cached(env, meaning, d)
  {
    Runs.SynthesisFrame(oracle, n.db, NoLiveScenes(n.db), CoreHash(env, n.db), Synthesise(env, oracle, n.db).db);
    SameTablesCached(env, meaning, n.db, d);
  }

  /** With a digest that never collides, a current digest means the scene's own embedding. */
  lemma RenderedIsFresh(env: Env, meaning: string -> Vec, db: Db, id: string)
    requires Injective(env.sha) && Cached(env, meaning, db) && Rendered(env, db, id)
    ensures Fresh(env, meaning, db, id)
  {
    var sc := db.scenes[id];
    assert Backed(env, meaning, TrimmedSummaries, db, id);
    var t, s :| Obeys(TrimmedSummaries, t, s) && sc.renderHash == Some(RenderHash(env, t, s)) && db.sceneVecs[id] == meaning(EmbedText(t, s));
    PolicyDisambiguates(TrimmedSummaries, t, s, sc.title, sc.summary);
  }

  /** A pass that returns leaves every session's stored episode and every live topic with the
      embedding of its own title and summary, whatever failed calls and earlier passes did. */
  lemma PassFreshens(env: Env, oracle: Oracle, meaning: string -> Vec, opts: Options, db: Db, d: Db, id: string)
    requires Deterministic(oracle, meaning) && Injective(env.sha) && Cached(env, meaning, db)
    requires CollisionFree(env) && WellFormed(env, db) && Distinct(db.mem.atomRows)
    requires Pass(env, oracle, opts, db) == Out(d, true)
    requires LiveTopic(d, id) || (id in d.scenes && exists s :: s in Sessions(d.mem) && id == (env.episodeId)(s))
    ensures Fresh(env, meaning, d, id)
  {
    PassKeepsCached(env, oracle, meaning, opts, db, d);
    PassSettles(env, oracle, opts, db);
    if LiveTopic(d, id) {
      var carriers :| TopicsCurrent(env, opts, d, carriers);
    } else {
      var s :| s in Sessions(d.mem) && id == (env.episodeId)(s);
      assert EpisodeSettled(env, d, s);
    }
    RenderedIsFresh(env, meaning, d, id);
  }

  // ----- Whole runs

  /** The embedder gives one vector a text, and no caller stores a summary ending in a line break. */
  ghost predicate Orderly(meaning: string -> Vec, step: Runs.Step) {
    match step
    case L2(services) => Deterministic(services, meaning)
    case Reembed(services) => Deterministic(services, meaning)
    case WriteScene(_, w, services) => Deterministic(services, meaning) && (w.summary.Given? ==> Trimmed(w.summary.value))
    case NewScene(w, services) => Deterministic(services, meaning) && (w.summary.Given? ==> Trimmed(w.summary.value))
    case _ => true
  }

  lemma StepCached(env: Env, meaning: string -> Vec, opts: Options, db: Db, step: Runs.Step)
    requires Orderly(meaning, step) && Cached(env, meaning, db)
    ensures Cached(env, meaning, Runs.Do(env, opts, db, step))
  {
    match step
    case L2(services) => PassKeepsCached(env, services, meaning, opts, db, Pass(env, services, opts, db).db);
    case WriteScene(id, w, services) => WriteCached(env, services, meaning, db, id, w);
    case NewScene(w, services) =>
      SameTablesCached(env, meaning, db, Mint(db));
      WriteCached(env, services, meaning, Mint(db), NextId(db, env), w);
    case DropScene(id) => DropCached(env, meaning, db, id);
    case Reembed(services) => ApplyKeepsBacking(env, services, meaning, TrimmedSummaries, db, Rebuild);
    case _ => MemoryStepCached(env, meaning, opts, db, step);
  }

  lemma DropCached(env: Env, meaning: string -> Vec, db: Db, id: string)
    requires Cached(env, meaning, db)
    ensures Cached(env, meaning, Remove(db, id))
  {
    var d := Remove(db, id);
    forall x | x in d.sceneVecs ensures Backed(env, meaning, TrimmedSummaries, d, x) {
      assert Backed(env, meaning, TrimmedSummaries, db, x);
      BackingMoves(env, meaning, TrimmedSummaries, db, d, x);
    }
  }

  lemma MemoryStepCached(env: Env, meaning: string -> Vec, opts: Options, db: Db, step: Runs.Step)
    requires !step.L2? && !step.WriteScene? && !step.NewScene? && !step.DropScene? && !step.Reembed? && Cached(env, meaning, db)
    ensures Cached(env, meaning, Runs.Do(env, opts, db, step))
  {
    SameTablesCached(env, meaning, db, Runs.Do(env, opts, db, step));
  }

  lemma {:induction false} RunsAreCached(env: Env, meaning: string -> Vec, opts: Options, steps: seq<Runs.Step>)
    requires forall step <- steps :: Orderly(meaning, step)
    ensures Cached(env, meaning, Runs.Run(env, opts, steps))
  {
    if steps != [] {
      var n := |steps| - 1;
      assert steps[n] in steps && forall step <- steps[..n] :: step in steps;
      RunsAreCached(env, meaning, opts, steps[..n]);
      StepCached(env, meaning, opts, Runs.Run(env, opts, steps[..n]), steps[n]);
    }
  }

  /** From any state a store can get into, failed calls and interrupted rebuilds included, one
      pass that returns brings the vectors of its scenes up to date. */
  lemma OnePassFreshens(env: Env, meaning: string -> Vec, opts: Options, steps: seq<Runs.Step>, services: Oracle, d: Db,
                        id: string)
    requires CollisionFree(env) && Injective(env.sha) && Deterministic(services, meaning)
    requires Runs.HonestRun(env, opts, steps) && forall step <- steps :: Orderly(meaning, step)
    requires Pass(env, services, opts, Runs.Run(env, opts, steps)) == Out(d, true)
    requires LiveTopic(d, id) || (id in d.scenes && exists s :: s in Sessions(d.mem) && id == (env.episodeId)(s))
    ensures Fresh(env, meaning, d, id)
  {
    Runs.RunsAreSound(env, opts, steps);
    RunsAreCached(env, meaning, opts, steps);
    PassFreshens(env, services, meaning, opts, Runs.Run(env, opts, steps), d, id);
  }
}
