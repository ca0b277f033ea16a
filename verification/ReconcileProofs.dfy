/**
 Reconciliation is idempotent. A pass that returns leaves a settled store, from any
 earlier state of the scenes; and a pass over a settled store, whatever the two remote
 services would answer, calls neither of them and changes nothing.

 The proof follows the pass: episodes, topics, narration and core each leave their part of
 a settled store, and keep the parts before it.
 */
module ReconcileProofs {
  import opened Tables
  import opened TextOrder
  import opened Text
  import opened Scenes
  import opened SceneFrames
  import opened Topics
  import opened TopicProofs
  import opened TopicFixedPoint
  import opened Reconcile

  // ----- The parts of a settled store

  ghost predicate EpisodeSettled(env: Env, d: Db, session: string) {
    var id := (env.episodeId)(session);
    var members := SessionAtoms(d.mem, session);
    if members == [] then
      id in d.scenes ==>
        && d.scenes[id].kind == Episode && d.scenes[id].status == Retired && d.scenes[id].atomIds == []
        && Rendered(env, d, id)
    else
      && id in d.scenes
      && d.scenes[id].kind == Episode && d.scenes[id].status == Live && d.scenes[id].atomIds == members
      && Rendered(env, d, id)
  }

  ghost predicate Narrates(env: Env, d: Db, id: string) {
    id in d.scenes
    && d.scenes[id].contentHash == Some(SceneHash(env, d.mem, d.scenes[id].kind, d.scenes[id].atomIds))
  }

  ghost predicate AllNarrated(env: Env, d: Db) {
    forall id :: IsLive(d, id) ==> Narrates(env, d, id)
  }

  ghost predicate CoreCurrent(env: Env, d: Db) {
    if NoLiveScenes(d) then d.core == "" && d.coreState == None
    else d.coreState == Some(CoreHash(env, d))
  }

  ghost predicate SettledStore(env: Env, opts: Options, d: Db) {
    && WellFormed(env, d) && Distinct(d.mem.atomRows)
    && (forall s :: s in Sessions(d.mem) ==> EpisodeSettled(env, d, s))
    && (exists carriers :: TopicsCurrent(env, opts, d, carriers))
    && AllNarrated(env, d)
    && CoreCurrent(env, d)
  }

  // ----- A pass over a settled store does nothing

  lemma EpisodeAtRest(env: Env, oracle: Oracle, d: Db, session: string)
    requires EpisodeSettled(env, d, session)
    ensures EpisodeStep(env, oracle, d, session) == Out(d, true)
  {
    var id := (env.episodeId)(session);
    var members := SessionAtoms(d.mem, session);
    if id in d.scenes {
      var w := if members == [] then Structural(Episode, d.scenes[id].title, [], Retired)
               else Structural(Episode, d.scenes[id].title, members, Live);
      UpsertNoop(env, oracle, d, id, w);
    }
  }

  lemma {:induction false} EpisodesAtRest(env: Env, oracle: Oracle, d: Db, sessions: seq<string>)
    requires forall s :: s in sessions ==> EpisodeSettled(env, d, s)
    ensures EpisodePhase(env, oracle, d, sessions) == Out(d, true)
    decreases |sessions|
  {
    if sessions != [] {
      EpisodeAtRest(env, oracle, d, sessions[0]);
      EpisodesAtRest(env, oracle, d, sessions[1..]);
    }
  }

  lemma {:induction false} LiveRowsAre(d: Db, ids: seq<string>)
    requires Distinct(ids)
    ensures forall r :: r in LiveRows(d, ids) <==> r.id in ids && IsLive(d, r.id) && r.scene == d.scenes[r.id]
    ensures DistinctRows(LiveRows(d, ids))
  {
    if ids != [] {
      LiveRowsAre(d, ids[1..]);
      assert ids == [ids[0]] + ids[1..];
      var rest := LiveRows(d, ids[1..]);
      forall i | 0 <= i < |rest| ensures rest[i].id != ids[0] {
        assert rest[i] in rest;
      }
    }
  }

  lemma {:induction false} NarrateAtRest(env: Env, oracle: Oracle, d: Db, rows: seq<Row>)
    requires AllNarrated(env, d)
    requires forall r :: r in rows ==> IsLive(d, r.id) && r.scene == d.scenes[r.id]
    ensures Narrate(env, oracle, d, rows) == Narrated(d, true, 0)
    decreases |rows|
  {
    if rows != [] {
      assert Narrates(env, d, rows[0].id);
      NarrateAtRest(env, oracle, d, rows[1..]);
    }
  }

  lemma SynthesiseAtRest(env: Env, oracle: Oracle, d: Db)
    requires CoreCurrent(env, d)
    ensures Synthesise(env, oracle, d) == Synthesised(d, false)
  {
  }

  lemma PassAtRest(env: Env, oracle: Oracle, opts: Options, d: Db)
    requires opts.matchThreshold <= 1.0 && opts.reorgThreshold > 0.0
    requires SettledStore(env, opts, d)
    ensures Pass(env, oracle, opts, d) == Out(d.(dirty := false), true)
  {
    EpisodesAtRest(env, oracle, d, Sessions(d.mem));
    var carriers :| TopicsCurrent(env, opts, d, carriers);
    TopicsAtRest(env, oracle, opts, d, carriers);
    LiveRowsAre(d, d.sceneRows);
    NarrateAtRest(env, oracle, d, LiveRows(d, d.sceneRows));
    SynthesiseAtRest(env, oracle, d);
  }

  // ----- A pass that returns settles the store

  lemma EpisodeStepSettles(env: Env, oracle: Oracle, db: Db, session: string)
    requires EpisodeStep(env, oracle, db, session).ok
    ensures var d := EpisodeStep(env, oracle, db, session).db;
            && EpisodeSettled(env, d, session)
            && (d == db || OnlyScene(db, d, (env.episodeId)(session)))
  {
    var id := (env.episodeId)(session);
    var members := SessionAtoms(db.mem, session);
    if members == [] {
      if id in db.scenes {
        var w := Structural(Episode, db.scenes[id].title, [], Retired);
        UpsertFrame(env, oracle, db, id, w);
        UpsertStores(env, oracle, db, id, w);
      }
    } else {
      var w := Structural(Episode, EpisodeTitle(db, id, session), members, Live);
      UpsertFrame(env, oracle, db, id, w);
      UpsertStores(env, oracle, db, id, w);
    }
  }

  lemma EpisodeElsewhere(env: Env, db: Db, d: Db, id: string, session: string)
    requires EpisodeSettled(env, db, session)
    requires OnlyScene(db, d, id) && (env.episodeId)(session) != id
    ensures EpisodeSettled(env, d, session)
  {
  }

  /** Only the scene tables and the embedder count have changed. */
  ghost predicate ScenesOnly(db: Db, d: Db) {
    d == db.(scenes := d.scenes, sceneRows := d.sceneRows, sceneVecs := d.sceneVecs, embedCalls := d.embedCalls)
  }

  lemma EpisodeTurn(env: Env, oracle: Oracle, db: Db, done: seq<string>, rest: seq<string>)
    requires CollisionFree(env) && WellFormed(env, db) && Distinct(done + rest) && rest != []
    requires forall s :: s in done ==> EpisodeSettled(env, db, s)
    requires EpisodeStep(env, oracle, db, rest[0]).ok
    ensures var d := EpisodeStep(env, oracle, db, rest[0]).db;
            && WellFormed(env, d) && ScenesOnly(db, d)
            && forall s :: s in done + [rest[0]] ==> EpisodeSettled(env, d, s)
  {
    var d := EpisodeStep(env, oracle, db, rest[0]).db;
    EpisodeStepSettles(env, oracle, db, rest[0]);
    if d != db {
      OnlySceneKeepsWellFormed(env, db, d, (env.episodeId)(rest[0]));
      forall s | s in done ensures EpisodeSettled(env, d, s) {
        StayApart(done, rest, s);
        EpisodeElsewhere(env, db, d, (env.episodeId)(rest[0]), s);
      }
    }
  }

  lemma {:induction false} EpisodesSettle(env: Env, oracle: Oracle, db: Db, done: seq<string>, rest: seq<string>)
    requires CollisionFree(env) && WellFormed(env, db) && Distinct(done + rest)
    requires forall s :: s in done ==> EpisodeSettled(env, db, s)
    requires EpisodePhase(env, oracle, db, rest).ok
    ensures var d := EpisodePhase(env, oracle, db, rest).db;
            && WellFormed(env, d) && ScenesOnly(db, d)
            && forall s :: s in done + rest ==> EpisodeSettled(env, d, s)
    decreases |rest|
  {
    if rest == [] {
      assert done + rest == done;
    } else {
      EpisodeTurn(env, oracle, db, done, rest);
      MoveHead(done, rest);
      EpisodesSettle(env, oracle, EpisodeStep(env, oracle, db, rest[0]).db, done + [rest[0]], rest[1..]);
    }
  }

  lemma StayApart(done: seq<string>, rest: seq<string>, s: string)
    requires Distinct(done + rest) && s in done && rest != []
    ensures s != rest[0]
  {
    var i :| 0 <= i < |done| && done[i] == s;
    assert (done + rest)[i] == s && (done + rest)[|done|] == rest[0];
  }

  lemma TopicsKeepEpisode(env: Env, db: Db, d: Db, session: string)
    requires CollisionFree(env) && EpisodeSettled(env, db, session) && TopicsOnly(env, db, d)
    ensures EpisodeSettled(env, d, session)
  {
    var id := (env.episodeId)(session);
    assert !Minted(env, id);
    if id in db.scenes {
      assert Untouched(db, d, id);
    }
  }

  /** Narration keeps which scenes there are, their kind, members and status, and leaves
      every vector it touches up to date. */
  ghost predicate SameShape(env: Env, db: Db, d: Db) {
    && d == db.(scenes := d.scenes, sceneVecs := d.sceneVecs, embedCalls := d.embedCalls, llmCalls := d.llmCalls)
    && d.scenes.Keys == db.scenes.Keys
    && forall id :: id in db.scenes ==>
         && d.scenes[id].kind == db.scenes[id].kind
         && d.scenes[id].atomIds == db.scenes[id].atomIds
         && d.scenes[id].status == db.scenes[id].status
         && (Rendered(env, db, id) ==> Rendered(env, d, id))
  }

  lemma SameShapeTrans(env: Env, a: Db, b: Db, c: Db)
    requires SameShape(env, a, b) && SameShape(env, b, c)
    ensures SameShape(env, a, c)
  {
  }

  lemma ComposeFrame(oracle: Oracle, db: Db, row: Row)
    ensures Compose(oracle, db, row).db == db.(llmCalls := Compose(oracle, db, row).db.llmCalls)
  {
  }

  /** A write of the stored kind, members and status keeps the store's shape. */
  lemma WriteKeepsShape(env: Env, oracle: Oracle, db: Db, id: string, w: SceneWrite)
    requires id in db.scenes && w.kind == db.scenes[id].kind && w.atomIds == db.scenes[id].atomIds
    requires w.status == Given(db.scenes[id].status)
    requires Upsert(env, oracle, db, id, w).ok
    ensures var d := Upsert(env, oracle, db, id, w).db;
            && SameShape(env, db, d)
            && (forall x :: x in db.scenes && x != id ==> d.scenes[x] == db.scenes[x])
            && (w.contentHash.Given? ==> d.scenes[id].contentHash == w.contentHash.value)
  {
    var d := Upsert(env, oracle, db, id, w).db;
    UpsertFrame(env, oracle, db, id, w);
    UpsertStores(env, oracle, db, id, w);
    forall x | x in db.scenes && x != id && Rendered(env, db, x) ensures Rendered(env, d, x) {
      OnlySceneKeepsRendered(env, db, d, id, x);
    }
  }

  /** The title a reply becomes: trimmed, cut to 200 characters, the old one if nothing is left. */
  function Retitled(reply: string, previous: string): string {
    var cut := SliceTo(Trim(reply), 200);
    if cut == "" then previous else cut
  }

  lemma ComposedWords(oracle: Oracle, db: Db, row: Row, words: Words)
    requires words == Compose(oracle, db, row) && exists id <- row.scene.atomIds :: IsActive(db.mem, id)
    ensures var title, summary := (oracle.llm)(db.llmCalls), (oracle.llm)(db.llmCalls + 1);
            && (if words.title == "" then row.scene.title else words.title)
               == (if title.Some? then Retitled(title.value, row.scene.title) else row.scene.title)
            && words.summary == (if title.Some? && summary.Some? then Some(Trim(summary.value)) else row.scene.summary)
            && (words.failed <==> !(title.Some? && summary.Some?))
  {
  }

  lemma WordsStored(env: Env, oracle: Oracle, db: Db, row: Row, hash: string, words: Words, d: Db)
    requires Upsert(env, oracle, db, row.id, NarrationWrite(row, words, hash)) == Out(d, true)
    ensures row.id in d.scenes
    ensures var after := d.scenes[row.id];
            && after.title == (if words.title == "" then row.scene.title else words.title)
            && after.summary == words.summary
            && after.contentHash == (if words.failed then row.scene.contentHash else Some(hash))
            && after.kind == row.scene.kind && after.atomIds == row.scene.atomIds && after.status == Live
  {
    UpsertStores(env, oracle, db, row.id, NarrationWrite(row, words, hash));
  }

  /** What narrating a changed scene leaves behind. A failed call keeps the old content hash,
      so the scene is narrated again next time; when only the second call fails the new title
      stays beside the old summary. */
  lemma NarrationOutcome(env: Env, oracle: Oracle, db: Db, row: Row, hash: string, n: Narrated)
    requires hash == SceneHash(env, db.mem, row.scene.kind, row.scene.atomIds)
    requires row.scene.contentHash != Some(hash) && exists id <- row.scene.atomIds :: IsActive(db.mem, id)
    requires n == NarrateOne(env, oracle, db, row) && n.ok
    ensures row.id in n.db.scenes
    ensures var before, after := row.scene, n.db.scenes[row.id];
            var title, summary := (oracle.llm)(db.llmCalls), (oracle.llm)(db.llmCalls + 1);
            && after.title == (if title.Some? then Retitled(title.value, before.title) else before.title)
            && after.summary == (if title.Some? && summary.Some? then Some(Trim(summary.value)) else before.summary)
            && after.contentHash == (if title.Some? && summary.Some? then Some(hash) else before.contentHash)
            && (n.failed == 0 <==> title.Some? && summary.Some?)
            && after.kind == before.kind && after.atomIds == before.atomIds && after.status == Live
  {
    var words := Compose(oracle, db, row);
    ComposedWords(oracle, db, row, words);
    WordsStored(env, oracle, words.db, row, hash, words, n.db);
  }

  lemma NarrateOneShape(env: Env, oracle: Oracle, db: Db, row: Row)
    requires IsLive(db, row.id) && row.scene == db.scenes[row.id]
    requires NarrateOne(env, oracle, db, row).ok
    ensures var n := NarrateOne(env, oracle, db, row);
            && SameShape(env, db, n.db)
            && (forall x :: x in db.scenes && x != row.id ==> n.db.scenes[x] == db.scenes[x])
            && (n.failed == 0 ==> Narrates(env, n.db, row.id))
  {
    var hash := SceneHash(env, db.mem, row.scene.kind, row.scene.atomIds);
    if row.scene.contentHash != Some(hash) {
      var words := Compose(oracle, db, row);
      ComposeFrame(oracle, db, row);
      var w := NarrationWrite(row, words, hash);
      WriteKeepsShape(env, oracle, words.db, row.id, w);
      SameShapeTrans(env, db, words.db, Upsert(env, oracle, words.db, row.id, w).db);
    }
  }

  lemma {:induction false} NarrateShape(env: Env, oracle: Oracle, db: Db, rows: seq<Row>)
    requires DistinctRows(rows)
    requires forall r :: r in rows ==> IsLive(db, r.id) && r.scene == db.scenes[r.id]
    requires Narrate(env, oracle, db, rows).ok
    ensures var n := Narrate(env, oracle, db, rows);
            && SameShape(env, db, n.db)
            && (forall x :: x in db.scenes && !Listed(rows, x) ==> n.db.scenes[x] == db.scenes[x])
            && (n.failed == 0 ==> forall r :: r in rows ==> Narrates(env, n.db, r.id))
    decreases |rows|
  {
    if rows != [] {
      var row := rows[0];
      var first := NarrateOne(env, oracle, db, row);
      NarrateOneShape(env, oracle, db, row);
      forall r | r in rows[1..] ensures r.id != row.id && IsLive(first.db, r.id) && r.scene == first.db.scenes[r.id] {
        assert r in rows;
      }
      NarrateShape(env, oracle, first.db, rows[1..]);
      NarrateJoins(env, db, row, first.db, rows, Narrate(env, oracle, db, rows).db);
    }
  }

  lemma NarrateJoins(env: Env, db: Db, row: Row, mid: Db, rows: seq<Row>, d: Db)
    requires rows != [] && rows[0] == row && DistinctRows(rows) && row.id in db.scenes
    requires SameShape(env, db, mid) && SameShape(env, mid, d)
    requires forall x :: x in db.scenes && x != row.id ==> mid.scenes[x] == db.scenes[x]
    requires forall x :: x in mid.scenes && !Listed(rows[1..], x) ==> d.scenes[x] == mid.scenes[x]
    ensures SameShape(env, db, d)
    ensures forall x :: x in db.scenes && !Listed(rows, x) ==> d.scenes[x] == db.scenes[x]
    ensures Narrates(env, mid, row.id) ==> Narrates(env, d, row.id)
  {
    SameShapeTrans(env, db, mid, d);
    assert !Listed(rows[1..], row.id);
    forall x | x in db.scenes && !Listed(rows, x) ensures d.scenes[x] == db.scenes[x] {
      assert row in rows;
      assert !Listed(rows[1..], x);
    }
  }

  lemma ShapeKeepsEpisode(env: Env, db: Db, d: Db, session: string)
    requires SameShape(env, db, d) && EpisodeSettled(env, db, session)
    ensures EpisodeSettled(env, d, session)
  {
  }

  lemma ShapeKeepsTopics(env: Env, opts: Options, db: Db, d: Db, carriers: seq<string>)
    requires SameShape(env, db, d) && TopicsCurrent(env, opts, db, carriers)
    ensures TopicsCurrent(env, opts, d, carriers)
  {
    var clusters := DerivedClusters(opts, db.mem);
    forall i | 0 <= i < |clusters| ensures Carries(env, d, carriers[i], clusters[i]) {
      assert Carries(env, db, carriers[i], clusters[i]);
    }
    forall id ensures LiveTopic(d, id) <==> id in carriers {
      assert LiveTopic(db, id) <==> id in carriers;
    }
  }

  lemma CoreHashSame(env: Env, db: Db, d: Db)
    requires d.scenes == db.scenes && d.sceneRows == db.sceneRows && d.mem == db.mem
    ensures NoLiveScenes(d) == NoLiveScenes(db)
    ensures CoreHash(env, d) == CoreHash(env, db)
  {
    var ids := LiveIds(db, db.sceneRows);
    LiveIdsSame(db, d, db.sceneRows);
    SortKeepsMembers(ids);
    CorePartsSame(db, d, SortIds(ids));
  }

  lemma SynthesisFromSettles(oracle: Oracle, db: Db, noScenes: bool, hash: string)
    requires !SynthesiseFrom(oracle, db, noScenes, hash).failed
    ensures var d := SynthesiseFrom(oracle, db, noScenes, hash).db;
            && d == db.(core := d.core, coreState := d.coreState, llmCalls := d.llmCalls)
            && if noScenes then d.core == "" && d.coreState == None else d.coreState == Some(hash)
  {
  }

  lemma SynthesisSettles(env: Env, oracle: Oracle, db: Db, s: Synthesised)
    requires s == Synthesise(env, oracle, db) && !s.failed
    ensures s.db == db.(core := s.db.core, coreState := s.db.coreState, llmCalls := s.db.llmCalls)
    ensures CoreCurrent(env, s.db)
  {
    SynthesisFromSettles(oracle, db, NoLiveScenes(db), CoreHash(env, db));
    CoreHashSame(env, db, s.db);
  }

  lemma {:induction false} LiveIdsSame(db: Db, d: Db, ids: seq<string>)
    requires d.scenes == db.scenes
    ensures LiveIds(d, ids) == LiveIds(db, ids)
  {
    if ids != [] { LiveIdsSame(db, d, ids[1..]); }
  }

  lemma {:induction false} CorePartsSame(db: Db, d: Db, ids: seq<string>)
    requires d.scenes == db.scenes && d.mem == db.mem
    requires forall id :: id in ids ==> id in db.scenes
    ensures CoreParts(d, ids) == CoreParts(db, ids)
  {
    if ids != [] { CorePartsSame(db, d, ids[1..]); }
  }

  // ----- The main results

  lemma NarrationKeepsWellFormed(env: Env, db: Db, d: Db)
    requires WellFormed(env, db) && SameShape(env, db, d)
    ensures WellFormed(env, d)
  {
  }

  /** The scenes after topic reconciliation, with every episode and topic settled. */
  ghost predicate Organised(env: Env, opts: Options, d: Db, carriers: seq<string>) {
    && WellFormed(env, d) && Distinct(d.mem.atomRows)
    && (forall s :: s in Sessions(d.mem) ==> EpisodeSettled(env, d, s))
    && TopicsCurrent(env, opts, d, carriers)
  }

  lemma ShapeKeepsOrganised(env: Env, opts: Options, db: Db, d: Db, carriers: seq<string>)
    requires Organised(env, opts, db, carriers) && SameShape(env, db, d)
    ensures Organised(env, opts, d, carriers)
  {
    NarrationKeepsWellFormed(env, db, d);
    forall s | s in Sessions(d.mem) ensures EpisodeSettled(env, d, s) {
      ShapeKeepsEpisode(env, db, d, s);
    }
    ShapeKeepsTopics(env, opts, db, d, carriers);
  }

  lemma ScenesOrganised(env: Env, oracle: Oracle, opts: Options, db: Db, e: Out, t: Progress)
    requires CollisionFree(env) && WellFormed(env, db) && Distinct(db.mem.atomRows)
    requires e == EpisodePhase(env, oracle, db, Sessions(db.mem)) && e.ok
    requires t == TopicPhase(env, oracle, opts, e.db) && t.ok
    ensures t.db.mem == db.mem && Organised(env, opts, t.db, t.carriers)
  {
    assert [] + Sessions(db.mem) == Sessions(db.mem);
    EpisodesSettle(env, oracle, db, [], Sessions(db.mem));
    TopicsCarryClusters(env, oracle, opts, e.db);
    forall s | s in Sessions(t.db.mem) ensures EpisodeSettled(env, t.db, s) {
      TopicsKeepEpisode(env, e.db, t.db, s);
    }
  }

  lemma NarrationCovers(env: Env, oracle: Oracle, db: Db, n: Narrated)
    requires WellFormed(env, db)
    requires n == Narrate(env, oracle, db, LiveRows(db, db.sceneRows)) && n.ok
    ensures SameShape(env, db, n.db)
    ensures n.failed == 0 ==> AllNarrated(env, n.db)
  {
    var rows := LiveRows(db, db.sceneRows);
    LiveRowsAre(db, db.sceneRows);
    NarrateShape(env, oracle, db, rows);
    if n.failed == 0 {
      forall id | IsLive(n.db, id) ensures Narrates(env, n.db, id) {
        assert Row(id, db.scenes[id]) in rows;
      }
    }
  }

  lemma FinishSettles(env: Env, oracle: Oracle, opts: Options, n: Narrated, carriers: seq<string>)
    requires Organised(env, opts, n.db, carriers) && (n.failed == 0 ==> AllNarrated(env, n.db))
    requires Finish(env, oracle, n).ok
    ensures SettledStore(env, opts, Finish(env, oracle, n).db) && !Finish(env, oracle, n).db.dirty
    ensures Finish(env, oracle, n).db.mem == n.db.mem
  {
    var s := Synthesise(env, oracle, n.db);
    SynthesisSettles(env, oracle, n.db, s);
    var d := Finish(env, oracle, n).db;
    assert d == s.db.(dirty := false);
    CoreHashSame(env, s.db, d);
    OrganisedMoves(env, opts, n.db, d, carriers);
    assert AllNarrated(env, d) by {
      forall id | IsLive(d, id) ensures Narrates(env, d, id) {
        assert Narrates(env, n.db, id);
      }
    }
  }

  lemma OrganisedMoves(env: Env, opts: Options, db: Db, d: Db, carriers: seq<string>)
    requires Organised(env, opts, db, carriers)
    requires d == db.(core := d.core, coreState := d.coreState, llmCalls := d.llmCalls, dirty := d.dirty)
    ensures Organised(env, opts, d, carriers)
  {
    forall s | s in Sessions(d.mem) ensures EpisodeSettled(env, d, s) {
      assert EpisodeSettled(env, db, s);
    }
    var clusters := DerivedClusters(opts, db.mem);
    forall i | 0 <= i < |clusters| ensures Carries(env, d, carriers[i], clusters[i]) {
      assert Carries(env, db, carriers[i], clusters[i]);
    }
    forall id ensures LiveTopic(d, id) <==> id in carriers {
      assert LiveTopic(db, id) <==> id in carriers;
    }
  }

  /** A pass that returns leaves the store clean and settled: every episode mirrors its
      session's evidence, the live topics are the clusters, every live scene's content
      hash and the stored core hash are current. */
  lemma PassSettles(env: Env, oracle: Oracle, opts: Options, db: Db)
    requires CollisionFree(env) && WellFormed(env, db) && Distinct(db.mem.atomRows)
    requires Pass(env, oracle, opts, db).ok
    ensures SettledStore(env, opts, Pass(env, oracle, opts, db).db)
    ensures !Pass(env, oracle, opts, db).db.dirty
    ensures Pass(env, oracle, opts, db).db.mem == db.mem
  {
    var e := EpisodePhase(env, oracle, db, Sessions(db.mem));
    var t := TopicPhase(env, oracle, opts, e.db);
    ScenesOrganised(env, oracle, opts, db, e, t);
    var n := Narrate(env, oracle, t.db, LiveRows(t.db, t.db.sceneRows));
    NarrationCovers(env, oracle, t.db, n);
    ShapeKeepsOrganised(env, opts, t.db, n.db, t.carriers);
    FinishSettles(env, oracle, opts, n, t.carriers);
  }

  /** Idempotence: after a pass that returned, a second pass over unchanged memory - say
      one triggered only by the dirty flag - returns, makes no model call and no embedder
      call even if both services are down, and leaves every table as it was. */
  lemma PassIdempotent(env: Env, first: Oracle, second: Oracle, opts: Options, db: Db, dirty: bool)
    requires opts.matchThreshold <= 1.0 && opts.reorgThreshold > 0.0
    requires CollisionFree(env) && WellFormed(env, db) && Distinct(db.mem.atomRows)
    requires Pass(env, first, opts, db).ok
    ensures var d := Pass(env, first, opts, db).db;
            Pass(env, second, opts, d.(dirty := dirty)) == Out(d, true)
  {
    var d := Pass(env, first, opts, db).db;
    PassSettles(env, first, opts, db);
    SettledIgnoresFlag(env, opts, d, dirty);
    PassAtRest(env, second, opts, d.(dirty := dirty));
    assert d.(dirty := dirty).(dirty := false) == d;
  }

  lemma SettledIgnoresFlag(env: Env, opts: Options, d: Db, dirty: bool)
    requires SettledStore(env, opts, d)
    ensures SettledStore(env, opts, d.(dirty := dirty))
  {
    var f := d.(dirty := dirty);
    var carriers :| TopicsCurrent(env, opts, d, carriers);
    OrganisedMoves(env, opts, d, f, carriers);
    CoreHashSame(env, d, f);
    forall id | IsLive(f, id) ensures Narrates(env, f, id) {
      assert Narrates(env, d, id);
    }
  }
}
