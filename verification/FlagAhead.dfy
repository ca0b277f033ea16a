/**
 What the dirty flag is worth can be told before a pass: whatever the services will do, a
 clear flag afterwards means that the pass returned if and only if the store was dirty, or
 nothing in it needs the embedder or the model. The structural phases are taken without any
 service first; where that works, no service can make them go otherwise.
 */
module FlagAhead {
  import opened Tables
  import opened Text
  import opened TextOrder
  import opened Scenes
  import opened SceneFrames
  import opened Topics
  import opened TopicProofs
  import opened Reconcile
  import opened ReconcileProofs
  import opened Runs
  import Jaccard
  import SceneCache

  /** No service answers. */
  const DOWN := Oracle(_ => None, (_, _) => None)

  /** The embedder never answers. */
  ghost predicate Silent(oracle: Oracle) {
    forall n: nat, text :: (oracle.embed)(n, text) == None
  }

  /** The row's digest is current, or it has nothing to narrate and its vector is current. */
  predicate Quiet(env: Env, db: Db, row: Row) {
    || row.scene.contentHash == Some(SceneHash(env, db.mem, row.scene.kind, row.scene.atomIds))
    || (!Narratable(db, row) && Rendered(env, db, row.id))
  }

  predicate Narratable(db: Db, row: Row) {
    exists id <- row.scene.atomIds :: IsActive(db.mem, id)
  }

  /** Without any service the scenes fall into place, and none of the live ones needs narration. */
  predicate NeedsNothing(env: Env, opts: Options, db: Db) {
    var e := EpisodePhase(env, DOWN, db, Sessions(db.mem));
    e.ok
    && var t := TopicPhase(env, DOWN, opts, e.db);
    t.ok && forall row <- LiveRows(t.db, t.db.sceneRows) :: Quiet(env, t.db, row)
  }

  // ----- The structural phases do not depend on the services unless they need one

  /** The services make no difference to work that ends so without them. */
  ghost predicate Alike(oracle: Oracle, ok: bool) { Silent(oracle) || ok }

  lemma UpsertAlike(env: Env, oracle: Oracle, db: Db, id: string, w: SceneWrite)
    requires Alike(oracle, Upsert(env, DOWN, db, id, w).ok)
    ensures Upsert(env, oracle, db, id, w) == Upsert(env, DOWN, db, id, w)
  {
  }

  lemma EpisodeAlike(env: Env, oracle: Oracle, db: Db, session: string)
    requires Alike(oracle, EpisodeStep(env, DOWN, db, session).ok)
    ensures EpisodeStep(env, oracle, db, session) == EpisodeStep(env, DOWN, db, session)
  {
    var id := (env.episodeId)(session);
    var members := SessionAtoms(db.mem, session);
    if members != [] {
      UpsertAlike(env, oracle, db, id, Structural(Episode, EpisodeTitle(db, id, session), members, Live));
    } else if id in db.scenes {
      UpsertAlike(env, oracle, db, id, Structural(Episode, db.scenes[id].title, [], Retired));
    }
  }

  lemma {:induction false} EpisodesAlike(env: Env, oracle: Oracle, db: Db, sessions: seq<string>)
    requires Alike(oracle, EpisodePhase(env, DOWN, db, sessions).ok)
    ensures EpisodePhase(env, oracle, db, sessions) == EpisodePhase(env, DOWN, db, sessions)
    decreases |sessions|
  {
    if sessions != [] {
      var o := EpisodeStep(env, DOWN, db, sessions[0]);
      EpisodeAlike(env, oracle, db, sessions[0]);
      if o.ok { EpisodesAlike(env, oracle, o.db, sessions[1..]); }
    }
  }

  lemma CreateAlike(env: Env, oracle: Oracle, p: Progress, members: seq<string>, parents: Field<Option<seq<string>>>)
    requires Alike(oracle, Create(env, DOWN, p, members, parents).ok)
    ensures Create(env, oracle, p, members, parents) == Create(env, DOWN, p, members, parents)
  {
    UpsertAlike(env, oracle, Mint(p.db), NextId(p.db, env), NewTopic(env, p.db, members).(derivedFrom := parents));
  }

  lemma ReorganiseAlike(env: Env, oracle: Oracle, p: Progress, row: Row, members: seq<string>)
    requires Alike(oracle, Reorganise(env, DOWN, p, row, members).ok)
    ensures Reorganise(env, oracle, p, row, members) == Reorganise(env, DOWN, p, row, members)
  {
    var taken := p.(matched := p.matched + {row.id});
    CreateAlike(env, oracle, taken, members, Given(Some([row.id])));
    var c := Create(env, DOWN, taken, members, Given(Some([row.id])));
    if c.ok {
      UpsertAlike(env, oracle, c.db, row.id, RetireTopic(row).(supersededBy := Given(Some([NextId(p.db, env)]))));
    }
  }

  lemma PlaceAlike(env: Env, oracle: Oracle, opts: Options, existing: seq<Row>, p: Progress, members: seq<string>)
    requires Alike(oracle, PlaceCluster(env, DOWN, opts, existing, p, members).ok)
    ensures PlaceCluster(env, oracle, opts, existing, p, members) == PlaceCluster(env, DOWN, opts, existing, p, members)
  {
    var j := Chosen(members, existing, p.matched, opts.matchThreshold);
    if j < 0 {
      CreateAlike(env, oracle, p, members, Omitted);
    } else if PlaceCluster(env, DOWN, opts, existing, p, members) == Continue(env, DOWN, p, existing[j], members) {
      ContinueAlike(env, oracle, opts, existing, p, members, j);
    } else {
      ReorganiseAlike(env, oracle, p, existing[j], members);
    }
  }

  lemma ContinueAlike(env: Env, oracle: Oracle, opts: Options, existing: seq<Row>, p: Progress, members: seq<string>, j: nat)
    requires j < |existing| && j == Chosen(members, existing, p.matched, opts.matchThreshold)
    requires Alike(oracle, PlaceCluster(env, DOWN, opts, existing, p, members).ok)
    ensures PlaceCluster(env, oracle, opts, existing, p, members) == PlaceCluster(env, DOWN, opts, existing, p, members)
  {
    if Jaccard.ChurnFraction(members, existing[j].scene.atomIds) < opts.reorgThreshold {
      UpsertAlike(env, oracle, p.db, existing[j].id, KeepTopic(existing[j], members));
    } else {
      ReorganiseAlike(env, oracle, p, existing[j], members);
    }
  }

  lemma {:induction false} PlaceAllAlike(env: Env, oracle: Oracle, opts: Options, existing: seq<Row>, p: Progress,
                                         clusters: seq<seq<string>>)
    requires p.ok && Alike(oracle, PlaceAll(env, DOWN, opts, existing, p, clusters).ok)
    ensures PlaceAll(env, oracle, opts, existing, p, clusters) == PlaceAll(env, DOWN, opts, existing, p, clusters)
    decreases |clusters|
  {
    if clusters != [] {
      PlaceAllTurn(env, DOWN, opts, existing, p, clusters);
      PlaceAllTurn(env, oracle, opts, existing, p, clusters);
      PlaceAlike(env, oracle, opts, existing, p, clusters[0]);
      var q := PlaceCluster(env, DOWN, opts, existing, p, clusters[0]);
      if q.ok { PlaceAllAlike(env, oracle, opts, existing, q, clusters[1..]); }
    }
  }

  lemma {:induction false} RetireAlike(env: Env, oracle: Oracle, db: Db, existing: seq<Row>, matched: set<string>)
    requires Alike(oracle, RetireUnmatched(env, DOWN, db, existing, matched).ok)
    ensures RetireUnmatched(env, oracle, db, existing, matched) == RetireUnmatched(env, DOWN, db, existing, matched)
    decreases |existing|
  {
    if existing != [] {
      if existing[0].id in matched {
        RetireAlike(env, oracle, db, existing[1..], matched);
      } else {
        UpsertAlike(env, oracle, db, existing[0].id, RetireTopic(existing[0]));
        var o := Upsert(env, DOWN, db, existing[0].id, RetireTopic(existing[0]));
        if o.ok { RetireAlike(env, oracle, o.db, existing[1..], matched); }
      }
    }
  }

  lemma TopicsAlike(env: Env, oracle: Oracle, opts: Options, db: Db)
    requires Alike(oracle, TopicPhase(env, DOWN, opts, db).ok)
    ensures TopicPhase(env, oracle, opts, db) == TopicPhase(env, DOWN, opts, db)
  {
    var existing := TopicRows(db, db.sceneRows);
    if SortedActive(db.mem) == [] {
      RetireAlike(env, oracle, db, existing, {});
    } else {
      PlaceAllAlike(env, oracle, opts, existing, Start(db), DerivedClusters(opts, db.mem));
      var p := PlaceAll(env, DOWN, opts, existing, Start(db), DerivedClusters(opts, db.mem));
      if p.ok { RetireAlike(env, oracle, p.db, existing, p.matched); }
    }
  }

  // ----- Narration

  /** The rows are still what the store holds. */
  ghost predicate Current(db: Db, rows: seq<Row>) {
    DistinctRows(rows) && forall r <- rows :: r.id in db.scenes && db.scenes[r.id] == r.scene
  }

  /** Narrating one row leaves the others, and what decides about them, as they were. */
  lemma OthersStay(env: Env, oracle: Oracle, db: Db, rows: seq<Row>, d: Db)
    requires rows != [] && Current(db, rows) && d == NarrateOne(env, oracle, db, rows[0]).db
    ensures Current(d, rows[1..]) && d.mem == db.mem
    ensures forall r <- rows[1..] :: (Quiet(env, d, r) <==> Quiet(env, db, r)) && (r.id in d.sceneVecs <==> r.id in db.sceneVecs)
  {
    var row, rest := rows[0], rows[1..];
    assert row in rows && forall r <- rest :: r in rows;
    NarrateOneFrame(env, oracle, db, row, d);
    forall i, j | 0 <= i < j < |rest| ensures rest[i].id != rest[j].id {
      assert rows[i + 1].id != rows[j + 1].id;
    }
    forall r <- rest ensures r.id != row.id {
      var i :| 0 <= i < |rest| && rest[i] == r;
      assert rows[i + 1].id != rows[0].id;
    }
  }

  lemma NarrateOneFrame(env: Env, oracle: Oracle, db: Db, row: Row, d: Db)
    requires d == NarrateOne(env, oracle, db, row).db
    ensures d.mem == db.mem
    ensures forall x :: x != row.id ==> (x in d.scenes <==> x in db.scenes) && (x in d.sceneVecs <==> x in db.sceneVecs)
    ensures forall x :: x != row.id && x in db.scenes ==> d.scenes[x] == db.scenes[x]
  {
    var words := Compose(oracle, db, row);
    ComposeFrame(oracle, db, row);
    UpsertFrame(env, oracle, words.db, row.id, NarrationWrite(row, words, SceneHash(env, db.mem, row.scene.kind, row.scene.atomIds)));
  }

  lemma QuietOneOk(env: Env, oracle: Oracle, db: Db, row: Row)
    requires row.id in db.scenes && db.scenes[row.id] == row.scene && Quiet(env, db, row)
    ensures NarrateOne(env, oracle, db, row).ok
  {
  }

  lemma {:induction false} QuietOk(env: Env, oracle: Oracle, db: Db, rows: seq<Row>)
    requires Current(db, rows) && forall r <- rows :: Quiet(env, db, r)
    ensures Narrate(env, oracle, db, rows).ok
    decreases |rows|
  {
    if rows != [] {
      assert rows[0] in rows && forall r <- rows[1..] :: r in rows;
      var d := NarrateOne(env, oracle, db, rows[0]).db;
      QuietOneOk(env, oracle, db, rows[0]);
      OthersStay(env, oracle, db, rows, d);
      QuietOk(env, oracle, d, rows[1..]);
    }
  }

  /** The embedder never answers and the model always gives one reply. */
  function Mute(reply: string): Oracle {
    Oracle(_ => Some(reply), (_, _) => None)
  }

  /** Narrated with this reply, the row's text would no longer be what its vector is of. */
  predicate Changes(env: Env, db: Db, row: Row, reply: string) {
    row.id in db.sceneVecs ==> row.scene.renderHash != Some(RenderHash(env, reply, Some(reply)))
  }

  lemma OneLetter(reply: string)
    requires reply == "a" || reply == "b"
    ensures SliceTo(Trim(reply), 200) == reply && Trim(reply) == reply && reply != ""
  {
    assert TrimStart(reply) == reply && TrimEnd(reply) == reply;
  }

  lemma MuteWords(db: Db, row: Row, reply: string, words: Words)
    requires (reply == "a" || reply == "b") && words == Compose(Mute(reply), db, row)
    ensures words.db == db.(llmCalls := words.db.llmCalls)
    ensures if Narratable(db, row) then words.title == reply && words.summary == Some(reply)
            else words.title == row.scene.title && words.summary == row.scene.summary
  {
    OneLetter(reply);
  }

  lemma StaleThrows(env: Env, reply: string, db: Db, id: string, title: string, summary: Option<string>, w: SceneWrite)
    requires id in db.scenes && w.title == title && w.summary == Given(summary)
    requires id in db.sceneVecs ==> db.scenes[id].renderHash != Some(RenderHash(env, title, summary))
    ensures !Upsert(env, Mute(reply), db, id, w).ok
  {
  }

  lemma TroubledOneThrows(env: Env, db: Db, row: Row, reply: string)
    requires row.id in db.scenes && db.scenes[row.id] == row.scene && !Quiet(env, db, row)
    requires (reply == "a" || reply == "b") && Changes(env, db, row, reply)
    ensures !NarrateOne(env, Mute(reply), db, row).ok
  {
    var words := Compose(Mute(reply), db, row);
    MuteWords(db, row, reply, words);
    var w := NarrationWrite(row, words, SceneHash(env, db.mem, row.scene.kind, row.scene.atomIds));
    StaleThrows(env, reply, words.db, row.id, w.title, words.summary, w);
  }

  lemma {:induction false} TroubledThrows(env: Env, db: Db, rows: seq<Row>, row: Row, reply: string)
    requires Current(db, rows) && row in rows && !Quiet(env, db, row)
    requires (reply == "a" || reply == "b") && Changes(env, db, row, reply)
    ensures !Narrate(env, Mute(reply), db, rows).ok
    decreases |rows|
  {
    if rows[0] == row {
      TroubledOneThrows(env, db, row, reply);
    } else {
      assert rows == [rows[0]] + rows[1..];
      var n := NarrateOne(env, Mute(reply), db, rows[0]);
      OthersStay(env, Mute(reply), db, rows, n.db);
      if n.ok { TroubledThrows(env, n.db, rows[1..], row, reply); }
    }
  }

  /** One of two replies always changes the text. */
  lemma SomeReplyChanges(env: Env, db: Db, row: Row) returns (reply: string)
    requires SceneCache.Injective(env.sha)
    ensures (reply == "a" || reply == "b") && Changes(env, db, row, reply)
  {
    assert RenderInput("a", Some("a"))[0] != RenderInput("b", Some("b"))[0];
    reply := if Changes(env, db, row, "a") then "a" else "b";
  }

  lemma LiveRowsCurrent(db: Db)
    requires Distinct(db.sceneRows)
    ensures Current(db, LiveRows(db, db.sceneRows))
  {
    LiveRowsAre(db, db.sceneRows);
  }

  // ----- Told before the call

  lemma PhasesAlike(env: Env, oracle: Oracle, opts: Options, db: Db, e: Out, t: Progress)
    requires e == EpisodePhase(env, DOWN, db, Sessions(db.mem)) && t == TopicPhase(env, DOWN, opts, e.db)
    requires Alike(oracle, e.ok && t.ok)
    ensures EpisodePhase(env, oracle, db, Sessions(db.mem)) == e
    ensures e.ok ==> TopicPhase(env, oracle, opts, e.db) == t
  {
    EpisodesAlike(env, oracle, db, Sessions(db.mem));
    if e.ok { TopicsAlike(env, oracle, opts, e.db); }
  }

  lemma NothingReachesGate(env: Env, oracle: Oracle, opts: Options, db: Db)
    requires CollisionFree(env) && WellFormed(env, db) && NeedsNothing(env, opts, db)
    ensures ReachesGate(env, oracle, opts, db)
  {
    var e := EpisodePhase(env, DOWN, db, Sessions(db.mem));
    var t := TopicPhase(env, DOWN, opts, e.db);
    PhasesAlike(env, oracle, opts, db, e, t);
    StagesKept(env, DOWN, opts, db);
    LiveRowsCurrent(t.db);
    QuietOk(env, oracle, t.db, LiveRows(t.db, t.db.sceneRows));
  }

  lemma SomethingCanStop(env: Env, opts: Options, db: Db) returns (oracle: Oracle)
    requires CollisionFree(env) && WellFormed(env, db) && SceneCache.Injective(env.sha) && !NeedsNothing(env, opts, db)
    ensures !ReachesGate(env, oracle, opts, db)
  {
    var e := EpisodePhase(env, DOWN, db, Sessions(db.mem));
    var t := TopicPhase(env, DOWN, opts, e.db);
    oracle := DOWN;
    if e.ok && t.ok {
      var row :| row in LiveRows(t.db, t.db.sceneRows) && !Quiet(env, t.db, row);
      var reply := SomeReplyChanges(env, t.db, row);
      oracle := Mute(reply);
      PhasesAlike(env, oracle, opts, db, e, t);
      StagesKept(env, DOWN, opts, db);
      LiveRowsCurrent(t.db);
      TroubledThrows(env, t.db, LiveRows(t.db, t.db.sceneRows), row, reply);
    }
  }

  /** After the pass a clear flag means that it returned. */
  ghost predicate FlagTells(env: Env, oracle: Oracle, opts: Options, db: Db) {
    var o := Pass(env, oracle, opts, db);
    !o.db.dirty ==> o.ok
  }

  /** Whatever the services do, a clear flag will mean that the pass returned, and so that the
      store is settled, if and only if the store is dirty beforehand or needs no service. */
  lemma FlagTellsExactly(env: Env, opts: Options, db: Db)
    requires CollisionFree(env) && WellFormed(env, db) && SceneCache.Injective(env.sha)
    ensures (forall oracle :: FlagTells(env, oracle, opts, db)) <==> db.dirty || NeedsNothing(env, opts, db)
  {
    if db.dirty || NeedsNothing(env, opts, db) {
      forall oracle ensures FlagTells(env, oracle, opts, db) {
        PassKept(env, oracle, opts, db, Pass(env, oracle, opts, db));
        if NeedsNothing(env, opts, db) { NothingReachesGate(env, oracle, opts, db); }
      }
    } else {
      var oracle := SomethingCanStop(env, opts, db);
      PassKept(env, oracle, opts, db, Pass(env, oracle, opts, db));
      StoppedPass(env, oracle, opts, db);
      assert !FlagTells(env, oracle, opts, db);
    }
  }

  lemma StoppedPass(env: Env, oracle: Oracle, opts: Options, db: Db)
    requires !ReachesGate(env, oracle, opts, db)
    ensures !Pass(env, oracle, opts, db).ok
  {
  }
}
