/**
 The effect rows a pass writes about its scenes, and their replay: what the reader
 reconstructs from the rows of successive passes is what the passes did. A row says how the
 membership of one scene changed; each branch of the episode and topic phases writes its own.

 A log is `Faithful` to a step when every row gives its scene's change and every scene
 without a row kept its members; faithful logs about different scenes can be joined.
 */
module Effects {
  import opened Tables
  import opened TextOrder
  import opened Scenes
  import opened SceneFrames
  import opened Topics
  import opened TopicProofs
  import opened Reconcile
  import opened DeltaLog
  import Jaccard
  import ReconcileProofs
  import Runs

  // ----- The rows, branch by branch

  /** A scene that kept its identity: changed, or not. */
  function NoteKept(id: string, before: seq<string>, after: seq<string>): SceneEffect {
    var row := NoteChange(id, Unchanged, before, after);
    if row.added != [] || row.removed != [] then row.(effect := DeltaLog.Updated) else row
  }

  function NoteRetired(id: string, before: seq<string>): SceneEffect {
    SceneEffect(id, RetiredNow, |before|, 0, [], before)
  }

  function EpisodeRow(env: Env, db: Db, session: string): seq<SceneEffect> {
    var id := (env.episodeId)(session);
    var members := SessionAtoms(db.mem, session);
    var before := if id in db.scenes then db.scenes[id].atomIds else [];
    if members == [] then (if id in db.scenes then [NoteRetired(id, before)] else [])
    else if id in db.scenes then [NoteKept(id, before, members)]
    else [NoteKept(id, before, members).(effect := Created)]
  }

  function EpisodeRows(env: Env, oracle: Oracle, db: Db, sessions: seq<string>): seq<SceneEffect>
    decreases |sessions|
  {
    if sessions == [] then []
    else EpisodeRow(env, db, sessions[0]) + EpisodeRows(env, oracle, EpisodeStep(env, oracle, db, sessions[0]).db, sessions[1..])
  }

  function PlaceRow(env: Env, opts: Options, existing: seq<Row>, p: Progress, members: seq<string>): seq<SceneEffect> {
    var j := Chosen(members, existing, p.matched, opts.matchThreshold);
    if j < 0 then [NoteCreation(NextId(p.db, env), members)]
    else
      var row := existing[j];
      if Jaccard.ChurnFraction(members, row.scene.atomIds) < opts.reorgThreshold
      then [NoteKept(row.id, row.scene.atomIds, members)]
      else [NoteCreation(NextId(p.db, env), members), NoteRetired(row.id, row.scene.atomIds)]
  }

  function PlaceRows(env: Env, oracle: Oracle, opts: Options, existing: seq<Row>, p: Progress,
                     clusters: seq<seq<string>>): seq<SceneEffect>
    decreases |clusters|
  {
    if clusters == [] then []
    else PlaceRow(env, opts, existing, p, clusters[0])
         + PlaceRows(env, oracle, opts, existing, PlaceCluster(env, oracle, opts, existing, p, clusters[0]), clusters[1..])
  }

  function RetireRows(existing: seq<Row>, matched: set<string>): seq<SceneEffect> {
    if existing == [] then []
    else (if existing[0].id in matched then [] else [NoteRetired(existing[0].id, existing[0].scene.atomIds)]) + RetireRows(existing[1..], matched)
  }

  function TopicRowsOf(env: Env, oracle: Oracle, opts: Options, db: Db): seq<SceneEffect> {
    var existing := TopicRows(db, db.sceneRows);
    if SortedActive(db.mem) == [] then RetireRows(existing, {})
    else
      var clusters := DerivedClusters(opts, db.mem);
      PlaceRows(env, oracle, opts, existing, Start(db), clusters)
      + RetireRows(existing, PlaceAll(env, oracle, opts, existing, Start(db), clusters).matched)
  }

  /** The rows of a pass. Narration adds flags to a row, never a membership. */
  function PassRows(env: Env, oracle: Oracle, opts: Options, db: Db): PassLog {
    var e := EpisodePhase(env, oracle, db, Sessions(db.mem)).db;
    PassLog(EpisodeRows(env, oracle, db, Sessions(db.mem)) + TopicRowsOf(env, oracle, opts, e))
  }

  // ----- What the rows say

  /** A scene's membership: a retired topic keeps its list as history but has no members. */
  function Members(db: Db, id: string): seq<string> {
    if id in db.scenes && (db.scenes[id].kind == Episode || db.scenes[id].status == Live) then db.scenes[id].atomIds else []
  }

  predicate Noted(log: seq<SceneEffect>, id: string) {
    exists e <- log :: e.sceneId == id
  }

  /** A row that calls a scene unchanged or updated says so of its members; one of a retirement
      leaves none, one of a creation found none. */
  ghost predicate NamedRight(e: SceneEffect) {
    match e.effect
    case Unchanged => e.added == [] && e.removed == []
    case Updated => e.added != [] || e.removed != []
    case RetiredNow => e.membersAfter == 0 && e.added == []
    case Created => e.membersBefore == 0 && e.removed == []
  }

  /** The row gives the scene's change, and calls it a creation exactly if the scene is new. */
  ghost predicate RowRight(db: Db, d: Db, e: SceneEffect) {
    && NamedRight(e)
    && e == NoteChange(e.sceneId, e.effect, Members(db, e.sceneId), Members(d, e.sceneId))
    && e.sceneId in d.scenes && (e.sceneId !in db.scenes <==> e.effect == Created)
  }

  ghost predicate Faithful(db: Db, d: Db, log: seq<SceneEffect>) {
    && (forall e <- log :: RowRight(db, d, e))
    && (forall id :: !Noted(log, id) ==> Members(d, id) == Members(db, id) && (id in d.scenes <==> id in db.scenes))
  }

  ghost predicate Apart(first: seq<SceneEffect>, second: seq<SceneEffect>) {
    forall e <- first :: !Noted(second, e.sceneId)
  }

  lemma FaithfulThen(a: Db, b: Db, c: Db, first: seq<SceneEffect>, second: seq<SceneEffect>)
    requires Faithful(a, b, first) && Faithful(b, c, second) && Apart(first, second)
    ensures Faithful(a, c, first + second)
  {
    forall e <- first + second ensures RowRight(a, c, e) {
      if e in first {
        assert RowRight(a, b, e) && !Noted(second, e.sceneId);
      } else {
        assert RowRight(b, c, e) && !Noted(first, e.sceneId);
      }
    }
    forall id | !Noted(first + second, id) ensures !Noted(first, id) && !Noted(second, id) {
      assert forall e <- first :: e in first + second;
      assert forall e <- second :: e in first + second;
    }
  }

  lemma RetiredIsChange(id: string, before: seq<string>)
    ensures NoteRetired(id, before) == NoteChange(id, RetiredNow, before, [])
  {
    MinusNothing(before);
  }

  lemma CreatedIsChange(id: string, members: seq<string>)
    ensures NoteCreation(id, members) == NoteChange(id, Created, [], members)
  {
    MinusNothing(members);
  }

  /** A step that changes at most scene `id`. */
  ghost predicate OthersKept(db: Db, d: Db, id: string) {
    forall x :: x != id ==> Untouched(db, d, x)
  }

  lemma OneRowFaithful(db: Db, d: Db, e: SceneEffect)
    requires RowRight(db, d, e) && OthersKept(db, d, e.sceneId)
    ensures Faithful(db, d, [e])
  {
    assert e in [e];
    forall id | !Noted([e], id) ensures Members(d, id) == Members(db, id) && (id in d.scenes <==> id in db.scenes) {
      assert Untouched(db, d, id);
    }
  }

  lemma TwoRowsFaithful(db: Db, d: Db, e: SceneEffect, f: SceneEffect)
    requires RowRight(db, d, e) && RowRight(db, d, f)
    requires forall x :: x != e.sceneId && x != f.sceneId ==> Untouched(db, d, x)
    ensures Faithful(db, d, [e, f])
  {
    assert e in [e, f] && f in [e, f];
    forall id | !Noted([e, f], id) ensures Members(d, id) == Members(db, id) && (id in d.scenes <==> id in db.scenes) {
      assert id != e.sceneId && id != f.sceneId;
      assert Untouched(db, d, id);
    }
  }

  lemma NoRowFaithful(db: Db)
    ensures Faithful(db, db, [])
  {
  }

  // ----- Episodes

  /** Scenes named by sessions are episodes. */
  ghost predicate EpisodesTyped(env: Env, db: Db) {
    forall s :: (env.episodeId)(s) in db.scenes ==> db.scenes[(env.episodeId)(s)].kind == Episode
  }

  lemma EpisodeWritten(env: Env, oracle: Oracle, db: Db, id: string, w: SceneWrite, d: Db)
    requires w.kind == Episode && Upsert(env, oracle, db, id, w) == Out(d, true)
    ensures id in d.scenes && d.scenes[id].kind == Episode && Members(d, id) == w.atomIds && OthersKept(db, d, id)
  {
    UpsertFrame(env, oracle, db, id, w);
    UpsertStores(env, oracle, db, id, w);
  }

  lemma TypedStill(env: Env, db: Db, d: Db, id: string)
    requires EpisodesTyped(env, db) && OthersKept(db, d, id) && id in d.scenes && d.scenes[id].kind == Episode
    ensures EpisodesTyped(env, d)
  {
    forall s | (env.episodeId)(s) in d.scenes ensures d.scenes[(env.episodeId)(s)].kind == Episode {
      if (env.episodeId)(s) != id { assert Untouched(db, d, (env.episodeId)(s)); }
    }
  }

  lemma EpisodeFaithful(env: Env, oracle: Oracle, db: Db, session: string, d: Db)
    requires EpisodesTyped(env, db) && EpisodeStep(env, oracle, db, session) == Out(d, true)
    ensures Faithful(db, d, EpisodeRow(env, db, session)) && EpisodesTyped(env, d)
  {
    var id := (env.episodeId)(session);
    var members := SessionAtoms(db.mem, session);
    if members == [] {
      if id in db.scenes {
        EpisodeWritten(env, oracle, db, id, Structural(Episode, db.scenes[id].title, [], Retired), d);
        TypedStill(env, db, d, id);
        RetiredIsChange(id, db.scenes[id].atomIds);
        OneRowFaithful(db, d, NoteRetired(id, db.scenes[id].atomIds));
      } else {
        NoRowFaithful(db);
      }
    } else {
      EpisodeWritten(env, oracle, db, id, Structural(Episode, EpisodeTitle(db, id, session), members, Live), d);
      TypedStill(env, db, d, id);
      var row := NoteKept(id, Members(db, id), members);
      OneRowFaithful(db, d, if id in db.scenes then row else row.(effect := Created));
    }
  }

  lemma EpisodeRowNames(env: Env, db: Db, session: string)
    ensures forall e <- EpisodeRow(env, db, session) :: e.sceneId == (env.episodeId)(session)
  {
  }

  ghost predicate FromSession(env: Env, id: string, sessions: seq<string>) {
    exists s <- sessions :: id == (env.episodeId)(s)
  }

  ghost predicate FromSessions(env: Env, log: seq<SceneEffect>, sessions: seq<string>) {
    forall e <- log :: FromSession(env, e.sceneId, sessions)
  }

  lemma SessionsJoin(env: Env, first: seq<SceneEffect>, second: seq<SceneEffect>, sessions: seq<string>)
    requires CollisionFree(env) && Distinct(sessions) && sessions != []
    requires forall e <- first :: e.sceneId == (env.episodeId)(sessions[0])
    requires FromSessions(env, second, sessions[1..])
    ensures Apart(first, second) && FromSessions(env, first + second, sessions)
  {
    assert sessions == [sessions[0]] + sessions[1..] && sessions[0] !in sessions[1..];
    forall e <- second ensures FromSession(env, e.sceneId, sessions) && e.sceneId != (env.episodeId)(sessions[0]) {
      var s :| s in sessions[1..] && e.sceneId == (env.episodeId)(s);
      assert s in sessions;
    }
    forall e <- first ensures FromSession(env, e.sceneId, sessions) {
      assert sessions[0] in sessions;
    }
  }

  lemma {:induction false} EpisodesFaithful(env: Env, oracle: Oracle, db: Db, sessions: seq<string>, d: Db)
    requires CollisionFree(env) && EpisodesTyped(env, db) && Distinct(sessions)
    requires EpisodePhase(env, oracle, db, sessions) == Out(d, true)
    ensures Faithful(db, d, EpisodeRows(env, oracle, db, sessions)) && EpisodesTyped(env, d)
    ensures FromSessions(env, EpisodeRows(env, oracle, db, sessions), sessions)
    decreases |sessions|
  {
    if sessions == [] {
      NoRowFaithful(db);
    } else {
      var mid := EpisodeStep(env, oracle, db, sessions[0]).db;
      var first, rest := EpisodeRow(env, db, sessions[0]), EpisodeRows(env, oracle, mid, sessions[1..]);
      EpisodeFaithful(env, oracle, db, sessions[0], mid);
      EpisodesFaithful(env, oracle, mid, sessions[1..], d);
      EpisodeRowNames(env, db, sessions[0]);
      SessionsJoin(env, first, rest, sessions);
      FaithfulThen(db, mid, d, first, rest);
    }
  }

  // ----- Topics

  /** Topics not yet claimed are as the pass read them. */
  ghost predicate Unclaimed(existing: seq<Row>, p: Progress) {
    forall r <- existing :: r.id !in p.matched ==> LiveTopic(p.db, r.id) && p.db.scenes[r.id] == r.scene
  }

  /** Rows written between `p` and `q` are about scenes created or claimed in between. */
  ghost predicate Between(existing: seq<Row>, p: Progress, q: Progress, log: seq<SceneEffect>) {
    forall e <- log :: e.sceneId !in p.db.scenes || (Listed(existing, e.sceneId) && e.sceneId !in p.matched && e.sceneId in q.matched)
  }

  lemma ContinueFaithful(env: Env, oracle: Oracle, p: Progress, row: Row, members: seq<string>, d: Db)
    requires LiveTopic(p.db, row.id) && row.scene == p.db.scenes[row.id]
    requires Continue(env, oracle, p, row, members).ok && d == Continue(env, oracle, p, row, members).db
    ensures Faithful(p.db, d, [NoteKept(row.id, row.scene.atomIds, members)])
  {
    ContinueKeeps(env, oracle, p, row, members, d);
    OneRowFaithful(p.db, d, NoteKept(row.id, row.scene.atomIds, members));
  }

  lemma PlaceFaithful(env: Env, oracle: Oracle, opts: Options, existing: seq<Row>, p: Progress, members: seq<string>,
                      q: Progress)
    requires CollisionFree(env) && WellFormed(env, p.db) && Unclaimed(existing, p)
    requires q == PlaceCluster(env, oracle, opts, existing, p, members) && q.ok
    ensures Faithful(p.db, q.db, PlaceRow(env, opts, existing, p, members))
  {
    var j := Chosen(members, existing, p.matched, opts.matchThreshold);
    if j < 0 {
      CreateFaithful(env, oracle, p, members, Omitted);
    } else {
      var row := existing[j];
      assert row in existing;
      if Jaccard.ChurnFraction(members, row.scene.atomIds) < opts.reorgThreshold {
        ContinueFaithful(env, oracle, p, row, members, q.db);
      } else {
        ReorganiseFaithful(env, oracle, p, row, members);
      }
    }
  }

  lemma PlaceClaims(env: Env, oracle: Oracle, opts: Options, existing: seq<Row>, p: Progress, members: seq<string>,
                    j: int)
    requires j == Chosen(members, existing, p.matched, opts.matchThreshold)
    ensures PlaceCluster(env, oracle, opts, existing, p, members).matched == if j < 0 then p.matched else p.matched + {existing[j].id}
  {
  }

  lemma PlaceNames(env: Env, opts: Options, existing: seq<Row>, p: Progress, members: seq<string>, j: int,
                   e: SceneEffect)
    requires j == Chosen(members, existing, p.matched, opts.matchThreshold) && e in PlaceRow(env, opts, existing, p, members)
    ensures e.sceneId == NextId(p.db, env) || (j >= 0 && e.sceneId == existing[j].id)
  {
  }

  lemma PlaceBetween(env: Env, oracle: Oracle, opts: Options, existing: seq<Row>, p: Progress, members: seq<string>,
                     q: Progress)
    requires WellFormed(env, p.db) && q == PlaceCluster(env, oracle, opts, existing, p, members)
    ensures Between(existing, p, q, PlaceRow(env, opts, existing, p, members)) && p.matched <= q.matched
  {
    var j := Chosen(members, existing, p.matched, opts.matchThreshold);
    PlaceClaims(env, oracle, opts, existing, p, members, j);
    if j >= 0 { assert existing[j] in existing; }
    forall e <- PlaceRow(env, opts, existing, p, members)
      ensures e.sceneId !in p.db.scenes || (Listed(existing, e.sceneId) && e.sceneId !in p.matched && e.sceneId in q.matched)
    {
      PlaceNames(env, opts, existing, p, members, j, e);
    }
  }

  /** A faithful log that names no unclaimed topic leaves them as they were. */
  lemma UnclaimedStill(env: Env, oracle: Oracle, opts: Options, existing: seq<Row>, p: Progress, members: seq<string>,
                       q: Progress)
    requires CollisionFree(env) && WellFormed(env, p.db) && Unclaimed(existing, p)
    requires q == PlaceCluster(env, oracle, opts, existing, p, members) && q.ok
    ensures Unclaimed(existing, q)
  {
    var j := Chosen(members, existing, p.matched, opts.matchThreshold);
    var id := NextId(p.db, env);
    if j < 0 {
      CreateLinks(env, oracle, p, members, Omitted, q.db, id);
      UnclaimedElsewhere(existing, p, q, id, id);
    } else {
      var row := existing[j];
      assert row in existing;
      if Jaccard.ChurnFraction(members, row.scene.atomIds) < opts.reorgThreshold {
        ContinueKeeps(env, oracle, p, row, members, q.db);
        UnclaimedElsewhere(existing, p, q, row.id, row.id);
      } else {
        ReorganiseLinks(env, oracle, p, row, members, q.db, id);
        UnclaimedElsewhere(existing, p, q, id, row.id);
      }
    }
  }

  lemma UnclaimedElsewhere(existing: seq<Row>, p: Progress, q: Progress, x: string, y: string)
    requires Unclaimed(existing, p) && p.matched <= q.matched
    requires x in q.matched || x !in p.db.scenes
    requires y in q.matched || y !in p.db.scenes
    requires forall id :: id != x && id != y ==> Untouched(p.db, q.db, id)
    ensures Unclaimed(existing, q)
  {
    forall r <- existing | r.id !in q.matched ensures LiveTopic(q.db, r.id) && q.db.scenes[r.id] == r.scene {
      assert LiveTopic(p.db, r.id) && p.db.scenes[r.id] == r.scene;
      assert Untouched(p.db, q.db, r.id);
    }
  }

  lemma CreateFaithful(env: Env, oracle: Oracle, p: Progress, members: seq<string>,
                       derivedFrom: Field<Option<seq<string>>>)
    requires CollisionFree(env) && WellFormed(env, p.db) && Create(env, oracle, p, members, derivedFrom).ok
    ensures Faithful(p.db, Create(env, oracle, p, members, derivedFrom).db, [NoteCreation(NextId(p.db, env), members)])
  {
    var d, id := Create(env, oracle, p, members, derivedFrom).db, NextId(p.db, env);
    CreateLinks(env, oracle, p, members, derivedFrom, d, id);
    CreatedIsChange(id, members);
    OneRowFaithful(p.db, d, NoteCreation(id, members));
  }

  lemma ReorganiseFaithful(env: Env, oracle: Oracle, p: Progress, row: Row, members: seq<string>)
    requires CollisionFree(env) && WellFormed(env, p.db) && LiveTopic(p.db, row.id) && p.db.scenes[row.id] == row.scene
    requires Reorganise(env, oracle, p, row, members).ok
    ensures Faithful(p.db, Reorganise(env, oracle, p, row, members).db,
                     [NoteCreation(NextId(p.db, env), members), NoteRetired(row.id, row.scene.atomIds)])
  {
    var d, id := Reorganise(env, oracle, p, row, members).db, NextId(p.db, env);
    ReorganiseLinks(env, oracle, p, row, members, d, id);
    CreationRight(p.db, d, id, members);
    RetirementRight(p.db, d, row);
    TwoRowsFaithful(p.db, d, NoteCreation(id, members), NoteRetired(row.id, row.scene.atomIds));
  }

  lemma CreationRight(db: Db, d: Db, id: string, members: seq<string>)
    requires id !in db.scenes && LiveTopic(d, id) && d.scenes[id].atomIds == members
    ensures RowRight(db, d, NoteCreation(id, members))
  {
    CreatedIsChange(id, members);
  }

  lemma RetirementRight(db: Db, d: Db, row: Row)
    requires LiveTopic(db, row.id) && db.scenes[row.id] == row.scene
    requires row.id in d.scenes && d.scenes[row.id].kind == Topic && d.scenes[row.id].status == Retired
    ensures RowRight(db, d, NoteRetired(row.id, row.scene.atomIds))
  {
    RetiredIsChange(row.id, row.scene.atomIds);
  }

  lemma {:induction false} PlaceAllFaithful(env: Env, oracle: Oracle, opts: Options, existing: seq<Row>, p: Progress,
                                            clusters: seq<seq<string>>, q: Progress)
    requires CollisionFree(env) && WellFormed(env, p.db) && Unclaimed(existing, p) && Runs.Stored(p.db, existing) && p.ok
    requires q == PlaceAll(env, oracle, opts, existing, p, clusters) && q.ok
    ensures Faithful(p.db, q.db, PlaceRows(env, oracle, opts, existing, p, clusters))
    ensures Between(existing, p, q, PlaceRows(env, oracle, opts, existing, p, clusters))
    ensures WellFormed(env, q.db) && Unclaimed(existing, q) && p.matched <= q.matched
    decreases |clusters|
  {
    if clusters == [] {
      NoRowFaithful(p.db);
    } else {
      var mid := PlaceCluster(env, oracle, opts, existing, p, clusters[0]);
      PlaceAllTurn(env, oracle, opts, existing, p, clusters);
      PlaceFaithful(env, oracle, opts, existing, p, clusters[0], mid);
      PlaceBetween(env, oracle, opts, existing, p, clusters[0], mid);
      UnclaimedStill(env, oracle, opts, existing, p, clusters[0], mid);
      Runs.PlaceKept(env, oracle, opts, existing, p, clusters[0]);
      PlaceAllFaithful(env, oracle, opts, existing, mid, clusters[1..], q);
      PlaceJoins(existing, p, mid, q, PlaceRow(env, opts, existing, p, clusters[0]),
                 PlaceRows(env, oracle, opts, existing, mid, clusters[1..]));
    }
  }

  lemma PlaceJoins(existing: seq<Row>, p: Progress, mid: Progress, q: Progress, first: seq<SceneEffect>,
                   second: seq<SceneEffect>)
    requires Unclaimed(existing, p) && p.matched <= mid.matched <= q.matched
    requires Faithful(p.db, mid.db, first) && Faithful(mid.db, q.db, second)
    requires Between(existing, p, mid, first) && Between(existing, mid, q, second)
    ensures Faithful(p.db, q.db, first + second) && Between(existing, p, q, first + second)
  {
    forall e <- first ensures !Noted(second, e.sceneId) {
      assert RowRight(p.db, mid.db, e);
    }
    FaithfulThen(p.db, mid.db, q.db, first, second);
  }

  lemma RetireOneFaithful(env: Env, oracle: Oracle, db: Db, row: Row, d: Db)
    requires LiveTopic(db, row.id) && db.scenes[row.id] == row.scene && Upsert(env, oracle, db, row.id, RetireTopic(row)) == Out(d, true)
    ensures Faithful(db, d, [NoteRetired(row.id, row.scene.atomIds)]) && OthersKept(db, d, row.id)
  {
    UpsertFrame(env, oracle, db, row.id, RetireTopic(row));
    UpsertStores(env, oracle, db, row.id, RetireTopic(row));
    RetiredIsChange(row.id, row.scene.atomIds);
    OneRowFaithful(db, d, NoteRetired(row.id, row.scene.atomIds));
  }

  ghost predicate StillAsRead(db: Db, existing: seq<Row>, matched: set<string>) {
    DistinctRows(existing) && forall r <- existing :: r.id !in matched ==> LiveTopic(db, r.id) && db.scenes[r.id] == r.scene
  }

  lemma StillAsReadNext(db: Db, existing: seq<Row>, matched: set<string>, d: Db)
    requires existing != [] && StillAsRead(db, existing, matched) && OthersKept(db, d, existing[0].id)
    ensures StillAsRead(d, existing[1..], matched)
    ensures forall r <- existing[1..] :: r.id != existing[0].id
  {
    var rest := existing[1..];
    assert existing == [existing[0]] + rest;
    forall r <- rest ensures r.id != existing[0].id && (r.id !in matched ==> LiveTopic(d, r.id) && d.scenes[r.id] == r.scene) {
      var i :| 0 <= i < |rest| && rest[i] == r;
      assert existing[i + 1] == r && r in existing;
      assert Untouched(db, d, r.id);
    }
  }

  /** The rows of retirements name unmatched topics. */
  lemma {:induction false} RetireRowsNames(existing: seq<Row>, matched: set<string>)
    ensures forall e <- RetireRows(existing, matched) :: Listed(existing, e.sceneId) && e.sceneId !in matched
  {
    if existing != [] {
      var rest := existing[1..];
      RetireRowsNames(rest, matched);
      assert existing == [existing[0]] + rest && existing[0] in existing;
      forall e <- RetireRows(rest, matched) ensures Listed(existing, e.sceneId) {
        var r :| r in rest && r.id == e.sceneId;
        assert r in existing;
      }
    }
  }

  lemma RetireApart(row: Row, rest: seq<Row>, matched: set<string>)
    requires forall r <- rest :: r.id != row.id
    ensures Apart([NoteRetired(row.id, row.scene.atomIds)], RetireRows(rest, matched))
  {
    RetireRowsNames(rest, matched);
  }

  lemma {:induction false} RetireFaithful(env: Env, oracle: Oracle, db: Db, existing: seq<Row>, matched: set<string>,
                                          d: Db)
    requires StillAsRead(db, existing, matched) && RetireUnmatched(env, oracle, db, existing, matched) == Out(d, true)
    ensures Faithful(db, d, RetireRows(existing, matched))
    decreases |existing|
  {
    if existing == [] {
      NoRowFaithful(db);
    } else {
      var row, rest := existing[0], existing[1..];
      assert row in existing;
      if row.id in matched {
        StillAsReadNext(db, existing, matched, db);
        RetireFaithful(env, oracle, db, rest, matched, d);
        assert RetireRows(existing, matched) == RetireRows(rest, matched);
      } else {
        var mid := Upsert(env, oracle, db, row.id, RetireTopic(row)).db;
        RetireOneFaithful(env, oracle, db, row, mid);
        StillAsReadNext(db, existing, matched, mid);
        RetireFaithful(env, oracle, mid, rest, matched, d);
        RetireApart(row, rest, matched);
        FaithfulThen(db, mid, d, [NoteRetired(row.id, row.scene.atomIds)], RetireRows(rest, matched));
      }
    }
  }

  lemma RowsAsRead(db: Db, existing: seq<Row>)
    requires Distinct(db.sceneRows) && existing == TopicRows(db, db.sceneRows)
    ensures StillAsRead(db, existing, {}) && Unclaimed(existing, Start(db)) && Runs.Stored(db, existing)
  {
    TopicRowsAre(db, db.sceneRows);
  }

  /** No row of the topic phase names a scene that is stored but is not a live topic. */
  ghost predicate AboutTopics(db: Db, log: seq<SceneEffect>) {
    forall e <- log :: e.sceneId !in db.scenes || LiveTopic(db, e.sceneId)
  }

  lemma TopicsFaithful(env: Env, oracle: Oracle, opts: Options, db: Db, t: Progress)
    requires CollisionFree(env) && WellFormed(env, db) && t == TopicPhase(env, oracle, opts, db) && t.ok
    ensures Faithful(db, t.db, TopicRowsOf(env, oracle, opts, db)) && AboutTopics(db, TopicRowsOf(env, oracle, opts, db))
  {
    var existing := TopicRows(db, db.sceneRows);
    RowsAsRead(db, existing);
    if SortedActive(db.mem) == [] {
      RetireFaithful(env, oracle, db, existing, {}, t.db);
      RetireRowsNames(existing, {});
    } else {
      var clusters := DerivedClusters(opts, db.mem);
      var p := PlaceAll(env, oracle, opts, existing, Start(db), clusters);
      var placed, retired := PlaceRows(env, oracle, opts, existing, Start(db), clusters), RetireRows(existing, p.matched);
      PlaceAllFaithful(env, oracle, opts, existing, Start(db), clusters, p);
      RetireFaithful(env, oracle, p.db, existing, p.matched, t.db);
      RetireRowsNames(existing, p.matched);
      FaithfulThen(db, p.db, t.db, placed, retired);
    }
  }

  lemma ShapeKeepsMembers(env: Env, db: Db, d: Db, id: string)
    requires ReconcileProofs.SameShape(env, db, d)
    ensures Members(d, id) == Members(db, id) && (id in d.scenes <==> id in db.scenes)
  {
  }

  lemma StagesFaithful(env: Env, oracle: Oracle, opts: Options, db: Db, e: Db, t: Progress)
    requires CollisionFree(env) && WellFormed(env, db) && EpisodesTyped(env, db)
    requires EpisodePhase(env, oracle, db, Sessions(db.mem)) == Out(e, true) && t == TopicPhase(env, oracle, opts, e) && t.ok
    ensures Faithful(db, t.db, PassRows(env, oracle, opts, db).scenes) && WellFormed(env, t.db)
  {
    var sessions := Sessions(db.mem);
    EpisodesFaithful(env, oracle, db, sessions, e);
    Runs.EpisodesKept(env, oracle, db, sessions);
    TopicsFaithful(env, oracle, opts, e, t);
    Runs.TopicsKept(env, oracle, opts, e);
    var first, second := EpisodeRows(env, oracle, db, sessions), TopicRowsOf(env, oracle, opts, e);
    EpisodesApartFromTopics(env, db, e, first, second, sessions);
    FaithfulThen(db, e, t.db, first, second);
  }

  /** A pass that reaches its gate writes, for every scene whose membership it changed, one
      row with exactly that change, and calls a row a creation when the scene is new. */
  lemma PassFaithful(env: Env, oracle: Oracle, opts: Options, db: Db, d: Db)
    requires CollisionFree(env) && WellFormed(env, db) && EpisodesTyped(env, db)
    requires Runs.ReachesGate(env, oracle, opts, db) && d == Pass(env, oracle, opts, db).db
    ensures Faithful(db, d, PassRows(env, oracle, opts, db).scenes)
  {
    var e := EpisodePhase(env, oracle, db, Sessions(db.mem));
    var t := TopicPhase(env, oracle, opts, e.db);
    StagesFaithful(env, oracle, opts, db, e.db, t);
    var n := Narrate(env, oracle, t.db, LiveRows(t.db, t.db.sceneRows));
    Runs.FinishFrame(env, oracle, n);
    NarrationFaithful(env, oracle, db, t.db, n, d, PassRows(env, oracle, opts, db).scenes);
  }

  lemma EpisodesApartFromTopics(env: Env, db: Db, e: Db, first: seq<SceneEffect>, second: seq<SceneEffect>,
                                sessions: seq<string>)
    requires EpisodesTyped(env, e) && FromSessions(env, first, sessions) && Faithful(db, e, first) && AboutTopics(e, second)
    ensures Apart(first, second)
  {
    forall row <- first ensures !Noted(second, row.sceneId) {
      assert RowRight(db, e, row) && FromSession(env, row.sceneId, sessions);
      var s :| s in sessions && row.sceneId == (env.episodeId)(s);
      assert !LiveTopic(e, row.sceneId);
    }
  }

  lemma SameMembersFaithful(db: Db, t: Db, d: Db, log: seq<SceneEffect>)
    requires Faithful(db, t, log)
    requires forall id :: Members(d, id) == Members(t, id) && (id in d.scenes <==> id in t.scenes)
    ensures Faithful(db, d, log)
  {
    forall e <- log ensures RowRight(db, d, e) {
      assert RowRight(db, t, e);
    }
  }

  lemma NarrationFaithful(env: Env, oracle: Oracle, db: Db, t: Db, n: Narrated, d: Db, log: seq<SceneEffect>)
    requires WellFormed(env, t) && Faithful(db, t, log)
    requires n == Narrate(env, oracle, t, LiveRows(t, t.sceneRows)) && n.ok && d.scenes == n.db.scenes
    ensures Faithful(db, d, log)
  {
    ReconcileProofs.NarrationCovers(env, oracle, t, n);
    forall id ensures Members(d, id) == Members(t, id) && (id in d.scenes <==> id in t.scenes) {
      ShapeKeepsMembers(env, t, n.db, id);
    }
    SameMembersFaithful(db, t, d, log);
  }

  // ----- Every live topic gets a row

  lemma NotedJoin(first: seq<SceneEffect>, second: seq<SceneEffect>, id: string)
    ensures Noted(first + second, id) <==> Noted(first, id) || Noted(second, id)
  {
    if Noted(first, id) {
      var e :| e in first && e.sceneId == id;
      assert e in first + second;
    }
    if Noted(second, id) {
      var e :| e in second && e.sceneId == id;
      assert e in first + second;
    }
  }

  lemma PlacedIsNoted(env: Env, oracle: Oracle, opts: Options, existing: seq<Row>, p: Progress, members: seq<string>,
                      id: string)
    requires id !in p.matched && id in PlaceCluster(env, oracle, opts, existing, p, members).matched
    ensures Noted(PlaceRow(env, opts, existing, p, members), id)
  {
    var first := PlaceRow(env, opts, existing, p, members);
    PlaceClaims(env, oracle, opts, existing, p, members, Chosen(members, existing, p.matched, opts.matchThreshold));
    assert first[|first| - 1] in first;
  }

  lemma {:induction false} ClaimedIsNoted(env: Env, oracle: Oracle, opts: Options, existing: seq<Row>, p: Progress,
                                          clusters: seq<seq<string>>, id: string)
    requires p.ok && PlaceAll(env, oracle, opts, existing, p, clusters).ok
    requires id !in p.matched && id in PlaceAll(env, oracle, opts, existing, p, clusters).matched
    ensures Noted(PlaceRows(env, oracle, opts, existing, p, clusters), id)
    decreases |clusters|
  {
    if clusters != [] {
      var mid := PlaceCluster(env, oracle, opts, existing, p, clusters[0]);
      var first, rest := PlaceRow(env, opts, existing, p, clusters[0]), PlaceRows(env, oracle, opts, existing, mid, clusters[1..]);
      PlaceAllTurn(env, oracle, opts, existing, p, clusters);
      NotedJoin(first, rest, id);
      if id in mid.matched {
        PlacedIsNoted(env, oracle, opts, existing, p, clusters[0], id);
      } else {
        ClaimedIsNoted(env, oracle, opts, existing, mid, clusters[1..], id);
      }
    }
  }

  lemma {:induction false} UnmatchedIsNoted(existing: seq<Row>, matched: set<string>, row: Row)
    requires row in existing && row.id !in matched
    ensures Noted(RetireRows(existing, matched), row.id)
  {
    var first := if existing[0].id in matched then [] else [NoteRetired(existing[0].id, existing[0].scene.atomIds)];
    NotedJoin(first, RetireRows(existing[1..], matched), row.id);
    if row == existing[0] {
      assert first[0] in first;
    } else {
      assert existing == [existing[0]] + existing[1..];
      UnmatchedIsNoted(existing[1..], matched, row);
    }
  }

  lemma TopicIsNoted(env: Env, oracle: Oracle, opts: Options, db: Db, id: string)
    requires WellFormed(env, db) && LiveTopic(db, id) && TopicPhase(env, oracle, opts, db).ok
    ensures Noted(TopicRowsOf(env, oracle, opts, db), id)
  {
    var existing := TopicRows(db, db.sceneRows);
    TopicRowsAre(db, db.sceneRows);
    var row := Row(id, db.scenes[id]);
    assert row in existing;
    if SortedActive(db.mem) == [] {
      UnmatchedIsNoted(existing, {}, row);
    } else {
      var clusters := DerivedClusters(opts, db.mem);
      var matched := PlaceAll(env, oracle, opts, existing, Start(db), clusters).matched;
      NotedJoin(PlaceRows(env, oracle, opts, existing, Start(db), clusters), RetireRows(existing, matched), id);
      if id in matched {
        ClaimedIsNoted(env, oracle, opts, existing, Start(db), clusters, id);
      } else {
        UnmatchedIsNoted(existing, matched, row);
      }
    }
  }

  lemma {:induction false} EpisodesLeave(env: Env, oracle: Oracle, db: Db, sessions: seq<string>, id: string)
    requires forall s :: (env.episodeId)(s) != id
    ensures Untouched(db, EpisodePhase(env, oracle, db, sessions).db, id)
    decreases |sessions|
  {
    if sessions != [] {
      var o := EpisodeStep(env, oracle, db, sessions[0]);
      EpisodeLeaves(env, oracle, db, sessions[0], id);
      if o.ok { EpisodesLeave(env, oracle, o.db, sessions[1..], id); }
    }
  }

  lemma EpisodeLeaves(env: Env, oracle: Oracle, db: Db, session: string, id: string)
    requires (env.episodeId)(session) != id
    ensures Untouched(db, EpisodeStep(env, oracle, db, session).db, id)
  {
    var sid := (env.episodeId)(session);
    var members := SessionAtoms(db.mem, session);
    if members != [] {
      UpsertFrame(env, oracle, db, sid, Structural(Episode, EpisodeTitle(db, sid, session), members, Live));
    } else if sid in db.scenes {
      UpsertFrame(env, oracle, db, sid, Structural(Episode, db.scenes[sid].title, [], Retired));
    }
  }

  /** A topic that is live when a pass begins has a row in that pass. */
  lemma LiveTopicIsNoted(env: Env, oracle: Oracle, opts: Options, db: Db, id: string)
    requires CollisionFree(env) && WellFormed(env, db) && EpisodesTyped(env, db) && LiveTopic(db, id)
    requires Runs.ReachesGate(env, oracle, opts, db)
    ensures Noted(PassRows(env, oracle, opts, db).scenes, id)
  {
    var e := EpisodePhase(env, oracle, db, Sessions(db.mem)).db;
    EpisodesLeave(env, oracle, db, Sessions(db.mem), id);
    Runs.EpisodesKept(env, oracle, db, Sessions(db.mem));
    TopicIsNoted(env, oracle, opts, e, id);
    NotedJoin(EpisodeRows(env, oracle, db, Sessions(db.mem)), TopicRowsOf(env, oracle, opts, e), id);
  }
}
