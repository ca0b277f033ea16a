/**
 Which model calls a pass makes, and where their replies go: two for each live scene whose
 active members changed since it was last narrated, one for the core if what it is made of
 changed, and none besides. A reply that comes is stored; one that fails leaves what was there.
 */
module Renarration {
  import opened Tables
  import opened Text
  import opened TextOrder
  import opened Scenes
  import opened SceneFrames
  import opened Topics
  import opened TopicProofs
  import opened TopicFixedPoint
  import opened Reconcile
  import opened ReconcileProofs
  import opened Digests
  import opened FlagAhead
  import Runs
  import SceneCache

  // ----- The structural phases leave every scene's words alone

  /** Scenes of `base` have kept their title, summary and content hash. */
  ghost predicate WordsKept(base: Db, db: Db) {
    forall id :: id in base.scenes ==>
      id in db.scenes && db.scenes[id].title == base.scenes[id].title && db.scenes[id].summary == base.scenes[id].summary
      && db.scenes[id].contentHash == base.scenes[id].contentHash
  }

  lemma WriteKeepsWords(env: Env, oracle: Oracle, base: Db, db: Db, id: string, w: SceneWrite)
    requires WordsKept(base, db) && w.summary.Omitted? && w.contentHash.Omitted?
    requires id in base.scenes ==> w.title == base.scenes[id].title
    ensures WordsKept(base, Upsert(env, oracle, db, id, w).db)
  {
    var d := Upsert(env, oracle, db, id, w).db;
    UpsertFrame(env, oracle, db, id, w);
    assert id in db.scenes ==> d.scenes[id].summary == db.scenes[id].summary && d.scenes[id].contentHash == db.scenes[id].contentHash;
    assert d.scenes[id].title == w.title;
  }

  lemma {:induction false} EpisodesKeepWords(env: Env, oracle: Oracle, base: Db, db: Db, sessions: seq<string>)
    requires WordsKept(base, db)
    ensures WordsKept(base, EpisodePhase(env, oracle, db, sessions).db)
    decreases |sessions|
  {
    if sessions != [] {
      var o := EpisodeStep(env, oracle, db, sessions[0]);
      EpisodeKeepsWords(env, oracle, base, db, sessions[0]);
      if o.ok { EpisodesKeepWords(env, oracle, base, o.db, sessions[1..]); }
    }
  }

  lemma EpisodeKeepsWords(env: Env, oracle: Oracle, base: Db, db: Db, session: string)
    requires WordsKept(base, db)
    ensures WordsKept(base, EpisodeStep(env, oracle, db, session).db)
  {
    var id := (env.episodeId)(session);
    var members := SessionAtoms(db.mem, session);
    if members != [] {
      WriteKeepsWords(env, oracle, base, db, id, Structural(Episode, EpisodeTitle(db, id, session), members, Live));
    } else if id in db.scenes {
      WriteKeepsWords(env, oracle, base, db, id, Structural(Episode, db.scenes[id].title, [], Retired));
    }
  }

  /** Rows read from `base`. */
  ghost predicate ReadFrom(base: Db, rows: seq<Row>) {
    forall r <- rows :: r.id in base.scenes && base.scenes[r.id] == r.scene
  }

  lemma CreateKeepsWords(env: Env, oracle: Oracle, base: Db, db: Db, w: SceneWrite)
    requires WellFormed(env, db) && WordsKept(base, db) && w.summary.Omitted? && w.contentHash.Omitted?
    ensures WordsKept(base, Upsert(env, oracle, Mint(db), NextId(db, env), w).db)
  {
    WriteKeepsWords(env, oracle, base, Mint(db), NextId(db, env), w);
  }

  lemma PlaceKeepsWords(env: Env, oracle: Oracle, opts: Options, base: Db, existing: seq<Row>, p: Progress,
                        members: seq<string>, q: Progress)
    requires CollisionFree(env) && WellFormed(env, p.db) && WordsKept(base, p.db) && ReadFrom(base, existing)
    requires q == PlaceCluster(env, oracle, opts, existing, p, members)
    ensures WordsKept(base, q.db)
  {
    var j := Chosen(members, existing, p.matched, opts.matchThreshold);
    if j < 0 {
      CreateKeepsWords(env, oracle, base, p.db, NewTopic(env, p.db, members).(derivedFrom := Omitted));
    } else {
      var row := existing[j];
      assert row in existing;
      if q == Continue(env, oracle, p, row, members) {
        WriteKeepsWords(env, oracle, base, p.db, row.id, KeepTopic(row, members));
      } else {
        ReorganiseKeepsWords(env, oracle, base, p, row, members);
      }
    }
  }

  lemma ReorganiseKeepsWords(env: Env, oracle: Oracle, base: Db, p: Progress, row: Row, members: seq<string>)
    requires CollisionFree(env) && WellFormed(env, p.db) && WordsKept(base, p.db) && ReadFrom(base, [row])
    ensures WordsKept(base, Reorganise(env, oracle, p, row, members).db)
  {
    assert row in [row];
    var created := NewTopic(env, p.db, members).(derivedFrom := Given(Some([row.id])));
    var c := Upsert(env, oracle, Mint(p.db), NextId(p.db, env), created);
    CreateKeepsWords(env, oracle, base, p.db, created);
    WriteKeepsWords(env, oracle, base, c.db, row.id, RetireTopic(row).(supersededBy := Given(Some([NextId(p.db, env)]))));
  }

  lemma {:induction false} PlaceAllKeepsWords(env: Env, oracle: Oracle, opts: Options, base: Db, existing: seq<Row>,
                                              p: Progress, clusters: seq<seq<string>>)
    requires CollisionFree(env) && WellFormed(env, p.db) && WordsKept(base, p.db) && ReadFrom(base, existing)
    ensures WordsKept(base, PlaceAll(env, oracle, opts, existing, p, clusters).db)
    decreases |clusters|
  {
    if clusters != [] && p.ok {
      var next := PlaceCluster(env, oracle, opts, existing, p, clusters[0]);
      PlaceKeepsWords(env, oracle, opts, base, existing, p, clusters[0], next);
      Runs.PlaceKept(env, oracle, opts, existing, p, clusters[0]);
      PlaceAllKeepsWords(env, oracle, opts, base, existing, next, clusters[1..]);
    }
  }

  lemma {:induction false} RetireKeepsWords(env: Env, oracle: Oracle, base: Db, db: Db, existing: seq<Row>,
                                            matched: set<string>)
    requires WordsKept(base, db) && ReadFrom(base, existing)
    ensures WordsKept(base, RetireUnmatched(env, oracle, db, existing, matched).db)
    decreases |existing|
  {
    if existing != [] {
      assert existing[0] in existing && forall r <- existing[1..] :: r in existing;
      if existing[0].id in matched {
        RetireKeepsWords(env, oracle, base, db, existing[1..], matched);
      } else {
        var o := Upsert(env, oracle, db, existing[0].id, RetireTopic(existing[0]));
        WriteKeepsWords(env, oracle, base, db, existing[0].id, RetireTopic(existing[0]));
        if o.ok { RetireKeepsWords(env, oracle, base, o.db, existing[1..], matched); }
      }
    }
  }

  lemma TopicsKeepWords(env: Env, oracle: Oracle, opts: Options, db: Db)
    requires CollisionFree(env) && WellFormed(env, db)
    ensures WordsKept(db, TopicPhase(env, oracle, opts, db).db)
  {
    var existing := TopicRows(db, db.sceneRows);
    TopicRowsAre(db, db.sceneRows);
    if SortedActive(db.mem) == [] {
      RetireKeepsWords(env, oracle, db, db, existing, {});
    } else {
      var clusters := DerivedClusters(opts, db.mem);
      var p := PlaceAll(env, oracle, opts, existing, Start(db), clusters);
      PlaceAllKeepsWords(env, oracle, opts, db, existing, Start(db), clusters);
      RetireKeepsWords(env, oracle, db, p.db, existing, p.matched);
    }
  }

  // ----- Narration, call by call

  /** The row is narrated: its digest is stale and some member is active. */
  predicate Due(env: Env, mem: Memory, row: Row) {
    && row.scene.contentHash != Some(SceneHash(env, mem, row.scene.kind, row.scene.atomIds))
    && exists id <- row.scene.atomIds :: IsActive(mem, id)
  }

  function CountDue(env: Env, mem: Memory, rows: seq<Row>): nat {
    if rows == [] then 0 else (if Due(env, mem, rows[0]) then 1 else 0) + CountDue(env, mem, rows[1..])
  }

  /** The scene's words come from replies `c` and `c + 1`: the first, trimmed and cut to 200
      characters, is the title unless nothing is left; the second, trimmed, is the summary. */
  ghost predicate Worded(oracle: Oracle, was: Scene, sc: Scene, c: nat) {
    && (oracle.llm)(c).Some? && (oracle.llm)(c + 1).Some?
    && sc.title == Retitled((oracle.llm)(c).value, was.title) && sc.summary == Some(Trim((oracle.llm)(c + 1).value))
  }

  /** What becomes of one row when narration went through without a failed call. */
  ghost predicate Served(env: Env, oracle: Oracle, mem: Memory, row: Row, sc: Scene, from: nat, to: nat) {
    if Due(env, mem, row) then exists c: nat :: from <= c && c + 2 <= to && Worded(oracle, row.scene, sc, c)
    else sc.title == row.scene.title && sc.summary == row.scene.summary
  }

  lemma NarrateOneServes(env: Env, oracle: Oracle, db: Db, row: Row, n: Narrated)
    requires row.id in db.scenes && db.scenes[row.id] == row.scene
    requires n == NarrateOne(env, oracle, db, row) && n.ok && n.failed == 0
    ensures row.id in n.db.scenes && n.db.llmCalls == db.llmCalls + if Due(env, db.mem, row) then 2 else 0
    ensures Served(env, oracle, db.mem, row, n.db.scenes[row.id], db.llmCalls, n.db.llmCalls)
  {
    var hash := SceneHash(env, db.mem, row.scene.kind, row.scene.atomIds);
    if row.scene.contentHash != Some(hash) {
      var words := Compose(oracle, db, row);
      ComposeCalls(oracle, db, row, words);
      UpsertFrame(env, oracle, words.db, row.id, NarrationWrite(row, words, hash));
      WordsStored(env, oracle, words.db, row, hash, words, n.db);
      if Due(env, db.mem, row) {
        NarrationOutcome(env, oracle, db, row, hash, n);
        assert Worded(oracle, row.scene, n.db.scenes[row.id], db.llmCalls);
      }
    }
  }

  lemma ComposeCalls(oracle: Oracle, db: Db, row: Row, words: Words)
    requires words == Compose(oracle, db, row) && !words.failed
    ensures words.db.llmCalls == db.llmCalls + if exists id <- row.scene.atomIds :: IsActive(db.mem, id) then 2 else 0
    ensures !(exists id <- row.scene.atomIds :: IsActive(db.mem, id)) ==> words.title == row.scene.title && words.summary == row.scene.summary
  {
  }

  lemma NarrateElsewhere(env: Env, oracle: Oracle, db: Db, row: Row, id: string, d: Db)
    requires d == NarrateOne(env, oracle, db, row).db && id != row.id && id in db.scenes
    ensures id in d.scenes && d.scenes[id] == db.scenes[id]
  {
    NarrateOneFrame(env, oracle, db, row, d);
  }

  lemma {:induction false} NarrateLeaves(env: Env, oracle: Oracle, db: Db, rows: seq<Row>, id: string)
    requires id in db.scenes && forall r <- rows :: r.id != id
    ensures id in Narrate(env, oracle, db, rows).db.scenes && Narrate(env, oracle, db, rows).db.scenes[id] == db.scenes[id]
    decreases |rows|
  {
    if rows != [] {
      assert rows[0] in rows && forall r <- rows[1..] :: r in rows;
      var n := NarrateOne(env, oracle, db, rows[0]);
      NarrateElsewhere(env, oracle, db, rows[0], id, n.db);
      if n.ok { NarrateLeaves(env, oracle, n.db, rows[1..], id); }
    }
  }

  /** Two calls for each row that is due. */
  lemma {:induction false} NarrateCalls(env: Env, oracle: Oracle, db: Db, rows: seq<Row>, n: Narrated)
    requires Current(db, rows) && n == Narrate(env, oracle, db, rows) && n.ok && n.failed == 0
    ensures n.db.llmCalls == db.llmCalls + 2 * CountDue(env, db.mem, rows)
    decreases |rows|
  {
    if rows != [] {
      var first, rest := NarrateOne(env, oracle, db, rows[0]), rows[1..];
      assert rows[0] in rows;
      NarrateOneServes(env, oracle, db, rows[0], first);
      OthersStay(env, oracle, db, rows, first.db);
      NarrateCalls(env, oracle, first.db, rest, Narrate(env, oracle, first.db, rest));
    }
  }

  lemma FirstServed(env: Env, oracle: Oracle, db: Db, rows: seq<Row>, n: Narrated)
    requires Current(db, rows) && rows != [] && n == Narrate(env, oracle, db, rows) && n.ok && n.failed == 0
    ensures n.db.llmCalls >= db.llmCalls && rows[0].id in n.db.scenes
    ensures Served(env, oracle, db.mem, rows[0], n.db.scenes[rows[0].id], db.llmCalls, n.db.llmCalls)
  {
    var row, first, rest := rows[0], NarrateOne(env, oracle, db, rows[0]), rows[1..];
    assert row in rows;
    NarrateOneServes(env, oracle, db, row, first);
    OthersStay(env, oracle, db, rows, first.db);
    NarrateCalls(env, oracle, first.db, rest, Narrate(env, oracle, first.db, rest));
    RestApart(rows);
    NarrateLeaves(env, oracle, first.db, rest, row.id);
    ServedLater(env, oracle, db.mem, row, first.db.scenes[row.id], db.llmCalls, first.db.llmCalls, db.llmCalls, n.db.llmCalls);
  }

  lemma {:induction false} NarrateServes(env: Env, oracle: Oracle, db: Db, rows: seq<Row>, n: Narrated, row: Row, mem: Memory,
                                         from: nat, to: nat)
    requires Current(db, rows) && n == Narrate(env, oracle, db, rows) && n.ok && n.failed == 0 && row in rows
    requires mem == db.mem && from <= db.llmCalls && n.db.llmCalls <= to
    ensures row.id in n.db.scenes && Served(env, oracle, mem, row, n.db.scenes[row.id], from, to)
    decreases |rows|
  {
    if row == rows[0] {
      FirstServed(env, oracle, db, rows, n);
      ServedLater(env, oracle, mem, row, n.db.scenes[row.id], db.llmCalls, n.db.llmCalls, from, to);
    } else {
      RowBehind(rows, row);
      var first, rest := RestNarrated(env, oracle, db, rows, n);
      NarrateServes(env, oracle, first.db, rows[1..], rest, row, mem, from, to);
    }
  }

  lemma RowBehind(rows: seq<Row>, row: Row)
    requires row in rows && row != rows[0]
    ensures row in rows[1..]
  {
    assert rows == [rows[0]] + rows[1..];
  }

  /** What narrating the first row leaves for the others. */
  lemma RestNarrated(env: Env, oracle: Oracle, db: Db, rows: seq<Row>, n: Narrated) returns (first: Narrated, rest: Narrated)
    requires Current(db, rows) && rows != [] && n == Narrate(env, oracle, db, rows) && n.ok && n.failed == 0
    ensures rest == Narrate(env, oracle, first.db, rows[1..]) && rest.ok && rest.failed == 0 && rest.db == n.db
    ensures Current(first.db, rows[1..]) && first.db.mem == db.mem && first.db.llmCalls >= db.llmCalls
  {
    first := NarrateOne(env, oracle, db, rows[0]);
    rest := Narrate(env, oracle, first.db, rows[1..]);
    assert rows[0] in rows;
    NarrateOneServes(env, oracle, db, rows[0], first);
    OthersStay(env, oracle, db, rows, first.db);
  }

  lemma RestApart(rows: seq<Row>)
    requires DistinctRows(rows) && rows != []
    ensures forall r <- rows[1..] :: r.id != rows[0].id
  {
    forall r <- rows[1..] ensures r.id != rows[0].id {
      var i :| 0 <= i < |rows[1..]| && rows[1..][i] == r;
      assert rows[i + 1] == r;
    }
  }

  lemma ServedLater(env: Env, oracle: Oracle, mem: Memory, row: Row, sc: Scene, from: nat, to: nat, from': nat, to': nat)
    requires Served(env, oracle, mem, row, sc, from, to) && from' <= from && to <= to'
    ensures Served(env, oracle, mem, row, sc, from', to')
  {
  }

  // ----- Synthesis, case by case

  /** What synthesis leaves. With no live scene the core is gone; with the stored hash current
      nothing happens; otherwise the model is called once, its reply becomes the core beside the
      new hash, and a failure is reported and leaves core and hash as they were. */
  lemma SynthesisOutcome(env: Env, oracle: Oracle, db: Db, s: Synthesised)
    requires s == Synthesise(env, oracle, db)
    ensures s.db == db.(core := s.db.core, coreState := s.db.coreState, llmCalls := s.db.llmCalls)
    ensures NoLiveScenes(db) ==> s.db.core == "" && s.db.coreState == None && s.db.llmCalls == db.llmCalls && !s.failed
    ensures !NoLiveScenes(db) && db.coreState == Some(CoreHash(env, db)) ==> s.db == db && !s.failed
    ensures !NoLiveScenes(db) && db.coreState != Some(CoreHash(env, db)) ==>
              && s.db.llmCalls == db.llmCalls + 1
              && match (oracle.llm)(db.llmCalls)
                 case Some(text) => s.db.core == text && s.db.coreState == Some(CoreHash(env, db)) && !s.failed
                 case None => s.db.core == db.core && s.db.coreState == db.coreState && s.failed
  {
  }

  lemma LiveScenesExactly(db: Db)
    requires forall id :: id in db.scenes ==> id in db.sceneRows
    ensures NoLiveScenes(db) <==> forall id :: !IsLive(db, id)
  {
    var live := LiveIds(db, db.sceneRows);
    if live != [] { assert live[0] in live; }
  }

  // ----- A pass that returns

  lemma StagesReturn(env: Env, oracle: Oracle, opts: Options, db: Db, e: Out, t: Progress, n: Narrated, d: Db)
    requires Pass(env, oracle, opts, db) == Out(d, true)
    requires e == EpisodePhase(env, oracle, db, Sessions(db.mem)) && t == TopicPhase(env, oracle, opts, e.db)
    requires n == Narrate(env, oracle, t.db, LiveRows(t.db, t.db.sceneRows))
    ensures e.ok && t.ok && n.ok && n.failed == 0
    ensures d == Synthesise(env, oracle, n.db).db.(dirty := false) && !Synthesise(env, oracle, n.db).failed
  {
  }

  lemma StructureOk(env: Env, oracle: Oracle, opts: Options, db: Db, e: Out, t: Progress)
    requires CollisionFree(env) && WellFormed(env, db) && Distinct(db.mem.atomRows)
    requires e == EpisodePhase(env, oracle, db, Sessions(db.mem)) && t == TopicPhase(env, oracle, opts, e.db) && e.ok && t.ok
    ensures WellFormed(env, t.db) && t.db.mem == db.mem
    ensures t.db.llmCalls == db.llmCalls && t.db.core == db.core && t.db.coreState == db.coreState
  {
    assert [] + Sessions(db.mem) == Sessions(db.mem);
    EpisodesSettle(env, oracle, db, [], Sessions(db.mem));
    TopicsCarryClusters(env, oracle, opts, e.db);
  }

  lemma StagesOk(env: Env, oracle: Oracle, opts: Options, db: Db, e: Out, t: Progress, n: Narrated, d: Db)
    requires CollisionFree(env) && WellFormed(env, db) && Distinct(db.mem.atomRows) && Pass(env, oracle, opts, db) == Out(d, true)
    requires e == EpisodePhase(env, oracle, db, Sessions(db.mem)) && t == TopicPhase(env, oracle, opts, e.db)
    requires n == Narrate(env, oracle, t.db, LiveRows(t.db, t.db.sceneRows))
    ensures e.ok && t.ok && n.ok && n.failed == 0 && WellFormed(env, t.db) && t.db.mem == db.mem
    ensures d == Synthesise(env, oracle, n.db).db.(dirty := false) && !Synthesise(env, oracle, n.db).failed
    ensures t.db.llmCalls == db.llmCalls && t.db.core == db.core && t.db.coreState == db.coreState
    ensures SameShape(env, t.db, n.db) && WellFormed(env, n.db)
    ensures WordsKept(db, t.db)
  {
    StagesReturn(env, oracle, opts, db, e, t, n, d);
    StructureOk(env, oracle, opts, db, e, t);
    NarrationCovers(env, oracle, t.db, n);
    NarrationKeepsWellFormed(env, t.db, n.db);
    StructureKeepsWords(env, oracle, opts, db, e, t);
  }

  lemma StructureKeepsWords(env: Env, oracle: Oracle, opts: Options, db: Db, e: Out, t: Progress)
    requires CollisionFree(env) && WellFormed(env, db)
    requires e == EpisodePhase(env, oracle, db, Sessions(db.mem)) && t == TopicPhase(env, oracle, opts, e.db)
    ensures WordsKept(db, t.db)
  {
    EpisodesKeepWords(env, oracle, db, db, Sessions(db.mem));
    Runs.EpisodesKept(env, oracle, db, Sessions(db.mem));
    TopicsKeepWords(env, oracle, opts, e.db);
  }

  /** After a pass that returned: two calls were made for each live scene that was due and one
      for the core if its hash was stale; no other. */
  lemma PassCallsExactly(env: Env, oracle: Oracle, opts: Options, db: Db, t: Db, d: Db)
    requires CollisionFree(env) && WellFormed(env, db) && Distinct(db.mem.atomRows) && Pass(env, oracle, opts, db) == Out(d, true)
    requires t == TopicPhase(env, oracle, opts, EpisodePhase(env, oracle, db, Sessions(db.mem)).db).db
    ensures d.llmCalls == db.llmCalls + 2 * CountDue(env, db.mem, LiveRows(t, t.sceneRows))
                        + if NoLiveScenes(d) || db.coreState == Some(CoreHash(env, d)) then 0 else 1
  {
    var e := EpisodePhase(env, oracle, db, Sessions(db.mem));
    var p := TopicPhase(env, oracle, opts, e.db);
    var n := Narrate(env, oracle, t, LiveRows(t, t.sceneRows));
    StagesOk(env, oracle, opts, db, e, p, n, d);
    LiveRowsCurrent(t);
    NarrateCalls(env, oracle, t, LiveRows(t, t.sceneRows), n);
    SynthesisOutcome(env, oracle, n.db, Synthesise(env, oracle, n.db));
    FinishedSame(env, n.db, d);
  }

  lemma FinishedSame(env: Env, n: Db, d: Db)
    requires d.scenes == n.scenes && d.sceneRows == n.sceneRows && d.mem == n.mem
    ensures CoreHash(env, d) == CoreHash(env, n) && (NoLiveScenes(d) <==> NoLiveScenes(n))
  {
    LiveIdsSame(n, d, n.sceneRows);
    CoreHashSame(env, n, d);
  }

  /** A live scene after a pass that returned: if it was there before, narrated last for other
      active members or contents than it has now, and some member is active, both calls were
      made for it in this pass and their replies are its words. If it has the members and contents
      it was narrated for, its words are as they were. */
  lemma PassRenarrates(env: Env, oracle: Oracle, opts: Options, db: Db, d: Db, id: string, mem0: Memory, ids0: seq<string>)
    requires CollisionFree(env) && WellFormed(env, db) && Distinct(db.mem.atomRows) && Pass(env, oracle, opts, db) == Out(d, true)
    requires SceneCache.Injective(env.sha) && id in db.scenes && IsLive(d, id)
    requires db.scenes[id].contentHash == Some(SceneHash(env, mem0, d.scenes[id].kind, ids0))
    requires Distinct(ids0) && Plain(mem0, ids0) && Distinct(d.scenes[id].atomIds) && Plain(d.mem, d.scenes[id].atomIds)
    ensures !SameTold(mem0, ids0, d.mem, d.scenes[id].atomIds) && (exists a <- d.scenes[id].atomIds :: IsActive(d.mem, a)) ==>
              exists c: nat :: db.llmCalls <= c && c + 2 <= d.llmCalls && Worded(oracle, db.scenes[id], d.scenes[id], c)
    ensures SameTold(mem0, ids0, d.mem, d.scenes[id].atomIds) ==>
              d.scenes[id].title == db.scenes[id].title && d.scenes[id].summary == db.scenes[id].summary
  {
    var row := NarratedRow(env, oracle, opts, db, d, id);
    SceneHashTells(env, mem0, row.scene.kind, ids0, d.mem, row.scene.kind, row.scene.atomIds);
    WordsFrom(env, oracle, db, row, d.scenes[id], db.llmCalls, d.llmCalls, d.mem);
  }

  /** The row narration read for a scene that is live after a pass that returned. */
  lemma NarratedRow(env: Env, oracle: Oracle, opts: Options, db: Db, d: Db, id: string) returns (row: Row)
    requires CollisionFree(env) && WellFormed(env, db) && Distinct(db.mem.atomRows) && Pass(env, oracle, opts, db) == Out(d, true)
    requires IsLive(d, id)
    ensures row.id == id && row.scene.kind == d.scenes[id].kind && row.scene.atomIds == d.scenes[id].atomIds
    ensures id in db.scenes ==> row.scene.title == db.scenes[id].title && row.scene.summary == db.scenes[id].summary
    ensures id in db.scenes ==> row.scene.contentHash == db.scenes[id].contentHash
    ensures Served(env, oracle, d.mem, row, d.scenes[id], db.llmCalls, d.llmCalls)
  {
    var e := EpisodePhase(env, oracle, db, Sessions(db.mem));
    var p := TopicPhase(env, oracle, opts, e.db);
    var rows := LiveRows(p.db, p.db.sceneRows);
    var n := Narrate(env, oracle, p.db, rows);
    StagesOk(env, oracle, opts, db, e, p, n, d);
    FinishFrame(env, oracle, n.db, d);
    RowOfLive(env, p.db, n.db, d, id, rows);
    LiveRowsCurrent(p.db);
    row := Row(id, p.db.scenes[id]);
    NarrateServes(env, oracle, p.db, rows, n, row, d.mem, db.llmCalls, d.llmCalls);
  }

  lemma FinishFrame(env: Env, oracle: Oracle, n: Db, d: Db)
    requires d == Synthesise(env, oracle, n).db.(dirty := false)
    ensures d.scenes == n.scenes && d.sceneRows == n.sceneRows && d.mem == n.mem && d.llmCalls >= n.llmCalls
  {
    SynthesisOutcome(env, oracle, n, Synthesise(env, oracle, n));
  }

  lemma RowOfLive(env: Env, t: Db, n: Db, d: Db, id: string, rows: seq<Row>)
    requires WellFormed(env, t) && SameShape(env, t, n) && d.scenes == n.scenes && IsLive(d, id) && rows == LiveRows(t, t.sceneRows)
    ensures id in t.scenes && Row(id, t.scenes[id]) in rows
    ensures d.scenes[id].kind == t.scenes[id].kind && d.scenes[id].atomIds == t.scenes[id].atomIds
  {
    LiveRowsAre(t, t.sceneRows);
  }

  lemma WordsFrom(env: Env, oracle: Oracle, db: Db, row: Row, sc: Scene, from: nat, to: nat, mem: Memory)
    requires row.id in db.scenes && row.scene.title == db.scenes[row.id].title && row.scene.summary == db.scenes[row.id].summary
    requires Served(env, oracle, mem, row, sc, from, to)
    ensures Due(env, mem, row) ==> exists c: nat :: from <= c && c + 2 <= to && Worded(oracle, db.scenes[row.id], sc, c)
    ensures !Due(env, mem, row) ==> sc.title == db.scenes[row.id].title && sc.summary == db.scenes[row.id].summary
  {
    if Due(env, mem, row) {
      var c: nat :| from <= c && c + 2 <= to && Worded(oracle, row.scene, sc, c);
      assert Worded(oracle, db.scenes[row.id], sc, c);
    }
  }

  /** The core is gone when no scene is live, as it was when it was made of what is there now, and
      otherwise the reply to the last model call made since. */
  ghost predicate CoreMade(env: Env, oracle: Oracle, was: Db, d: Db) {
    if forall id :: !IsLive(d, id) then d.core == "" && d.coreState == None
    else if was.coreState == Some(CoreHash(env, d)) then d.core == was.core && d.coreState == was.coreState
    else d.llmCalls > was.llmCalls && LastReply(oracle, d) == Some(d.core) && d.coreState == Some(CoreHash(env, d))
  }

  /** The reply to the last model call made. */
  function LastReply(oracle: Oracle, d: Db): Option<string> {
    if d.llmCalls == 0 then None else var c: nat := d.llmCalls - 1; (oracle.llm)(c)
  }

  lemma LastReplyIs(oracle: Oracle, d: Db, c: nat)
    requires d.llmCalls == c + 1
    ensures LastReply(oracle, d) == (oracle.llm)(c)
  {
  }

  /** So it is after a pass that returned. */
  lemma PassWritesCore(env: Env, oracle: Oracle, opts: Options, db: Db, d: Db)
    requires CollisionFree(env) && WellFormed(env, db) && Distinct(db.mem.atomRows) && Pass(env, oracle, opts, db) == Out(d, true)
    ensures CoreMade(env, oracle, db, d)
  {
    var n := BeforeSynthesis(env, oracle, opts, db, d);
    CoreFrom(env, oracle, n, d);
    CoreMadeSince(env, oracle, db, n, d);
  }

  lemma CoreMadeSince(env: Env, oracle: Oracle, db: Db, n: Db, d: Db)
    requires n.core == db.core && n.coreState == db.coreState && n.llmCalls >= db.llmCalls && CoreMade(env, oracle, n, d)
    ensures CoreMade(env, oracle, db, d)
  {
  }

  lemma BeforeSynthesis(env: Env, oracle: Oracle, opts: Options, db: Db, d: Db) returns (n: Db)
    requires CollisionFree(env) && WellFormed(env, db) && Distinct(db.mem.atomRows) && Pass(env, oracle, opts, db) == Out(d, true)
    ensures d == Synthesise(env, oracle, n).db.(dirty := false) && !Synthesise(env, oracle, n).failed && WellFormed(env, n)
    ensures n.core == db.core && n.coreState == db.coreState && n.llmCalls >= db.llmCalls
  {
    var e := EpisodePhase(env, oracle, db, Sessions(db.mem));
    var p := TopicPhase(env, oracle, opts, e.db);
    var narrated := Narrate(env, oracle, p.db, LiveRows(p.db, p.db.sceneRows));
    StagesOk(env, oracle, opts, db, e, p, narrated, d);
    LiveRowsCurrent(p.db);
    NarrateCalls(env, oracle, p.db, LiveRows(p.db, p.db.sceneRows), narrated);
    n := narrated.db;
  }

  lemma CoreCases(env: Env, oracle: Oracle, n: Db, d: Db, hash: string)
    requires hash == CoreHash(env, d)
    requires (forall id :: !IsLive(d, id)) ==> d.core == "" && d.coreState == None
    requires (exists id :: IsLive(d, id)) && n.coreState == Some(hash) ==> d.core == n.core && d.coreState == n.coreState
    requires (exists id :: IsLive(d, id)) && n.coreState != Some(hash) ==>
               d.llmCalls > n.llmCalls && LastReply(oracle, d) == Some(d.core) && d.coreState == Some(hash)
    ensures CoreMade(env, oracle, n, d)
  {
  }

  lemma CoreFrom(env: Env, oracle: Oracle, n: Db, d: Db)
    requires d == Synthesise(env, oracle, n).db.(dirty := false) && !Synthesise(env, oracle, n).failed && WellFormed(env, n)
    ensures CoreMade(env, oracle, n, d)
  {
    SynthesisOutcome(env, oracle, n, Synthesise(env, oracle, n));
    FinishedSame(env, n, d);
    LiveScenesExactly(d);
    var hash := CoreHash(env, n);
    assert (exists id :: IsLive(d, id)) <==> !NoLiveScenes(n);
    if d.llmCalls == n.llmCalls + 1 { LastReplyIs(oracle, d, n.llmCalls); }
    CoreCases(env, oracle, n, d, hash);
  }
}
