/**
 What the dirty flag tells after a pass that stopped. A pass that throws before its
 completeness gate leaves the flag as it found it, so a clear flag alone does not say that
 the store is settled; a clear flag together with a current vector for every scene does.
 */
module CleanFlag {
  import opened Tables
  import opened Scenes
  import opened SceneFrames
  import opened TextOrder
  import opened Topics
  import opened Reconcile
  import opened ReconcileProofs
  import opened Runs
  import Atoms
  import C = Consolidation
  import Windows

  // ----- A pass that throws before the gate has left a scene without its vector

  ghost predicate AllRendered(env: Env, db: Db) {
    forall id :: id in db.scenes ==> Rendered(env, db, id)
  }

  /** Work that is done keeps every vector current; work that throws has dropped one. */
  ghost predicate Tracks(env: Env, db: Db, d: Db, ok: bool) {
    if ok then AllRendered(env, db) ==> AllRendered(env, d) else !AllRendered(env, d)
  }

  lemma UpsertTracks(env: Env, oracle: Oracle, db: Db, id: string, w: SceneWrite, o: Out)
    requires o == Upsert(env, oracle, db, id, w)
    ensures Tracks(env, db, o.db, o.ok)
  {
    UpsertFrame(env, oracle, db, id, w);
    if o.ok {
      UpsertStores(env, oracle, db, id, w);
      if AllRendered(env, db) {
        forall x | x in o.db.scenes ensures Rendered(env, o.db, x) {
          if x != id { OnlySceneKeepsRendered(env, db, o.db, id, x); }
        }
      }
    } else {
      assert !Rendered(env, o.db, id);
    }
  }

  lemma EpisodeTracks(env: Env, oracle: Oracle, db: Db, session: string, o: Out)
    requires o == EpisodeStep(env, oracle, db, session)
    ensures Tracks(env, db, o.db, o.ok)
  {
    var id := (env.episodeId)(session);
    var members := SessionAtoms(db.mem, session);
    if members != [] {
      UpsertTracks(env, oracle, db, id, Structural(Episode, EpisodeTitle(db, id, session), members, Live), o);
    } else if id in db.scenes {
      UpsertTracks(env, oracle, db, id, Structural(Episode, db.scenes[id].title, [], Retired), o);
    }
  }

  lemma {:induction false} EpisodesTrack(env: Env, oracle: Oracle, db: Db, sessions: seq<string>, o: Out)
    requires o == EpisodePhase(env, oracle, db, sessions)
    ensures Tracks(env, db, o.db, o.ok)
    decreases |sessions|
  {
    if sessions != [] {
      var first := EpisodeStep(env, oracle, db, sessions[0]);
      EpisodeTracks(env, oracle, db, sessions[0], first);
      if first.ok { EpisodesTrack(env, oracle, first.db, sessions[1..], o); }
    }
  }

  lemma CreateTracks(env: Env, oracle: Oracle, p: Progress, members: seq<string>, parents: Field<Option<seq<string>>>, q: Progress)
    requires q == Create(env, oracle, p, members, parents)
    ensures Tracks(env, p.db, q.db, q.ok)
  {
    var minted := Mint(p.db);
    var w := NewTopic(env, p.db, members).(derivedFrom := parents);
    UpsertTracks(env, oracle, minted, NextId(p.db, env), w, Out(q.db, q.ok));
    if AllRendered(env, p.db) {
      forall id | id in minted.scenes ensures Rendered(env, minted, id) { assert Rendered(env, p.db, id); }
    }
  }

  lemma ReorganiseTracks(env: Env, oracle: Oracle, p: Progress, row: Row, members: seq<string>, q: Progress)
    requires q == Reorganise(env, oracle, p, row, members)
    ensures Tracks(env, p.db, q.db, q.ok)
  {
    var taken := p.(matched := p.matched + {row.id});
    var c := Create(env, oracle, taken, members, Given(Some([row.id])));
    CreateTracks(env, oracle, taken, members, Given(Some([row.id])), c);
    if c.ok {
      UpsertTracks(env, oracle, c.db, row.id, RetireTopic(row).(supersededBy := Given(Some([NextId(p.db, env)]))), Out(q.db, q.ok));
    }
  }

  lemma PlaceTracks(env: Env, oracle: Oracle, opts: Options, existing: seq<Row>, p: Progress, members: seq<string>, q: Progress)
    requires q == PlaceCluster(env, oracle, opts, existing, p, members)
    ensures Tracks(env, p.db, q.db, q.ok)
  {
    var j := Chosen(members, existing, p.matched, opts.matchThreshold);
    if j < 0 {
      CreateTracks(env, oracle, p, members, Omitted, q);
    } else if q == Continue(env, oracle, p, existing[j], members) {
      UpsertTracks(env, oracle, p.db, existing[j].id, KeepTopic(existing[j], members), Out(q.db, q.ok));
    } else {
      ReorganiseTracks(env, oracle, p, existing[j], members, q);
    }
  }

  lemma {:induction false} PlaceAllTracks(env: Env, oracle: Oracle, opts: Options, existing: seq<Row>, p: Progress,
                                          clusters: seq<seq<string>>, q: Progress)
    requires p.ok && q == PlaceAll(env, oracle, opts, existing, p, clusters)
    ensures Tracks(env, p.db, q.db, q.ok)
    decreases |clusters|
  {
    if clusters != [] {
      var next := PlaceCluster(env, oracle, opts, existing, p, clusters[0]);
      PlaceTracks(env, oracle, opts, existing, p, clusters[0], next);
      PlaceAllTurn(env, oracle, opts, existing, p, clusters);
      if next.ok { PlaceAllTracks(env, oracle, opts, existing, next, clusters[1..], q); }
    }
  }

  lemma {:induction false} RetireTracks(env: Env, oracle: Oracle, db: Db, existing: seq<Row>, matched: set<string>, o: Out)
    requires o == RetireUnmatched(env, oracle, db, existing, matched)
    ensures Tracks(env, db, o.db, o.ok)
    decreases |existing|
  {
    if existing != [] {
      if existing[0].id in matched {
        RetireTracks(env, oracle, db, existing[1..], matched, o);
      } else {
        var first := Upsert(env, oracle, db, existing[0].id, RetireTopic(existing[0]));
        UpsertTracks(env, oracle, db, existing[0].id, RetireTopic(existing[0]), first);
        if first.ok { RetireTracks(env, oracle, first.db, existing[1..], matched, o); }
      }
    }
  }

  lemma TopicsTrack(env: Env, oracle: Oracle, opts: Options, db: Db, q: Progress)
    requires q == TopicPhase(env, oracle, opts, db)
    ensures Tracks(env, db, q.db, q.ok)
  {
    var existing := TopicRows(db, db.sceneRows);
    if SortedActive(db.mem) == [] {
      RetireTracks(env, oracle, db, existing, {}, Out(q.db, q.ok));
    } else {
      var p := PlaceAll(env, oracle, opts, existing, Start(db), DerivedClusters(opts, db.mem));
      PlaceAllTracks(env, oracle, opts, existing, Start(db), DerivedClusters(opts, db.mem), p);
      if p.ok { RetireTracks(env, oracle, p.db, existing, p.matched, Out(q.db, q.ok)); }
    }
  }

  lemma NarrateOneTracks(env: Env, oracle: Oracle, db: Db, row: Row, n: Narrated)
    requires n == NarrateOne(env, oracle, db, row)
    ensures Tracks(env, db, n.db, n.ok)
  {
    var hash := SceneHash(env, db.mem, row.scene.kind, row.scene.atomIds);
    if row.scene.contentHash != Some(hash) {
      var words := Compose(oracle, db, row);
      ComposeFrame(oracle, db, row);
      UpsertTracks(env, oracle, words.db, row.id, NarrationWrite(row, words, hash), Out(n.db, n.ok));
      if AllRendered(env, db) {
        forall id | id in words.db.scenes ensures Rendered(env, words.db, id) { assert Rendered(env, db, id); }
      }
    }
  }

  lemma {:induction false} NarrateTracks(env: Env, oracle: Oracle, db: Db, rows: seq<Row>, n: Narrated)
    requires n == Narrate(env, oracle, db, rows)
    ensures Tracks(env, db, n.db, n.ok)
    decreases |rows|
  {
    if rows != [] {
      var first := NarrateOne(env, oracle, db, rows[0]);
      NarrateOneTracks(env, oracle, db, rows[0], first);
      if first.ok { NarrateTracks(env, oracle, first.db, rows[1..], Narrate(env, oracle, first.db, rows[1..])); }
    }
  }

  lemma FinishTracks(env: Env, oracle: Oracle, n: Narrated, d: Db)
    requires d == Finish(env, oracle, n).db
    ensures AllRendered(env, n.db) <==> AllRendered(env, d)
  {
    SynthesisFrame(oracle, n.db, NoLiveScenes(n.db), CoreHash(env, n.db), Synthesise(env, oracle, n.db).db);
    assert d.scenes == n.db.scenes && d.sceneVecs == n.db.sceneVecs;
    forall id | id in d.scenes ensures Rendered(env, d, id) == Rendered(env, n.db, id) {}
  }

  /** The gate is reached only through vectors that are all current, if they were before, and
      missed only by leaving a scene without its current vector. */
  lemma GateTracks(env: Env, oracle: Oracle, opts: Options, db: Db, o: Out)
    requires o == Pass(env, oracle, opts, db)
    ensures Tracks(env, db, o.db, ReachesGate(env, oracle, opts, db))
  {
    var e := EpisodePhase(env, oracle, db, Sessions(db.mem));
    EpisodesTrack(env, oracle, db, Sessions(db.mem), e);
    if e.ok {
      var t := TopicPhase(env, oracle, opts, e.db);
      TopicsTrack(env, oracle, opts, e.db, t);
      if t.ok {
        var n := Narrate(env, oracle, t.db, LiveRows(t.db, t.db.sceneRows));
        NarrateTracks(env, oracle, t.db, LiveRows(t.db, t.db.sceneRows), n);
        if n.ok { FinishTracks(env, oracle, n, o.db); }
      }
    }
  }

  // ----- When a clear flag tells the truth

  /** After a pass, a clear flag means a settled store if the flag was set before the pass, if
      the pass reached its gate, or if every scene has its current vector afterwards. */
  lemma ClearFlagIsTrue(env: Env, oracle: Oracle, opts: Options, db: Db, o: Out)
    requires CollisionFree(env) && WellFormed(env, db) && Distinct(db.mem.atomRows) && o == Pass(env, oracle, opts, db)
    requires db.dirty || ReachesGate(env, oracle, opts, db) || AllRendered(env, o.db)
    requires !o.db.dirty
    ensures o.ok && SettledStore(env, opts, o.db)
  {
    GateTracks(env, oracle, opts, db, o);
    PassKept(env, oracle, opts, db, o);
    PassSettles(env, oracle, opts, db);
  }

  /** From a store whose vectors are all current, whatever the services do: the pass returned,
      and the store is settled, if and only if the flag is clear and the vectors are all
      current again. */
  lemma ReturnedExactly(env: Env, oracle: Oracle, opts: Options, db: Db, o: Out)
    requires CollisionFree(env) && WellFormed(env, db) && Distinct(db.mem.atomRows) && o == Pass(env, oracle, opts, db)
    requires AllRendered(env, db)
    ensures o.ok <==> !o.db.dirty && AllRendered(env, o.db)
    ensures o.ok ==> SettledStore(env, opts, o.db)
  {
    GateTracks(env, oracle, opts, db, o);
    PassKept(env, oracle, opts, db, o);
    if o.ok { PassSettles(env, oracle, opts, db); }
  }

  /** A pass that throws after its L1 transaction has committed leaves the flag set if and only
      if it was set before, a decision retired an atom, or the gate was reached. */
  lemma FlagAfterPlanned(env: Env, oracle: Oracle, opts: Options, db: Db, ops: seq<C.Op>, prepared: seq<Atoms.AtomWrite>,
                         window: seq<string>, last: Option<nat>, l1: C.Committed, o: Out)
    requires CollisionFree(env) && WellFormed(env, db)
    requires l1 == C.Commit(db, ops, prepared, window, last) && l1.fault == None
    requires o == Pass(env, oracle, opts, l1.db) && !o.ok
    ensures o.db.dirty <==> db.dirty || (exists op <- ops :: C.Losers(op) != []) || ReachesGate(env, oracle, opts, l1.db)
  {
    PassKept(env, oracle, opts, l1.db, o);
  }

  // ----- The flag alone proves nothing

  /** L1 may commit new atoms and the pass then throw before the gate. Here the embedder fails
      on the first new episode: the flag still says clean, yet the store is not settled. */
  lemma CleanFlagCanLie(env: Env, opts: Options, oracle: Oracle, db: Db, session: string)
    requires !db.dirty && Sessions(db.mem) != [] && session == Sessions(db.mem)[0]
    requires SessionAtoms(db.mem, session) != [] && (env.episodeId)(session) !in db.scenes
    requires forall text :: (oracle.embed)(db.embedCalls, text) == None
    ensures var o := Pass(env, oracle, opts, db); !o.ok && !o.db.dirty && !SettledStore(env, opts, o.db)
  {
    var e := EpisodeStep(env, oracle, db, session);
    assert !e.ok;
    assert EpisodePhase(env, oracle, db, Sessions(db.mem)) == e;
    assert session in Sessions(e.db.mem);
    assert !EpisodeSettled(env, e.db, session);
  }

  function StoreOp(w: Atoms.AtomWrite): C.Op {
    C.Op(C.Store, w.id, w.kind, w.content, w.meta.confidence, [])
  }

  function AfterTurn(turn: string, session: string, content: string): Db {
    EMPTY.(mem := EMPTY.mem.(stream := [Turn(turn, session, content, 1)]))
  }

  function AfterStore(turn: string, session: string, content: string, w: Atoms.AtomWrite): Db {
    var db := AfterTurn(turn, session, content);
    db.(mem := Memory(db.mem.stream, map[w.id := Atom(w.kind, w.content, w.meta, Active)], [w.id],
                      [FtsRow(w.id, w.content)], map[w.id := w.vec], [Edge(w.id, turn)], Some(1)))
  }

  lemma TurnStored(env: Env, opts: Options, turn: string, session: string, content: string)
    ensures Do(env, opts, EMPTY, AddTurn(turn, session, content)) == AfterTurn(turn, session, content)
  {
  }

  function Written(db: Db, w: Atoms.AtomWrite): Memory {
    db.mem.(atoms := map[w.id := Atom(w.kind, w.content, w.meta, Active)], atomRows := [w.id],
            atomFts := [FtsRow(w.id, w.content)], atomVecs := map[w.id := w.vec])
  }

  lemma WinnerWritten(db: Db, w: Atoms.AtomWrite)
    requires db.mem == EMPTY.mem.(stream := db.mem.stream)
    ensures C.PhaseA(db.mem, [w]) == Atoms.Ok(Written(db, w))
  {
    var row, r := Atom(w.kind, w.content, w.meta, Active), Atoms.WriteAtom(db.mem, w, Atoms.Preserve);
    assert r.Ok?;
    assert map[][w.id := row] == map[w.id := row] && map[][w.id := w.vec] == map[w.id := w.vec];
    assert r.value.atoms == map[w.id := row] && r.value.atomVecs == map[w.id := w.vec];
    assert r.value.atomRows == [w.id] && r.value.atomFts == [FtsRow(w.id, w.content)];
    assert C.PhaseA(Written(db, w), [w][1..]) == Atoms.Ok(Written(db, w));
  }

  lemma WindowLinked(mem: Memory, op: C.Op, turn: string)
    requires op.action == C.Store && op.newId in mem.atoms && mem.evidence == [] && |mem.stream| == 1 && mem.stream[0].id == turn
    ensures C.PhaseB(mem, [op], [turn]) == Atoms.Ok(mem.(evidence := [Edge(op.newId, turn)]))
  {
    var linked := mem.(evidence := [Edge(op.newId, turn)]);
    assert Atoms.StreamIds(mem.stream)[0] == turn;
    assert [] + [Edge(op.newId, turn)] == [Edge(op.newId, turn)];
    assert Atoms.AddEdge(mem, op.newId, turn) == Atoms.Ok(linked);
    assert Atoms.AddEvidence(linked, op.newId, [turn][1..]) == Atoms.Ok(linked);
    assert C.PhaseB(linked, [op][1..], [turn]) == Atoms.Ok(linked);
  }

  lemma StoreCommits(turn: string, session: string, content: string, w: Atoms.AtomWrite)
    ensures C.Commit(AfterTurn(turn, session, content), [StoreOp(w)], [w], [turn], Some(1))
            == C.Committed(AfterStore(turn, session, content, w), None)
  {
    var db, ops := AfterTurn(turn, session, content), [StoreOp(w)];
    assert C.Phase0(db.mem, ops) == Atoms.Ok(db.mem) by { assert C.Phase0(db.mem, ops[1..]) == Atoms.Ok(db.mem); }
    WinnerWritten(db, w);
    WindowLinked(Written(db, w), StoreOp(w), turn);
    assert !C.Dirties(ops);
  }

  lemma StoredInSession(turn: string, session: string, content: string, w: Atoms.AtomWrite)
    ensures var mem := AfterStore(turn, session, content, w).mem;
            Sessions(mem) == [session] && SessionAtoms(mem, session) == [w.id]
  {
    var mem := AfterStore(turn, session, content, w).mem;
    assert SessionsOf(mem.stream, turn) == [session] by { assert SessionsOf(mem.stream[1..], turn) == []; }
    var t := Trace(w.id, session);
    assert Traces(mem, mem.evidence) == [t] by { assert Traces(mem, mem.evidence[1..]) == []; }
    assert TraceSessions([t]) == [session];
    assert Unique([session]) == [session] by { assert Unique([session][..0]) == []; }
    assert AtomsFrom([t], session) == [w.id] by { assert AtomsFrom([t][1..], session) == []; }
    assert Unique([w.id]) == [w.id] by { assert Unique([w.id][..0]) == []; }
    assert Topics.ActiveIds(mem, [w.id]) == [w.id] by { assert Topics.ActiveIds(mem, [w.id][1..]) == []; }
  }

  lemma RunOn(env: Env, opts: Options, front: seq<Step>, step: Step, steps: seq<Step>)
    requires steps == front + [step]
    ensures Run(env, opts, steps) == Do(env, opts, Run(env, opts, front), step)
  {
    assert steps[..|steps| - 1] == front;
  }

  lemma ThreeSteps(env: Env, opts: Options, a: Step, b: Step, c: Step, first: Db, second: Db, third: Db)
    requires first == Do(env, opts, EMPTY, a) && second == Do(env, opts, first, b) && third == Do(env, opts, second, c)
    ensures Run(env, opts, [a, b, c]) == third
  {
    assert Run(env, opts, [a]) == first by { RunOn(env, opts, [], a, [a]); }
    assert Run(env, opts, [a, b]) == second by { RunOn(env, opts, [a], b, [a, b]); }
    RunOn(env, opts, [a, b], c, [a, b, c]);
  }

  /** Such a state is reached from the empty store by one turn, one transaction that only
      stores an atom, and one pass whose first embedding fails. The flag is clear and no turn
      is waiting, so nothing in the store asks for the pass it needs. */
  lemma CleanFlagLiesOnARun(env: Env, opts: Options, oracle: Oracle, turn: string, session: string, content: string,
                            w: Atoms.AtomWrite) returns (steps: seq<Step>)
    requires forall text :: (oracle.embed)(0, text) == None
    ensures |steps| == 3 && steps[0].AddTurn? && steps[1].L1? && steps[2] == L2(oracle) && HonestRun(env, opts, steps)
    ensures var d := Run(env, opts, steps);
            !d.dirty && d.mem.watermark == Some(Windows.HeadSeq(d.mem.stream)) && !SettledStore(env, opts, d)
  {
    steps := [AddTurn(turn, session, content), L1([StoreOp(w)], [w], [turn], Some(1)), L2(oracle)];
    var stored := AfterStore(turn, session, content, w);
    LyingState(env, opts, oracle, turn, session, content, w, stored);
    assert HonestRun(env, opts, steps) by { NoSceneNamed(env, opts, steps); }
    LyingStepsRun(env, opts, oracle, turn, session, content, w, steps, stored);
  }

  lemma LyingStepsRun(env: Env, opts: Options, oracle: Oracle, turn: string, session: string, content: string,
                      w: Atoms.AtomWrite, steps: seq<Step>, stored: Db)
    requires steps == [AddTurn(turn, session, content), L1([StoreOp(w)], [w], [turn], Some(1)), L2(oracle)]
    requires stored == AfterStore(turn, session, content, w)
    ensures Run(env, opts, steps) == Pass(env, oracle, opts, stored).db
  {
    TwoSteps(env, opts, turn, session, content, w, steps[0], steps[1]);
    PassStep(env, opts, oracle, stored);
    ThreeSteps(env, opts, steps[0], steps[1], steps[2], AfterTurn(turn, session, content), stored, Pass(env, oracle, opts, stored).db);
  }

  lemma PassStep(env: Env, opts: Options, oracle: Oracle, db: Db)
    ensures Do(env, opts, db, L2(oracle)) == Pass(env, oracle, opts, db).db
  {
  }

  lemma NoSceneNamed(env: Env, opts: Options, steps: seq<Step>)
    requires forall k :: 0 <= k < |steps| ==> !steps[k].WriteScene?
    ensures HonestRun(env, opts, steps)
  {
  }

  lemma TwoSteps(env: Env, opts: Options, turn: string, session: string, content: string, w: Atoms.AtomWrite,
                 a: Step, b: Step)
    requires a == AddTurn(turn, session, content) && b == L1([StoreOp(w)], [w], [turn], Some(1))
    ensures Do(env, opts, EMPTY, a) == AfterTurn(turn, session, content)
    ensures Do(env, opts, AfterTurn(turn, session, content), b) == AfterStore(turn, session, content, w)
  {
    TurnStored(env, opts, turn, session, content);
    StoreCommits(turn, session, content, w);
  }

  lemma LyingState(env: Env, opts: Options, oracle: Oracle, turn: string, session: string, content: string,
                   w: Atoms.AtomWrite, db: Db)
    requires db == AfterStore(turn, session, content, w) && forall text :: (oracle.embed)(0, text) == None
    ensures var d := Pass(env, oracle, opts, db).db;
            !d.dirty && d.mem.watermark == Some(Windows.HeadSeq(d.mem.stream)) && !SettledStore(env, opts, d)
  {
    StoredInSession(turn, session, content, w);
    CleanFlagCanLie(env, opts, oracle, db, session);
    MemoryUntouched(env, opts, oracle, db, session);
    assert Windows.HeadSeq(db.mem.stream) == 1 by { assert Windows.HeadSeq(db.mem.stream[..0]) == 0; }
  }

  lemma MemoryUntouched(env: Env, opts: Options, oracle: Oracle, db: Db, session: string)
    requires Sessions(db.mem) == [session] && !Pass(env, oracle, opts, db).ok
    requires SessionAtoms(db.mem, session) != [] && (env.episodeId)(session) !in db.scenes
    requires forall text :: (oracle.embed)(db.embedCalls, text) == None
    ensures Pass(env, oracle, opts, db).db.mem == db.mem
  {
    var e := EpisodeStep(env, oracle, db, session);
    assert !e.ok;
    assert EpisodePhase(env, oracle, db, Sessions(db.mem)) == e;
  }
}
