/**
 A store over its whole life: turns, L1 transactions, L2/L3 passes that may fail anywhere,
 lifecycle calls, hand-written scenes and index rebuilds, in any order. From any state such
 a run reaches, one pass that returns settles the store. No step may assume that the one
 before it succeeded, so every lemma here speaks of failed steps too.
 */
module Runs {
  import opened Tables
  import opened TextOrder
  import opened Scenes
  import opened SceneFrames
  import opened Topics
  import opened Reconcile
  import opened ReconcileProofs
  import Atoms
  import opened MemoryProofs
  import C = Consolidation
  import ConsolidationProofs
  import TopicProofs
  import Windows

  datatype Step =
    | AddTurn(id: string, session: string, content: string)
    | PublicAtom(write: Atoms.AtomWrite)
    | AddEvidence(atomId: string, streamIds: seq<string>)
    | Archive(atomId: string)
    | L1(ops: seq<C.Op>, prepared: seq<Atoms.AtomWrite>, window: seq<string>, last: Option<nat>)
    | L2(services: Oracle)
    | WriteScene(sceneId: string, w: SceneWrite, services: Oracle)
    | NewScene(w: SceneWrite, services: Oracle)
    | DropScene(sceneId: string)
    | Reembed(services: Oracle)
    | MarkDirty

  const EMPTY := Db(Memory([], map[], [], [], map[], [], None), map[], [], map[], "", None, false, 0, 0, 0)

  function Or(r: Atoms.Result<Memory>, mem: Memory): Memory {
    match r case Ok(m) => m case Err(_) => mem
  }

  function Do(env: Env, opts: Options, db: Db, step: Step): Db {
    match step
    case AddTurn(id, session, content) => db.(mem := db.mem.(stream := Windows.Append(db.mem.stream, id, session, content)))
    case PublicAtom(w) => db.(mem := Or(Atoms.WriteAtom(db.mem, w, Atoms.Overwrite), db.mem))
    case AddEvidence(id, ids) => db.(mem := Or(Atoms.AddEvidence(db.mem, id, ids), db.mem))
    case Archive(id) => db.(mem := Atoms.ArchiveAtom(db.mem, id), dirty := db.dirty || IsActive(db.mem, id))
    case L1(ops, prepared, window, last) => C.Commit(db, ops, prepared, window, last).db
    case L2(services) => Pass(env, services, opts, db).db
    case WriteScene(id, w, services) => Upsert(env, services, db, id, w).db
    case NewScene(w, services) => Upsert(env, services, Mint(db), NextId(db, env), w).db
    case DropScene(id) => Remove(db, id)
    case Reembed(services) => ReembedAll(env, services, db).db
    case MarkDirty => db.(dirty := true)
  }

  function Run(env: Env, opts: Options, steps: seq<Step>): Db {
    if steps == [] then EMPTY else Do(env, opts, Run(env, opts, steps[..|steps| - 1]), steps[|steps| - 1])
  }

  /** A caller who names a scene does not guess an id the store has yet to draw; it may name
      any scene there is, or was. */
  ghost predicate Honest(env: Env, db: Db, step: Step) {
    step.WriteScene? ==> forall n: nat :: n >= db.minted ==> (env.uuid)(n) != step.sceneId
  }

  ghost predicate HonestRun(env: Env, opts: Options, steps: seq<Step>) {
    forall k :: 0 <= k < |steps| ==> Honest(env, Run(env, opts, steps[..k]), steps[k])
  }

  // ----- What every pass keeps, wherever it fails

  ghost predicate Kept(env: Env, db: Db, d: Db) {
    && WellFormed(env, d) && d.mem == db.mem && d.dirty == db.dirty
    && forall id :: id in db.scenes ==> id in d.scenes
  }

  lemma UpsertKept(env: Env, oracle: Oracle, db: Db, id: string, w: SceneWrite)
    requires WellFormed(env, db) && forall n :: n >= db.minted ==> (env.uuid)(n) != id
    ensures Kept(env, db, Upsert(env, oracle, db, id, w).db)
  {
    UpsertFrame(env, oracle, db, id, w);
    OnlySceneKeepsWellFormed(env, db, Upsert(env, oracle, db, id, w).db, id);
  }

  lemma MintKept(env: Env, oracle: Oracle, db: Db, w: SceneWrite)
    requires CollisionFree(env) && WellFormed(env, db)
    ensures Kept(env, db, Upsert(env, oracle, Mint(db), NextId(db, env), w).db)
  {
    UpsertKept(env, oracle, Mint(db), NextId(db, env), w);
  }

  lemma {:induction false} EpisodesKept(env: Env, oracle: Oracle, db: Db, sessions: seq<string>)
    requires CollisionFree(env) && WellFormed(env, db)
    ensures Kept(env, db, EpisodePhase(env, oracle, db, sessions).db)
    decreases |sessions|
  {
    if sessions != [] {
      var o := EpisodeStep(env, oracle, db, sessions[0]);
      EpisodeKept(env, oracle, db, sessions[0]);
      if o.ok { EpisodesKept(env, oracle, o.db, sessions[1..]); }
    }
  }

  lemma EpisodeKept(env: Env, oracle: Oracle, db: Db, session: string)
    requires CollisionFree(env) && WellFormed(env, db)
    ensures Kept(env, db, EpisodeStep(env, oracle, db, session).db)
  {
    var id := (env.episodeId)(session);
    var members := SessionAtoms(db.mem, session);
    if members != [] {
      UpsertKept(env, oracle, db, id, Structural(Episode, EpisodeTitle(db, id, session), members, Live));
    } else if id in db.scenes {
      UpsertKept(env, oracle, db, id, Structural(Episode, db.scenes[id].title, [], Retired));
    }
  }

  ghost predicate Stored(db: Db, rows: seq<Row>) {
    forall r <- rows :: r.id in db.scenes
  }

  lemma PlaceKept(env: Env, oracle: Oracle, opts: Options, existing: seq<Row>, p: Progress, members: seq<string>)
    requires CollisionFree(env) && WellFormed(env, p.db) && Stored(p.db, existing)
    ensures Kept(env, p.db, PlaceCluster(env, oracle, opts, existing, p, members).db)
  {
    var q := PlaceCluster(env, oracle, opts, existing, p, members);
    var j := Chosen(members, existing, p.matched, opts.matchThreshold);
    if j < 0 {
      CreateKept(env, oracle, p, members, q);
    } else {
      var row := existing[j];
      assert row in existing;
      if q == Continue(env, oracle, p, row, members) {
        ContinueKept(env, oracle, p, row, members, q);
      } else {
        ReorganiseKept(env, oracle, p, row, members);
      }
    }
  }

  lemma CreateKept(env: Env, oracle: Oracle, p: Progress, members: seq<string>, q: Progress)
    requires CollisionFree(env) && WellFormed(env, p.db) && q == Create(env, oracle, p, members, Omitted)
    ensures Kept(env, p.db, q.db)
  {
    MintKept(env, oracle, p.db, NewTopic(env, p.db, members).(derivedFrom := Omitted));
  }

  lemma ContinueKept(env: Env, oracle: Oracle, p: Progress, row: Row, members: seq<string>, q: Progress)
    requires WellFormed(env, p.db) && row.id in p.db.scenes && q == Continue(env, oracle, p, row, members)
    ensures Kept(env, p.db, q.db)
  {
    UpsertKept(env, oracle, p.db, row.id, KeepTopic(row, members));
  }

  lemma ReorganiseKept(env: Env, oracle: Oracle, p: Progress, row: Row, members: seq<string>)
    requires CollisionFree(env) && WellFormed(env, p.db) && row.id in p.db.scenes
    ensures Kept(env, p.db, Reorganise(env, oracle, p, row, members).db)
  {
    var taken := p.(matched := p.matched + {row.id});
    var c := Create(env, oracle, taken, members, Given(Some([row.id])));
    MintKept(env, oracle, p.db, NewTopic(env, p.db, members).(derivedFrom := Given(Some([row.id]))));
    UpsertKept(env, oracle, c.db, row.id, RetireTopic(row).(supersededBy := Given(Some([NextId(p.db, env)]))));
  }

  lemma {:induction false} PlaceAllKept(env: Env, oracle: Oracle, opts: Options, existing: seq<Row>, p: Progress,
                                        clusters: seq<seq<string>>)
    requires CollisionFree(env) && WellFormed(env, p.db) && Stored(p.db, existing)
    ensures Kept(env, p.db, PlaceAll(env, oracle, opts, existing, p, clusters).db)
    decreases |clusters|
  {
    if clusters != [] && p.ok {
      PlaceKept(env, oracle, opts, existing, p, clusters[0]);
      PlaceAllKept(env, oracle, opts, existing, PlaceCluster(env, oracle, opts, existing, p, clusters[0]), clusters[1..]);
    }
  }

  lemma {:induction false} RetireKept(env: Env, oracle: Oracle, db: Db, existing: seq<Row>, matched: set<string>)
    requires WellFormed(env, db) && Stored(db, existing)
    ensures Kept(env, db, RetireUnmatched(env, oracle, db, existing, matched).db)
    decreases |existing|
  {
    if existing != [] {
      assert existing[0] in existing && forall r <- existing[1..] :: r in existing;
      if existing[0].id in matched {
        RetireKept(env, oracle, db, existing[1..], matched);
      } else {
        UpsertKept(env, oracle, db, existing[0].id, RetireTopic(existing[0]));
        var o := Upsert(env, oracle, db, existing[0].id, RetireTopic(existing[0]));
        if o.ok { RetireKept(env, oracle, o.db, existing[1..], matched); }
      }
    }
  }

  lemma TopicsKept(env: Env, oracle: Oracle, opts: Options, db: Db)
    requires CollisionFree(env) && WellFormed(env, db)
    ensures Kept(env, db, TopicPhase(env, oracle, opts, db).db)
  {
    var existing := TopicRows(db, db.sceneRows);
    TopicProofs.TopicRowsAre(db, db.sceneRows);
    if SortedActive(db.mem) == [] {
      RetireKept(env, oracle, db, existing, {});
    } else {
      var clusters := DerivedClusters(opts, db.mem);
      PlaceAllKept(env, oracle, opts, existing, Start(db), clusters);
      var p := PlaceAll(env, oracle, opts, existing, Start(db), clusters);
      RetireKept(env, oracle, p.db, existing, p.matched);
    }
  }

  lemma NarrateOneKept(env: Env, oracle: Oracle, db: Db, row: Row)
    requires WellFormed(env, db) && row.id in db.scenes
    ensures Kept(env, db, NarrateOne(env, oracle, db, row).db)
  {
    var words := Compose(oracle, db, row);
    ComposeFrame(oracle, db, row);
    UpsertKept(env, oracle, words.db, row.id, NarrationWrite(row, words, SceneHash(env, db.mem, row.scene.kind, row.scene.atomIds)));
  }

  lemma {:induction false} NarrateKept(env: Env, oracle: Oracle, db: Db, rows: seq<Row>)
    requires WellFormed(env, db) && Stored(db, rows)
    ensures Kept(env, db, Narrate(env, oracle, db, rows).db)
    decreases |rows|
  {
    if rows != [] {
      assert rows[0] in rows && forall r <- rows[1..] :: r in rows;
      NarrateOneKept(env, oracle, db, rows[0]);
      var n := NarrateOne(env, oracle, db, rows[0]);
      if n.ok { NarrateKept(env, oracle, n.db, rows[1..]); }
    }
  }

  lemma {:induction false} LiveRowsStored(db: Db, ids: seq<string>)
    ensures Stored(db, LiveRows(db, ids))
  {
    if ids != [] { LiveRowsStored(db, ids[1..]); }
  }

  /** The pass got as far as its completeness gate. */
  predicate ReachesGate(env: Env, oracle: Oracle, opts: Options, db: Db) {
    var e := EpisodePhase(env, oracle, db, Sessions(db.mem));
    e.ok
    && var t := TopicPhase(env, oracle, opts, e.db);
    t.ok && Narrate(env, oracle, t.db, LiveRows(t.db, t.db.sceneRows)).ok
  }

  lemma SynthesisFrame(oracle: Oracle, db: Db, noScenes: bool, hash: string, d: Db)
    requires d == SynthesiseFrom(oracle, db, noScenes, hash).db
    ensures d == db.(core := d.core, coreState := d.coreState, llmCalls := d.llmCalls)
  {
  }

  ghost predicate SameScenes(db: Db, d: Db) {
    d.scenes == db.scenes && d.sceneRows == db.sceneRows && d.minted == db.minted && d.mem == db.mem
  }

  lemma FinishFrame(env: Env, oracle: Oracle, n: Narrated)
    ensures var o := Finish(env, oracle, n); SameScenes(n.db, o.db) && o.db.dirty == !o.ok
  {
    SynthesisFrame(oracle, n.db, NoLiveScenes(n.db), CoreHash(env, n.db), Synthesise(env, oracle, n.db).db);
  }

  lemma FinishKept(env: Env, db: Db, d: Db)
    requires WellFormed(env, db) && SameScenes(db, d)
    ensures WellFormed(env, d)
  {
  }

  /** The three stages before the gate, in the order a pass reaches them. */
  lemma StagesKept(env: Env, oracle: Oracle, opts: Options, db: Db)
    requires CollisionFree(env) && WellFormed(env, db)
    ensures var e := EpisodePhase(env, oracle, db, Sessions(db.mem)).db;
            var t := TopicPhase(env, oracle, opts, e).db;
            var n := Narrate(env, oracle, t, LiveRows(t, t.sceneRows)).db;
            Kept(env, db, e) && Kept(env, db, t) && Kept(env, db, n)
  {
    var e := EpisodePhase(env, oracle, db, Sessions(db.mem));
    EpisodesKept(env, oracle, db, Sessions(db.mem));
    TopicsKept(env, oracle, opts, e.db);
    var t := TopicPhase(env, oracle, opts, e.db);
    LiveRowsStored(t.db, t.db.sceneRows);
    NarrateKept(env, oracle, t.db, LiveRows(t.db, t.db.sceneRows));
  }

  /** Wherever it stops, a pass keeps the scene table well formed and the memory as it was;
      it clears the dirty flag exactly when it returns, sets it when the completeness gate
      fails, and leaves it alone when it throws before the gate. */
  lemma PassKept(env: Env, oracle: Oracle, opts: Options, db: Db, o: Out)
    requires CollisionFree(env) && WellFormed(env, db) && o == Pass(env, oracle, opts, db)
    ensures WellFormed(env, o.db) && o.db.mem == db.mem
    ensures o.db.dirty == (!o.ok && (db.dirty || ReachesGate(env, oracle, opts, db)))
  {
    var e := EpisodePhase(env, oracle, db, Sessions(db.mem));
    var t := TopicPhase(env, oracle, opts, e.db);
    var n := Narrate(env, oracle, t.db, LiveRows(t.db, t.db.sceneRows));
    StagesKept(env, oracle, opts, db);
    if e.ok && t.ok && n.ok {
      FinishFrame(env, oracle, n);
      FinishKept(env, n.db, o.db);
    }
  }

  // ----- What rebuilding and removing keep

  lemma {:induction false} ReembedScenesKept(env: Env, oracle: Oracle, db: Db, k: nat)
    requires WellFormed(env, db)
    ensures Kept(env, db, ReembedScenes(env, oracle, db, k).db)
    decreases |db.sceneRows| - k
  {
    if k < |db.sceneRows| {
      var o := ReembedScene(env, oracle, db, db.sceneRows[k]);
      assert Kept(env, db, o.db);
      if o.ok { ReembedScenesKept(env, oracle, o.db, k + 1); }
    }
  }

  lemma {:induction false} ReembedAtomsKept(env: Env, oracle: Oracle, db: Db, k: nat)
    requires WellFormed(env, db) && ConsolidationProofs.VecsOwned(db.mem)
    ensures var d := ReembedAtoms(oracle, db, k).db;
            WellFormed(env, d) && d.mem == db.mem.(atomVecs := d.mem.atomVecs) && d.dirty == db.dirty && ConsolidationProofs.VecsOwned(d.mem)
    decreases |db.mem.atomRows| - k
  {
    if k < |db.mem.atomRows| {
      var o := ReembedAtom(oracle, db, db.mem.atomRows[k]);
      if o.ok { ReembedAtomsKept(env, oracle, o.db, k + 1); }
    }
  }

  lemma ReembedKept(env: Env, oracle: Oracle, db: Db)
    requires WellFormed(env, db)
    ensures var d := ReembedAll(env, oracle, db).db;
            WellFormed(env, d) && d.mem == db.mem.(atomVecs := d.mem.atomVecs) && ConsolidationProofs.VecsOwned(d.mem)
  {
    ReembedAtomsKept(env, oracle, Dropped(db), 0);
    var o := ReembedAtoms(oracle, Dropped(db), 0);
    ReembedScenesKept(env, oracle, o.db, 0);
  }

  lemma {:induction false} WithoutDistinct(ids: seq<string>, id: string)
    requires Distinct(ids)
    ensures Distinct(Without(ids, id))
  {
    if ids != [] {
      WithoutDistinct(ids[1..], id);
      assert ids[0] !in ids[1..];
    }
  }

  lemma RemoveKept(env: Env, db: Db, id: string)
    requires WellFormed(env, db)
    ensures WellFormed(env, Remove(db, id))
  {
    WithoutDistinct(db.sceneRows, id);
  }

  // ----- Whole runs

  ghost predicate Sound(env: Env, db: Db) {
    WellFormed(env, db) && MemSound(db.mem)
  }

  lemma MemoryStepSound(env: Env, opts: Options, db: Db, step: Step)
    requires MemSound(db.mem)
    ensures MemSound(Do(env, opts, db, step).mem) || step.L2? || step.WriteScene? || step.NewScene? || step.Reembed?
  {
    match step
    case AddTurn(id, session, content) => AppendSound(db.mem, id, session, content);
    case PublicAtom(w) => WriteSound(db.mem, w, Atoms.Overwrite);
    case AddEvidence(id, ids) => EvidenceSound(db.mem, id, ids);
    case Archive(id) => ArchiveSound(db.mem, id);
    case L1(ops, prepared, window, last) => CommitSound(db, ops, prepared, window, last);
    case _ =>
  }

  lemma PassSound(env: Env, opts: Options, db: Db, services: Oracle, d: Db)
    requires CollisionFree(env) && Sound(env, db) && d == Pass(env, services, opts, db).db
    ensures Sound(env, d) && d.mem.atoms == db.mem.atoms
  {
    PassKept(env, services, opts, db, Pass(env, services, opts, db));
  }

  lemma WriteStepSound(env: Env, db: Db, id: string, w: SceneWrite, services: Oracle, d: Db)
    requires Sound(env, db) && (forall n: nat :: n >= db.minted ==> (env.uuid)(n) != id) && d == Upsert(env, services, db, id, w).db
    ensures Sound(env, d) && d.mem.atoms == db.mem.atoms
  {
    UpsertKept(env, services, db, id, w);
  }

  lemma NewStepSound(env: Env, db: Db, w: SceneWrite, services: Oracle, d: Db)
    requires CollisionFree(env) && Sound(env, db) && d == Upsert(env, services, Mint(db), NextId(db, env), w).db
    ensures Sound(env, d) && d.mem.atoms == db.mem.atoms
  {
    MintKept(env, services, db, w);
  }

  lemma ReembedSound(env: Env, db: Db, services: Oracle, d: Db)
    requires Sound(env, db) && d == ReembedAll(env, services, db).db
    ensures Sound(env, d) && d.mem.atoms == db.mem.atoms
  {
    ReembedKept(env, services, db);
  }

  /** Steps on scenes, and rebuilds, keep the store sound and every atom as it is. */
  lemma SceneStepSound(env: Env, opts: Options, db: Db, step: Step, d: Db)
    requires CollisionFree(env) && Honest(env, db, step) && Sound(env, db) && d == Do(env, opts, db, step)
    requires step.L2? || step.WriteScene? || step.NewScene? || step.DropScene? || step.Reembed?
    ensures Sound(env, d) && d.mem.atoms == db.mem.atoms
  {
    match step
    case L2(services) => PassSound(env, opts, db, services, d);
    case WriteScene(id, w, services) => WriteStepSound(env, db, id, w, services, d);
    case NewScene(w, services) => NewStepSound(env, db, w, services, d);
    case DropScene(id) => RemoveKept(env, db, id);
    case Reembed(services) => ReembedSound(env, db, services, d);
  }

  lemma StepKeepsSound(env: Env, opts: Options, db: Db, step: Step)
    requires CollisionFree(env) && Honest(env, db, step) && Sound(env, db)
    ensures Sound(env, Do(env, opts, db, step))
  {
    if step.L2? || step.WriteScene? || step.NewScene? || step.DropScene? || step.Reembed? {
      SceneStepSound(env, opts, db, step, Do(env, opts, db, step));
    } else {
      MemoryStepKept(env, opts, db, step);
      MemoryStepSound(env, opts, db, step);
    }
  }

  lemma MemoryStepKept(env: Env, opts: Options, db: Db, step: Step)
    requires WellFormed(env, db)
    requires !step.L2? && !step.WriteScene? && !step.NewScene? && !step.DropScene? && !step.Reembed?
    ensures WellFormed(env, Do(env, opts, db, step))
  {
  }

  lemma HonestPrefix(env: Env, opts: Options, steps: seq<Step>, n: nat)
    requires HonestRun(env, opts, steps) && n < |steps|
    ensures HonestRun(env, opts, steps[..n]) && Honest(env, Run(env, opts, steps[..n]), steps[n])
  {
    forall k | 0 <= k < n ensures Honest(env, Run(env, opts, steps[..n][..k]), steps[..n][k]) {
      assert steps[..n][..k] == steps[..k];
    }
  }

  /** In every state a store can get into, the scene table is well formed, atoms and their rows
      agree, evidence points at stored turns and atoms, and no vector is left over. */
  lemma {:induction false} RunsAreSound(env: Env, opts: Options, steps: seq<Step>)
    requires CollisionFree(env) && HonestRun(env, opts, steps)
    ensures Sound(env, Run(env, opts, steps))
  {
    if steps != [] {
      var n := |steps| - 1;
      HonestPrefix(env, opts, steps, n);
      RunsAreSound(env, opts, steps[..n]);
      StepKeepsSound(env, opts, Run(env, opts, steps[..n]), steps[n]);
    }
  }

  /** Whatever happened before, failed passes included: one pass that returns settles the
      store, and a later pass over the same memory calls neither service and changes nothing,
      however those services would answer. */
  lemma OnePassSettles(env: Env, opts: Options, steps: seq<Step>, first: Oracle, second: Oracle, d: Db, dirty: bool)
    requires opts.matchThreshold <= 1.0 && opts.reorgThreshold > 0.0
    requires CollisionFree(env) && HonestRun(env, opts, steps)
    requires Pass(env, first, opts, Run(env, opts, steps)) == Out(d, true)
    ensures SettledStore(env, opts, d) && !d.dirty
    ensures Pass(env, second, opts, d.(dirty := dirty)) == Out(d, true)
  {
    var db := Run(env, opts, steps);
    RunsAreSound(env, opts, steps);
    PassSettles(env, first, opts, db);
    PassIdempotent(env, first, second, opts, db, dirty);
  }
}
