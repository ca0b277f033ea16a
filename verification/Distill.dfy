/**
 The distiller's steps on a store, as the pass performs them: the L1 transaction, episode
 scenes, topic placement, narration and core synthesis. Each is proved to have the effect
 of its value function; a step that throws leaves behind what it had written before, as the
 source's awaits do, except inside the transaction, which puts back the tables it started
 from. `ok` is false when a step throws.
 */
module Distill {
  import opened Tables
  import opened Scenes
  import opened Topics
  import opened Reconcile
  import opened Store
  import Atoms
  import C = Consolidation
  import Clustering
  import Jaccard
  import Text
  import TextOrder

  // ----- The L1 transaction

  /** The i-th target is the first that is not active, and the fault says whether it is missing. */
  ghost predicate FirstIneligible(mem: Memory, ids: seq<string>, i: int, fault: Atoms.Fault) {
    && 0 <= i < |ids| && (forall k :: 0 <= k < i ==> IsActive(mem, ids[k])) && !IsActive(mem, ids[i])
    && fault == if ids[i] in mem.atoms then Atoms.TargetInactive(ids[i]) else Atoms.TargetMissing(ids[i])
  }

  method AssertTargetsActive(mem: Memory, ids: seq<string>) returns (fault: Option<Atoms.Fault>)
    ensures C.CheckTargets(mem, ids) == if fault.Some? then Atoms.Err(fault.value) else Atoms.Ok(mem)
    ensures fault.Some? ==> exists i :: FirstIneligible(mem, ids, i, fault.value)
    ensures fault == None ==> forall id <- ids :: IsActive(mem, id)
  {
    for i := 0 to |ids|
      invariant C.CheckTargets(mem, ids) == C.CheckTargets(mem, ids[i..])
      invariant forall k :: 0 <= k < i ==> IsActive(mem, ids[k])
    {
      assert ids[i..][1..] == ids[i + 1..];
      if ids[i] !in mem.atoms {
        assert FirstIneligible(mem, ids, i, Atoms.TargetMissing(ids[i]));
        return Some(Atoms.TargetMissing(ids[i]));
      }
      if mem.atoms[ids[i]].status != Active {
        assert FirstIneligible(mem, ids, i, Atoms.TargetInactive(ids[i]));
        return Some(Atoms.TargetInactive(ids[i]));
      }
    }
    return None;
  }

  method Revalidate(mem: Memory, ops: seq<C.Op>) returns (fault: Option<Atoms.Fault>)
    ensures C.Phase0(mem, ops) == if fault.Some? then Atoms.Err(fault.value) else Atoms.Ok(mem)
  {
    for i := 0 to |ops|
      invariant C.Phase0(mem, ops) == C.Phase0(mem, ops[i..])
    {
      assert ops[i..][1..] == ops[i + 1..];
      if C.Retargets(ops[i]) {
        fault := AssertTargetsActive(mem, ops[i].targets);
        if fault.Some? { return; }
      }
    }
    return None;
  }

  method WriteWinners(store: Falda, prepared: seq<Atoms.AtomWrite>) returns (fault: Option<Atoms.Fault>)
    modifies store
    ensures store.db == old(store.db).(mem := store.db.mem)
    ensures match C.PhaseA(old(store.db).mem, prepared)
            case Ok(mem) => fault == None && store.db.mem == mem
            case Err(f) => fault == Some(f)
  {
    for i := 0 to |prepared|
      invariant store.db == old(store.db).(mem := store.db.mem)
      invariant C.PhaseA(old(store.db).mem, prepared) == C.PhaseA(store.db.mem, prepared[i..])
    {
      assert prepared[i..][1..] == prepared[i + 1..];
      fault := store.WriteAtomWithEmbeddingSync(prepared[i], Atoms.Preserve);
      if fault.Some? { return; }
    }
    return None;
  }

  method InheritedEvidence(mem: Memory, targets: seq<string>) returns (ids: seq<string>)
    ensures ids == C.Inherited(mem, targets)
  {
    ids := [];
    for i := 0 to |targets|
      invariant ids + C.Inherited(mem, targets[i..]) == C.Inherited(mem, targets)
    {
      InheritedTurn(mem, targets, i, ids);
      ids := ids + Atoms.EvidenceOf(mem.evidence, targets[i]);
    }
    assert ids + [] == ids;
  }

  lemma InheritedTurn(mem: Memory, targets: seq<string>, i: nat, ids: seq<string>)
    requires i < |targets|
    ensures ids + C.Inherited(mem, targets[i..])
            == ids + Atoms.EvidenceOf(mem.evidence, targets[i]) + C.Inherited(mem, targets[i + 1..])
  {
    assert targets[i..][1..] == targets[i + 1..];
  }

  /** Evidence, then lifecycle, for one candidate. */
  method ApplyDecision(store: Falda, op: C.Op, window: seq<string>) returns (fault: Option<Atoms.Fault>)
    requires C.ValidOp(op)
    modifies store
    ensures store.db == old(store.db).(mem := store.db.mem, dirty := store.db.dirty)
    ensures match C.ApplyOp(old(store.db).mem, op, window)
            case Ok(mem) => fault == None && store.db.mem == mem && store.db.dirty == (old(store.db).dirty || C.Losers(op) != [])
            case Err(f) => fault == Some(f)
  {
    match op.action
    case Skip =>
      return None;
    case Store =>
      fault := store.AddEvidence(op.newId, window);
    case Update =>
      var oldId := op.targets[0];
      fault := AssertTargetsActive(store.db.mem, op.targets);
      if fault.Some? { return; }
      var inherited := InheritedEvidence(store.db.mem, op.targets);
      fault := store.AddEvidence(op.newId, inherited + window);
      if fault.Some? { return; }
      UpdateLosers(op);
      ghost var linked := store.db.mem;
      if op.newId != oldId {
        store.SupersedeAtom(oldId);
        assert store.db.mem.atoms == Atoms.SetStatus(linked, oldId, Superseded).atoms;
      }
    case Merge =>
      fault := AssertTargetsActive(store.db.mem, op.targets);
      if fault.Some? { return; }
      var inherited := InheritedEvidence(store.db.mem, op.targets);
      fault := store.AddEvidence(op.newId, inherited + window);
      if fault.Some? { return; }
      var lifecycleLosers := TextOrder.Without(op.targets, op.newId);
      store.MergeAtoms(lifecycleLosers);
  }

  lemma UpdateLosers(op: C.Op)
    requires op.action == C.Update && |op.targets| == 1
    ensures C.Losers(op) == if op.targets[0] == op.newId then [] else op.targets
  {
    assert op.targets[1..] == [] && op.targets == [op.targets[0]];
    assert TextOrder.Without([], op.newId) == [];
    assert TextOrder.Without(op.targets, op.newId)
        == (if op.targets[0] == op.newId then [] else [op.targets[0]]) + TextOrder.Without(op.targets[1..], op.newId);
  }

  method ApplyDecisions(store: Falda, ops: seq<C.Op>, window: seq<string>) returns (fault: Option<Atoms.Fault>)
    requires forall op <- ops :: C.ValidOp(op)
    modifies store
    ensures store.db == old(store.db).(mem := store.db.mem, dirty := store.db.dirty)
    ensures match C.PhaseB(old(store.db).mem, ops, window)
            case Ok(mem) => fault == None && store.db.mem == mem && store.db.dirty == (old(store.db).dirty || C.Dirties(ops))
            case Err(f) => fault == Some(f)
  {
    for i := 0 to |ops|
      invariant store.db == old(store.db).(mem := store.db.mem, dirty := store.db.dirty)
      invariant C.PhaseB(old(store.db).mem, ops, window) == C.PhaseB(store.db.mem, ops[i..], window)
      invariant store.db.dirty == (old(store.db).dirty || C.Dirties(ops[..i]))
    {
      assert ops[i..][1..] == ops[i + 1..];
      assert ops[i] in ops;
      DirtiesTurn(ops, i);
      fault := ApplyDecision(store, ops[i], window);
      if fault.Some? { return; }
    }
    assert ops[..|ops|] == ops;
    return None;
  }

  lemma DirtiesTurn(ops: seq<C.Op>, i: nat)
    requires i < |ops|
    ensures C.Dirties(ops[..i + 1]) <==> C.Dirties(ops[..i]) || C.Losers(ops[i]) != []
  {
    assert ops[..i + 1] == ops[..i] + [ops[i]];
    if C.Losers(ops[i]) != [] { assert ops[i] in ops[..i + 1]; }
  }

  /** The transaction: any fault puts back the tables it started from. */
  method CommitL1(store: Falda, ops: seq<C.Op>, prepared: seq<Atoms.AtomWrite>, window: seq<string>, last: Option<nat>)
    returns (fault: Option<Atoms.Fault>)
    requires forall op <- ops :: C.ValidOp(op)
    modifies store
    ensures C.Committed(store.db, fault) == C.Commit(old(store.db), ops, prepared, window, last)
  {
    var before := store.db;
    fault := Revalidate(store.db.mem, ops);
    if fault == None { fault := WriteWinners(store, prepared); }
    if fault == None { fault := ApplyDecisions(store, ops, window); }
    if fault.Some? {
      store.db := before;
    } else if last.Some? {
      store.db := store.db.(mem := store.db.mem.(watermark := last));
    }
  }

  // ----- L2: episodes

  method DistillEpisodes(store: Falda, sessions: seq<string>) returns (ok: bool)
    modifies store
    ensures Out(store.db, ok) == EpisodePhase(store.env, store.oracle, old(store.db), sessions)
  {
    for i := 0 to |sessions|
      invariant EpisodePhase(store.env, store.oracle, old(store.db), sessions)
             == EpisodePhase(store.env, store.oracle, store.db, sessions[i..])
    {
      assert sessions[i..][1..] == sessions[i + 1..];
      ok := DistillEpisode(store, sessions[i]);
      if !ok { return; }
    }
    return true;
  }

  method DistillEpisode(store: Falda, session: string) returns (ok: bool)
    modifies store
    ensures Out(store.db, ok) == EpisodeStep(store.env, store.oracle, old(store.db), session)
  {
    var id := (store.env.episodeId)(session);
    var members := SessionAtoms(store.db.mem, session);
    var existing := if id in store.db.scenes then Some(store.db.scenes[id]) else None;
    if |members| == 0 {
      ok := true;
      if existing.Some? {
        var _, done := store.UpsertScene(Some(id), Structural(Episode, existing.value.title, [], Retired));
        ok := done;
      }
      return;
    }
    var title := if existing.Some? then existing.value.title else "Session " + session;
    var _, done := store.UpsertScene(Some(id), Structural(Episode, title, members, Live));
    ok := done;
  }

  // ----- L2: topics

  method FindBestMatch(members: seq<string>, existing: seq<Row>, matched: set<string>) returns (best: Match)
    ensures best == BestMatch(members, existing, matched, |existing|)
  {
    best := Match(-1, 0.0);
    for k := 0 to |existing|
      invariant best == BestMatch(members, existing, matched, k)
    {
      if existing[k].id !in matched {
        var jaccard := Jaccard.Score(members, existing[k].scene.atomIds);
        if jaccard > best.score { best := Match(k, jaccard); }
      }
    }
  }

  /** Keep, replace or create: one cluster finds its scene. */
  method PlaceTopic(store: Falda, opts: Options, existing: seq<Row>, matched: set<string>, carriers: seq<string>,
                    members: seq<string>)
    returns (matched': set<string>, carriers': seq<string>, ok: bool)
    modifies store
    ensures Progress(store.db, ok, matched', carriers')
         == PlaceCluster(store.env, store.oracle, opts, existing, Progress(old(store.db), true, matched, carriers), members)
  {
    var best := FindBestMatch(members, existing, matched);
    if best.index >= 0 && best.score >= opts.matchThreshold {
      var row := existing[best.index];
      matched' := matched + {row.id};
      if Jaccard.ChurnFraction(members, row.scene.atomIds) < opts.reorgThreshold {
        var id, done := store.UpsertScene(Some(row.id), KeepTopic(row, members));
        return matched', carriers + [id], done;
      }
      var title := (store.env.provisionalTitle)(store.db.minted);
      var newId, created := store.UpsertScene(None, Structural(Topic, title, members, Live).(derivedFrom := Given(Some([row.id]))));
      if !created { return matched', carriers + [newId], false; }
      var _, retired := store.UpsertScene(Some(row.id), RetireTopic(row).(supersededBy := Given(Some([newId]))));
      return matched', carriers + [newId], retired;
    }
    var title := (store.env.provisionalTitle)(store.db.minted);
    var id, created := store.UpsertScene(None, Structural(Topic, title, members, Live));
    return matched, carriers + [id], created;
  }

  method PlaceTopics(store: Falda, opts: Options, existing: seq<Row>, clusters: seq<seq<string>>)
    returns (matched: set<string>, carriers: seq<string>, ok: bool)
    modifies store
    ensures Progress(store.db, ok, matched, carriers)
         == PlaceAll(store.env, store.oracle, opts, existing, Start(old(store.db)), clusters)
  {
    matched, carriers, ok := {}, [], true;
    assert clusters[0..] == clusters;
    for i := 0 to |clusters|
      invariant ok
      invariant PlaceAll(store.env, store.oracle, opts, existing, Start(old(store.db)), clusters)
             == PlaceAll(store.env, store.oracle, opts, existing, Progress(store.db, ok, matched, carriers), clusters[i..])
    {
      PlaceAllTurn(store.env, store.oracle, opts, existing, Progress(store.db, true, matched, carriers), clusters[i..]);
      assert clusters[i..][1..] == clusters[i + 1..];
      matched, carriers, ok := PlaceTopic(store, opts, existing, matched, carriers, clusters[i]);
      if !ok { return; }
    }
  }

  method RetireTopics(store: Falda, existing: seq<Row>, matched: set<string>) returns (ok: bool)
    modifies store
    ensures Out(store.db, ok) == RetireUnmatched(store.env, store.oracle, old(store.db), existing, matched)
  {
    for i := 0 to |existing|
      invariant RetireUnmatched(store.env, store.oracle, old(store.db), existing, matched)
             == RetireUnmatched(store.env, store.oracle, store.db, existing[i..], matched)
    {
      assert existing[i..][1..] == existing[i + 1..];
      if existing[i].id !in matched {
        var _, done := store.UpsertScene(Some(existing[i].id), RetireTopic(existing[i]));
        if !done { return false; }
      }
    }
    return true;
  }

  method DistillTopics(store: Falda, opts: Options) returns (matched: set<string>, carriers: seq<string>, ok: bool)
    modifies store
    ensures Progress(store.db, ok, matched, carriers) == TopicPhase(store.env, store.oracle, opts, old(store.db))
  {
    var existing := TopicRows(store.db, store.db.sceneRows);
    var ids := SortedActive(store.db.mem);
    if |ids| == 0 {
      ok := RetireTopics(store, existing, {});
      return {}, [], ok;
    }
    var clusters := Clustering.ClusterAtoms(opts.sim, opts.topicThreshold, AtomVecs(store.db.mem, ids));
    matched, carriers, ok := PlaceTopics(store, opts, existing, MemberLists(clusters));
    if ok { ok := RetireTopics(store, existing, matched); }
  }

  // ----- L2: narration

  method Ask(store: Falda) returns (reply: Option<string>)
    modifies store
    ensures store.db == old(store.db).(llmCalls := old(store.db).llmCalls + 1)
    ensures reply == (store.oracle.llm)(old(store.db).llmCalls)
  {
    reply := (store.oracle.llm)(store.db.llmCalls);
    store.db := store.db.(llmCalls := store.db.llmCalls + 1);
  }

  /** The two model calls; a scene without active members makes neither. */
  method ComposeWords(store: Falda, row: Row) returns (newTitle: string, newSummary: Option<string>,
                      narrationFailed: bool)
    modifies store
    ensures Words(store.db, newTitle, newSummary, narrationFailed) == Compose(store.oracle, old(store.db), row)
  {
    var sc := row.scene;
    newTitle, newSummary, narrationFailed := sc.title, sc.summary, false;
    if exists id <- sc.atomIds :: IsActive(store.db.mem, id) {
      var title := Ask(store);
      if title == None { return newTitle, newSummary, true; }
      newTitle := Text.SliceTo(Text.Trim(title.value), 200);
      var summary := Ask(store);
      if summary == None { return newTitle, newSummary, true; }
      newSummary := Some(Text.Trim(summary.value));
    }
  }

  method NarrateScene(store: Falda, row: Row) returns (failed: nat, ok: bool)
    modifies store
    ensures Narrated(store.db, ok, failed) == NarrateOne(store.env, store.oracle, old(store.db), row)
  {
    var sc := row.scene;
    var newHash := store.ComputeSceneHash(sc.kind, sc.atomIds);
    if sc.contentHash == Some(newHash) { return 0, true; }
    var newTitle, newSummary, narrationFailed := ComposeWords(store, row);
    var write := SceneWrite(sc.kind, if newTitle == "" then sc.title else newTitle, sc.atomIds, Given(newSummary),
                            Given(if narrationFailed then sc.contentHash else Some(newHash)), Given(Live), Omitted, Omitted);
    ghost var words := Words(store.db, newTitle, newSummary, narrationFailed);
    assert write == NarrationWrite(row, words, newHash);
    var _, done := store.UpsertScene(Some(row.id), write);
    return if narrationFailed then 1 else 0, done;
  }

  method NarrateScenes(store: Falda) returns (failed: nat, ok: bool)
    modifies store
    ensures Narrated(store.db, ok, failed)
         == Narrate(store.env, store.oracle, old(store.db), LiveRows(old(store.db), old(store.db).sceneRows))
  {
    var rows := LiveRows(store.db, store.db.sceneRows);
    failed := 0;
    for i := 0 to |rows|
      invariant Narrate(store.env, store.oracle, old(store.db), rows)
             == PlusFailed(Narrate(store.env, store.oracle, store.db, rows[i..]), failed)
    {
      NarrateTurn(store.env, store.oracle, store.db, rows, i, failed);
      var n, done := NarrateScene(store, rows[i]);
      failed := failed + n;
      if !done { return failed, false; }
    }
    return failed, true;
  }

  lemma NarrateTurn(env: Env, oracle: Oracle, db: Db, rows: seq<Row>, i: nat, failed: nat)
    requires i < |rows|
    ensures var n := NarrateOne(env, oracle, db, rows[i]);
            PlusFailed(Narrate(env, oracle, db, rows[i..]), failed)
            == if n.ok then PlusFailed(Narrate(env, oracle, n.db, rows[i + 1..]), failed + n.failed) else PlusFailed(n, failed)
  {
    assert rows[i..][0] == rows[i] && rows[i..][1..] == rows[i + 1..];
  }

  function PlusFailed(n: Narrated, failed: nat): Narrated {
    n.(failed := failed + n.failed)
  }

  // ----- L3

  method SynthesizeCore(store: Falda) returns (failed: bool)
    modifies store
    ensures Synthesised(store.db, failed) == Synthesise(store.env, store.oracle, old(store.db))
  {
    var newCoreHash := store.ComputeCoreHash();
    failed := false;
    if NoLiveScenes(store.db) {
      store.db := store.db.(core := "", coreState := None);
    } else if store.db.coreState != Some(newCoreHash) {
      var newCore := Ask(store);
      if newCore == None {
        failed := true;
      } else {
        store.db := store.db.(core := newCore.value, coreState := Some(newCoreHash));
      }
    }
  }

  // ----- The pass

  /** L2 and L3. `ok` is false when the pass throws. */
  method ReconcileScenes(store: Falda, opts: Options) returns (ok: bool)
    modifies store
    ensures Out(store.db, ok) == Pass(store.env, store.oracle, opts, old(store.db))
  {
    ok := DistillEpisodes(store, Sessions(store.db.mem));
    if !ok { return; }
    var _, _, placed := DistillTopics(store, opts);
    if !placed { return false; }
    var l2FailureCount, narrated := NarrateScenes(store);
    if !narrated { return false; }
    var l3Failed := SynthesizeCore(store);
    if l2FailureCount > 0 || l3Failed {
      store.db := store.db.(dirty := true);
      return false;
    }
    store.db := store.db.(dirty := false);
    return true;
  }

  datatype PassResult = Returned | L1Fault(fault: Atoms.Fault) | L2Incomplete

  /** A pass whose plan is made: a fault in L1 changes nothing, and a failure after it leaves L1 committed. */
  method DistillPlanned(store: Falda, opts: Options, ops: seq<C.Op>, prepared: seq<Atoms.AtomWrite>,
                        window: seq<string>, last: Option<nat>)
    returns (r: PassResult)
    requires forall op <- ops :: C.ValidOp(op)
    modifies store
    ensures var l1 := C.Commit(old(store.db), ops, prepared, window, last);
            match r
            case L1Fault(f) => l1 == C.Committed(old(store.db), Some(f)) && store.db == old(store.db)
            case _ => l1.fault == None && Out(store.db, r.Returned?) == Pass(store.env, store.oracle, opts, l1.db)
  {
    var fault := CommitL1(store, ops, prepared, window, last);
    if fault.Some? { return L1Fault(fault.value); }
    var ok := ReconcileScenes(store, opts);
    return if ok then Returned else L2Incomplete;
  }
}
