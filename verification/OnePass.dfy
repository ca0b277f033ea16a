/**
 One pass from reading its window of turns to its end: plan, commit, reconcile. The plan is
 made before the transaction opens and the transaction checks it again; what a plan
 promises, and what the memory of any store promises, together say how the transaction ends.
 */
module OnePass {
  import opened Tables
  import opened Topics
  import opened Reconcile
  import opened Atoms
  import opened Store
  import opened Distill
  import opened Decisions
  import opened Packing
  import opened Prompts
  import opened Planning
  import opened PlanningProofs
  import opened ConsolidationProofs
  import opened MemoryProofs
  import C = Consolidation
  import opened SceneFrames
  import Runs
  import Windows

  /** What the transaction will be asked to do. */
  datatype Plan = Plan(ops: seq<C.Op>, prepared: seq<AtomWrite>)

  /** What planning is given. `extract` stands for the extraction reply and the neighbours
      retrieved for each candidate in it; it is `None` when that reply is malformed. */
  datatype Planner = Planner(extract: seq<Turn> -> Option<seq<Retrieved>>, replies: Replies, wording: Wording, batchSize: nat,
                             maxChars: int, atomId: (string, string) -> string, embed: string -> Option<Vec>)

  ghost predicate Decided(p: Planner, rs: seq<Retrieved>, ds: seq<Decision>)
    requires |ds| <= |rs|
  {
    if p.batchSize <= 1 || |rs| <= 1 then DecidedSingly(p.replies, rs, ds)
    else exists chunks :: DecidedInChunks(p, rs, ds, chunks)
  }

  ghost predicate DecidedInChunks(p: Planner, rs: seq<Retrieved>, ds: seq<Decision>, chunks: seq<seq<Retrieved>>)
    requires |ds| <= |rs|
  {
    && LegalSplit(Builder(p.wording), p.batchSize, p.maxChars, chunks, rs) && Greedy(Builder(p.wording), p.batchSize, p.maxChars, chunks)
    && DecidedByBatch(p.replies, rs, chunks, ds)
  }

  ghost predicate PlannedBy(p: Planner, rs: seq<Retrieved>, plan: Plan, planned: seq<Decision>, final: seq<Decision>) {
    && |planned| == |rs| == |final|
    && Decided(p, rs, planned) && AllFit(rs, final)
    && Reconciled(p.replies, rs, NewIds(p.atomId, rs), planned, final)
    && plan.ops == ToOps(rs, NewIds(p.atomId, rs), final)
    && PreparedWell(plan.ops, plan.prepared)
    && forall w <- plan.prepared :: (p.embed)(w.content) == Some(w.vec)
  }

  /** The plan is what the replies call for. */
  ghost predicate PlannedFor(p: Planner, rs: seq<Retrieved>, plan: Plan) {
    exists planned, final :: PlannedBy(p, rs, plan, planned, final)
  }

  // ----- Why planning may fail

  /** Some candidate has neither a valid batch slot nor a valid reply of its own. */
  ghost predicate UndecidedFor(p: Planner, rs: seq<Retrieved>) {
    if p.batchSize <= 1 || |rs| <= 1 then exists i :: 0 <= i < |rs| && Individual(p.replies, i, Allowed(rs[i])) == None
    else exists chunks :: UndecidedIn(p, rs, chunks)
  }

  ghost predicate UndecidedIn(p: Planner, rs: seq<Retrieved>, chunks: seq<seq<Retrieved>>) {
    && LegalSplit(Builder(p.wording), p.batchSize, p.maxChars, chunks, rs) && Greedy(Builder(p.wording), p.batchSize, p.maxChars, chunks)
    && Undecided(p.replies, rs, chunks)
  }

  /** The first decision that clashes with the final ones before it got a malformed replan. */
  ghost predicate ReplanFails(p: Planner, rs: seq<Retrieved>, planned: seq<Decision>, out: seq<Decision>) {
    && |planned| == |rs| && |out| < |rs| && Decided(p, rs, planned)
    && Reconciled(p.replies, rs, NewIds(p.atomId, rs), planned, out)
    && NextDecision(p.replies, rs, NewIds(p.atomId, rs), planned, out) == None
  }

  /** The plan is reconciled, and a winner of it could not be embedded. */
  ghost predicate EmbedFails(p: Planner, rs: seq<Retrieved>, planned: seq<Decision>, final: seq<Decision>, i: int) {
    && |planned| == |rs| == |final| && Decided(p, rs, planned)
    && Reconciled(p.replies, rs, NewIds(p.atomId, rs), planned, final)
    && 0 <= i < |rs| && final[i].action != C.Skip && (p.embed)(rs[i].content) == None
  }

  ghost predicate PlanFails(p: Planner, turns: seq<Turn>) {
    turns != []
    && var rs := (p.extract)(turns);
    || rs == None
    || UndecidedFor(p, rs.value)
    || (exists planned, out :: ReplanFails(p, rs.value, planned, out))
    || exists planned, final, i :: EmbedFails(p, rs.value, planned, final, i)
  }

  method Decide(p: Planner, rs: seq<Retrieved>) returns (r: Option<seq<Decision>>)
    ensures r.Some? ==> |r.value| == |rs| && AllFit(rs, r.value) && Decided(p, rs, r.value)
    ensures r.None? ==> UndecidedFor(p, rs)
  {
    if p.batchSize <= 1 || |rs| <= 1 {
      r := DecideSingly(p.replies, rs);
    } else {
      var chunks;
      r, chunks := DecideByBatch(p.replies, rs, p.wording, p.batchSize, p.maxChars);
      assert r.Some? ==> DecidedInChunks(p, rs, r.value, chunks);
      assert r.None? ==> UndecidedIn(p, rs, chunks);
    }
  }

  /** The candidates of a pass: those extracted from its turns, or none when it has no turns. */
  function Candidates(p: Planner, turns: seq<Turn>): Option<seq<Retrieved>> {
    if turns == [] then Some([]) else (p.extract)(turns)
  }

  /** Everything before the transaction. A pass without turns asks no model and cannot fail here. */
  method PlanL1(p: Planner, turns: seq<Turn>) returns (plan: Option<Plan>)
    ensures turns == [] ==> plan == Some(Plan([], []))
    ensures plan == None ==> PlanFails(p, turns)
    ensures plan.Some? ==> Candidates(p, turns).Some? && PlannedFor(p, Candidates(p, turns).value, plan.value)
  {
    var ops: seq<C.Op> := [];
    ghost var planned: seq<Decision>, final: seq<Decision> := [], [];
    ghost var rs: seq<Retrieved> := [];
    if |turns| > 0 {
      var extracted := (p.extract)(turns);
      if extracted == None { return None; }
      rs := extracted.value;
      var decisions := Decide(p, extracted.value);
      if decisions == None { return None; }
      var newIds := NewIds(p.atomId, extracted.value);
      var reconciled := ReconcilePlan(p.replies, extracted.value, newIds, decisions.value);
      if reconciled == None {
        ghost var out :| |out| < |rs| && Reconciled(p.replies, rs, newIds, decisions.value, out)
          && NextDecision(p.replies, rs, newIds, decisions.value, out) == None;
        assert ReplanFails(p, rs, decisions.value, out);
        return None;
      }
      ops := ToOps(extracted.value, newIds, reconciled.value);
      planned, final := decisions.value, reconciled.value;
    }
    var prepared := PrepareAtoms(p.embed, ops);
    if prepared == None {
      ghost var i :| 0 <= i < |ops| && ops[i].action != C.Skip && (p.embed)(ops[i].content) == None;
      assert EmbedFails(p, rs, planned, final, i);
      return None;
    }
    plan := Some(Plan(ops, prepared.value));
    assert PlannedBy(p, rs, plan.value, planned, final);
  }

  function LastSeq(turns: seq<Turn>): Option<nat> {
    if turns == [] then None else Some(turns[|turns| - 1].seqNo)
  }

  /** The atoms shown to the model are still active. */
  ghost predicate ShownActive(mem: Memory, rs: seq<Retrieved>) {
    forall r, m :: r in rs && m in r.existing ==> IsActive(mem, m.id)
  }

  lemma PlanCommits(p: Planner, rs: seq<Retrieved>, plan: Plan, mem: Memory, window: seq<string>, last: Option<nat>)
    requires PlannedFor(p, rs, plan) && MemSound(mem) && HonestIds(p.atomId, mem)
    requires forall s :: s in window ==> s in StreamIds(mem.stream)
    ensures C.Body(mem, plan.ops, plan.prepared, window, last).Ok? <==> TargetsActive(mem, plan.ops)
    ensures forall op <- plan.ops :: C.ValidOp(op)
    ensures ShownActive(mem, rs) ==> TargetsActive(mem, plan.ops)
  {
    var planned, final :| PlannedBy(p, rs, plan, planned, final);
    PlanCommitsExactly(p.atomId, p.replies, rs, planned, final, mem, plan.prepared, window, last);
    FinalOpsValid(rs, NewIds(p.atomId, rs), final);
    if ShownActive(mem, rs) { ShownTargets(p, rs, plan, final, mem); }
  }

  lemma ShownTargets(p: Planner, rs: seq<Retrieved>, plan: Plan, final: seq<Decision>, mem: Memory)
    requires |rs| == |final| && AllFit(rs, final) && plan.ops == ToOps(rs, NewIds(p.atomId, rs), final) && ShownActive(mem, rs)
    ensures TargetsActive(mem, plan.ops)
  {
    forall i, t | 0 <= i < |plan.ops| && C.Retargets(plan.ops[i]) && t in plan.ops[i].targets ensures IsActive(mem, t) {
      assert Fits(final[i], Allowed(rs[i])) && t in final[i].targets;
      var m :| m in rs[i].existing && m.id == t;
      assert rs[i] in rs;
    }
  }

  /** How a pass ended: nothing to do, no plan, or run. */
  datatype Ending = Skipped | Unplanned | Ran(result: PassResult)

  /** The whole pass. It is skipped exactly when no turn waits and the store is clean; a failure
      of planning changes nothing; the transaction fails if and only if some target has
      stopped being active since it was shown to the model, and then changes nothing either;
      after it, L2 and L3 run over what it committed. */
  method DistillOnce(store: Falda, opts: Options, p: Planner, limit: nat) returns (r: Ending, ghost plan: Plan)
    requires MemSound(store.db.mem) && HonestIds(p.atomId, store.db.mem)
    modifies store
    ensures var turns := Windows.NextWindow(old(store.db.mem.stream), old(store.db.mem.watermark), limit);
            && (r.Skipped? <==> turns == [] && !old(store.db.dirty))
            && (r.Unplanned? ==> PlanFails(p, turns))
            && (r.Ran? ==> Candidates(p, turns).Some? && PlannedFor(p, Candidates(p, turns).value, plan))
            && (r.Ran? && ShownActive(old(store.db.mem), Candidates(p, turns).value) ==> !r.result.L1Fault?)
            && (r.Ran? && !r.result.L1Fault? ==>
                 Out(store.db, r.result.Returned?)
                 == Pass(store.env, store.oracle, opts, C.Commit(old(store.db), plan.ops, plan.prepared, StreamIds(turns), LastSeq(turns)).db))
    ensures r.Ran? ==> (r.result.L1Fault? <==> !TargetsActive(old(store.db.mem), plan.ops))
    ensures r.Ran? && !r.result.L1Fault? && CollisionFree(store.env) && WellFormed(store.env, old(store.db)) ==>
              var turns := Windows.NextWindow(old(store.db.mem.stream), old(store.db.mem.watermark), limit);
              store.db.mem.watermark == if turns == [] then old(store.db.mem.watermark) else Some(turns[|turns| - 1].seqNo)
    ensures !r.Ran? || r.result.L1Fault? ==> store.db == old(store.db)
  {
    plan := Plan([], []);
    var turns := Windows.NextWindow(store.db.mem.stream, store.db.mem.watermark, limit);
    if turns == [] && !store.db.dirty { return Skipped, plan; }
    var made := PlanL1(p, turns);
    if made == None { return Unplanned, plan; }
    plan := made.value;
    WindowStored(store.db.mem, limit, turns);
    PlanCommits(p, Candidates(p, turns).value, plan, store.db.mem, StreamIds(turns), LastSeq(turns));
    ghost var was := store.db;
    var result := DistillPlanned(store, opts, made.value.ops, made.value.prepared, StreamIds(turns), LastSeq(turns));
    if !result.L1Fault? {
      WatermarkMoves(p, Candidates(p, turns).value, plan, was, StreamIds(turns), LastSeq(turns));
      WatermarkStays(store.env, store.oracle, opts, was, plan, StreamIds(turns), LastSeq(turns), store.db, result.Returned?);
    }
    r := Ran(result);
  }

  /** A commit moves the watermark to the last turn of the window, if there is one. */
  lemma WatermarkMoves(p: Planner, rs: seq<Retrieved>, plan: Plan, db: Db, window: seq<string>, last: Option<nat>)
    requires PlannedFor(p, rs, plan) && MemSound(db.mem)
    requires forall op <- plan.ops :: C.ValidOp(op)
    requires C.Commit(db, plan.ops, plan.prepared, window, last).fault == None
    ensures C.Commit(db, plan.ops, plan.prepared, window, last).db.mem.watermark == if last.Some? then last else db.mem.watermark
  {
    PreparedWellIsPrepared(plan.ops, plan.prepared);
    CommitConsolidates(db.mem, plan.ops, plan.prepared, window, last);
  }

  /** Nothing in L2 or L3 moves it. */
  lemma WatermarkStays(env: Env, oracle: Oracle, opts: Options, db: Db, plan: Plan, window: seq<string>, last: Option<nat>, d: Db,
                       ok: bool)
    requires Out(d, ok) == Pass(env, oracle, opts, C.Commit(db, plan.ops, plan.prepared, window, last).db)
    ensures CollisionFree(env) && WellFormed(env, db) ==> d.mem == C.Commit(db, plan.ops, plan.prepared, window, last).db.mem
  {
    var l1 := C.Commit(db, plan.ops, plan.prepared, window, last).db;
    if CollisionFree(env) && WellFormed(env, db) {
      assert WellFormed(env, l1);
      Runs.PassKept(env, oracle, opts, l1, Out(d, ok));
    }
  }

  lemma {:induction false} AfterStored(stream: seq<Turn>, afterSeq: nat)
    ensures forall t <- Windows.After(stream, afterSeq) :: t in stream
  {
    if stream != [] {
      AfterStored(stream[1..], afterSeq);
      assert stream == [stream[0]] + stream[1..];
    }
  }

  lemma WindowStored(mem: Memory, limit: nat, turns: seq<Turn>)
    requires turns == Windows.NextWindow(mem.stream, mem.watermark, limit)
    ensures forall s :: s in StreamIds(turns) ==> s in StreamIds(mem.stream)
  {
    AfterStored(mem.stream, Windows.Cursor(mem.watermark));
    var behind := Windows.After(mem.stream, Windows.Cursor(mem.watermark));
    forall s | s in StreamIds(turns) ensures s in StreamIds(mem.stream) {
      var i :| 0 <= i < |turns| && StreamIds(turns)[i] == s;
      assert turns[i] == behind[i] && behind[i] in behind;
      var k :| 0 <= k < |mem.stream| && mem.stream[k] == turns[i];
      assert StreamIds(mem.stream)[k] == s;
    }
  }

  // ----- What a pass asks of the memory holds on every run

  /** The write does not use the derived id of other words. */
  ghost predicate HonestWrite(atomId: (string, string) -> string, w: AtomWrite) {
    forall kind, content :: atomId(kind, content) == w.id ==> w.kind == kind && w.content == content
  }

  ghost predicate HonestStep(atomId: (string, string) -> string, step: Runs.Step) {
    match step
    case PublicAtom(w) => HonestWrite(atomId, w)
    case L1(_, prepared, _, _) => forall w <- prepared :: HonestWrite(atomId, w)
    case _ => true
  }

  /** Planned writes always are. */
  lemma PlannedWritesHonest(p: Planner, rs: seq<Retrieved>, plan: Plan)
    requires PlannedFor(p, rs, plan) && InjectiveId(p.atomId)
    ensures forall w <- plan.prepared :: HonestWrite(p.atomId, w)
  {
    var planned, final :| PlannedBy(p, rs, plan, planned, final);
    forall w <- plan.prepared ensures HonestWrite(p.atomId, w) {
      forall kind, content | (p.atomId)(kind, content) == w.id ensures w.kind == kind && w.content == content {
        NewRowIsHonest(p.atomId, rs, final, plan.ops, w, kind, content);
      }
    }
  }

  lemma SameAtomsHonest(atomId: (string, string) -> string, mem: Memory, out: Memory)
    requires HonestIds(atomId, mem) && SameAtoms(mem, out)
    ensures HonestIds(atomId, out)
  {
  }

  lemma WriteHonest(atomId: (string, string) -> string, mem: Memory, w: AtomWrite, policy: ExistingPolicy)
    requires HonestIds(atomId, mem) && HonestWrite(atomId, w)
    ensures WriteAtom(mem, w, policy).Ok? ==> HonestIds(atomId, WriteAtom(mem, w, policy).value)
  {
  }

  lemma {:induction false} WritesHonest(atomId: (string, string) -> string, mem: Memory, prepared: seq<AtomWrite>)
    requires HonestIds(atomId, mem) && forall w <- prepared :: HonestWrite(atomId, w)
    ensures C.PhaseA(mem, prepared).Ok? ==> HonestIds(atomId, C.PhaseA(mem, prepared).value)
    decreases |prepared|
  {
    if prepared != [] {
      assert prepared[0] in prepared && forall w <- prepared[1..] :: w in prepared;
      WriteHonest(atomId, mem, prepared[0], Preserve);
      if WriteAtom(mem, prepared[0], Preserve).Ok? { WritesHonest(atomId, WriteAtom(mem, prepared[0], Preserve).value, prepared[1..]); }
    }
  }

  lemma CommitHonest(atomId: (string, string) -> string, db: Db, ops: seq<C.Op>, prepared: seq<AtomWrite>,
                     window: seq<string>, last: Option<nat>)
    requires MemSound(db.mem) && HonestIds(atomId, db.mem) && forall w <- prepared :: HonestWrite(atomId, w)
    ensures HonestIds(atomId, C.Commit(db, ops, prepared, window, last).db.mem)
  {
    WritesHonest(atomId, db.mem, prepared);
    PhaseASound(db.mem, prepared);
    var written := C.PhaseA(db.mem, prepared);
    if written.Ok? {
      PhaseBSound(written.value, ops, window);
      if C.PhaseB(written.value, ops, window).Ok? {
        SameAtomsHonest(atomId, written.value, C.PhaseB(written.value, ops, window).value);
      }
    }
  }

  lemma MemoryStepHonest(env: Env, atomId: (string, string) -> string, opts: Options, db: Db, step: Runs.Step)
    requires MemSound(db.mem) && HonestIds(atomId, db.mem) && HonestStep(atomId, step)
    requires step.AddTurn? || step.PublicAtom? || step.AddEvidence? || step.Archive? || step.L1? || step.MarkDirty?
    ensures HonestIds(atomId, Runs.Do(env, opts, db, step).mem)
  {
    match step
    case PublicAtom(w) => WriteHonest(atomId, db.mem, w, Overwrite);
    case AddEvidence(id, ids) => EvidenceSound(db.mem, id, ids);
    case Archive(id) => ArchiveSound(db.mem, id);
    case L1(ops, prepared, window, last) => CommitHonest(atomId, db, ops, prepared, window, last);
    case AddTurn(_, _, _) =>
    case MarkDirty =>
  }

  /** Whatever happened before, failed passes and interrupted rebuilds included, a pass finds
      the memory it asks for. */
  lemma {:induction false} RunsSuitPasses(env: Env, atomId: (string, string) -> string, opts: Options, steps: seq<Runs.Step>)
    requires CollisionFree(env) && Runs.HonestRun(env, opts, steps) && forall step <- steps :: HonestStep(atomId, step)
    ensures var mem := Runs.Run(env, opts, steps).mem; MemSound(mem) && HonestIds(atomId, mem)
  {
    Runs.RunsAreSound(env, opts, steps);
    if steps != [] {
      var n := |steps| - 1;
      var db := Runs.Run(env, opts, steps[..n]);
      assert steps[n] in steps && forall step <- steps[..n] :: step in steps;
      Runs.HonestPrefix(env, opts, steps, n);
      Runs.RunsAreSound(env, opts, steps[..n]);
      RunsSuitPasses(env, atomId, opts, steps[..n]);
      StepHonest(env, atomId, opts, db, steps[n]);
    }
  }

  lemma StepHonest(env: Env, atomId: (string, string) -> string, opts: Options, db: Db, step: Runs.Step)
    requires CollisionFree(env) && Runs.Honest(env, db, step) && Runs.Sound(env, db)
    requires HonestIds(atomId, db.mem) && HonestStep(atomId, step)
    ensures HonestIds(atomId, Runs.Do(env, opts, db, step).mem)
  {
    if step.L2? || step.WriteScene? || step.NewScene? || step.DropScene? || step.Reembed? {
      Runs.SceneStepSound(env, opts, db, step, Runs.Do(env, opts, db, step));
    } else {
      MemoryStepHonest(env, atomId, opts, db, step);
    }
  }
}
