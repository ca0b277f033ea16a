/**
 The L1 transaction: revalidate every target, write the winning atoms, then apply each
 candidate's decision in order and advance the watermark - all of it or none of it.
 */
module Consolidation {
  import opened Tables
  import opened TextOrder
  import opened Atoms

  datatype Action = Store | Update | Merge | Skip

  /** One candidate's decision, ready to apply. `newId` is derived from kind and content. */
  datatype Op = Op(action: Action, newId: string, kind: string, content: string, confidence: string,
                   targets: seq<string>)

  predicate Retargets(op: Op) { op.action == Update || op.action == Merge }

  /** The shape every validated decision has. */
  predicate ValidOp(op: Op) {
    match op.action
    case Store | Skip => op.targets == []
    case Update => |op.targets| == 1
    case Merge => |op.targets| >= 2
  }

  function Losers(op: Op): (ids: seq<string>)
    ensures forall id :: id in ids <==> Retargets(op) && id in op.targets && id != op.newId
  {
    if Retargets(op) then Without(op.targets, op.newId) else []
  }

  /** First ineligible target, as the assertion reports it. */
  function CheckTargets(mem: Memory, ids: seq<string>): Result<Memory>
    decreases |ids|
  {
    if ids == [] then Ok(mem)
    else if ids[0] !in mem.atoms then Err(TargetMissing(ids[0]))
    else if mem.atoms[ids[0]].status != Active then Err(TargetInactive(ids[0]))
    else CheckTargets(mem, ids[1..])
  }

  function Phase0(mem: Memory, ops: seq<Op>): Result<Memory>
    decreases |ops|
  {
    if ops == [] then Ok(mem)
    else
      var checked :- if Retargets(ops[0]) then CheckTargets(mem, ops[0].targets) else Ok(mem);
      Phase0(mem, ops[1..])
  }

  function PhaseA(mem: Memory, prepared: seq<AtomWrite>): Result<Memory>
    decreases |prepared|
  {
    if prepared == [] then Ok(mem)
    else
      var next :- WriteAtom(mem, prepared[0], Preserve);
      PhaseA(next, prepared[1..])
  }

  function Inherited(mem: Memory, targets: seq<string>): (ids: seq<string>)
    ensures forall s :: s in ids <==> exists t :: t in targets && Edge(t, s) in mem.evidence
  {
    if targets == [] then []
    else
      assert targets == [targets[0]] + targets[1..];
      EvidenceOf(mem.evidence, targets[0]) + Inherited(mem, targets[1..])
  }

  function ApplyOp(mem: Memory, op: Op, window: seq<string>): Result<Memory> {
    match op.action
    case Skip => Ok(mem)
    case Store => AddEvidence(mem, op.newId, window)
    case Update | Merge =>
      var checked :- CheckTargets(mem, op.targets);
      var linked :- AddEvidence(mem, op.newId, Inherited(mem, op.targets) + window);
      Ok(Retire(linked, op))
  }

  /** The lifecycle half of a decision; a winner named among its own targets is spared. */
  function Retire(mem: Memory, op: Op): Memory {
    match op.action
    case Store | Skip => mem
    case Update =>
      if op.targets != [] && op.targets[0] != op.newId then SetStatus(mem, op.targets[0], Superseded) else mem
    case Merge => MergeAll(mem, Losers(op))
  }

  function PhaseB(mem: Memory, ops: seq<Op>, window: seq<string>): Result<Memory>
    decreases |ops|
  {
    if ops == [] then Ok(mem)
    else
      var next :- ApplyOp(mem, ops[0], window);
      PhaseB(next, ops[1..], window)
  }

  /** The transaction body; `last` is the newest turn of the window, absent on a pass without turns. */
  function Body(mem: Memory, ops: seq<Op>, prepared: seq<AtomWrite>, window: seq<string>,
                last: Option<nat>): Result<Memory> {
    var checked :- Phase0(mem, ops);
    var written :- PhaseA(mem, prepared);
    var applied :- PhaseB(written, ops, window);
    Ok(if last.Some? then applied.(watermark := last) else applied)
  }

  predicate Dirties(ops: seq<Op>) {
    exists op <- ops :: Losers(op) != []
  }

  datatype Committed = Committed(db: Db, fault: Option<Fault>)

  /** All or nothing: a fault restores the tables the transaction started from. */
  function Commit(db: Db, ops: seq<Op>, prepared: seq<AtomWrite>, window: seq<string>, last: Option<nat>): Committed {
    match Body(db.mem, ops, prepared, window, last)
    case Err(f) => Committed(db, Some(f))
    case Ok(mem) => Committed(db.(mem := mem, dirty := db.dirty || Dirties(ops)), None)
  }
}
