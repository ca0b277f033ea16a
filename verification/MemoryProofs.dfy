/**
 What every step on the memory tables keeps, whether or not it commits.
 */
module MemoryProofs {
  import opened Tables
  import opened TextOrder
  import opened Atoms
  import opened Consolidation
  import opened ConsolidationProofs
  import opened PlanningProofs
  import Windows

  /** The row order lists each atom once. */
  ghost predicate RowsListed(mem: Memory) {
    Distinct(mem.atomRows) && forall id :: id in mem.atoms <==> id in mem.atomRows
  }

  ghost predicate MemSound(mem: Memory) {
    RowsListed(mem) && EvidenceClosed(mem) && VecsOwned(mem)
  }

  /** The same atoms with the same kind and content: what they say never changes. */
  ghost predicate SameAtoms(mem: Memory, out: Memory) {
    && out.atoms.Keys == mem.atoms.Keys
    && forall id :: id in mem.atoms ==> out.atoms[id].kind == mem.atoms[id].kind && out.atoms[id].content == mem.atoms[id].content
  }

  ghost predicate SoundIfOk(mem: Memory, r: Result<Memory>) {
    r.Ok? ==> MemSound(r.value) && SameAtoms(mem, r.value)
  }

  lemma AppendSound(mem: Memory, id: string, session: string, content: string)
    requires MemSound(mem)
    ensures MemSound(mem.(stream := Windows.Append(mem.stream, id, session, content)))
  {
    var grown := Windows.Append(mem.stream, id, session, content);
    forall e | e in mem.evidence ensures e.streamId in StreamIds(grown) {
      var i :| 0 <= i < |mem.stream| && StreamIds(mem.stream)[i] == e.streamId;
      assert StreamIds(grown)[i] == e.streamId;
    }
  }

  lemma WriteSound(mem: Memory, w: AtomWrite, policy: ExistingPolicy)
    requires MemSound(mem)
    ensures WriteAtom(mem, w, policy).Ok? ==> MemSound(WriteAtom(mem, w, policy).value)
  {
  }

  lemma {:induction false} EvidenceSound(mem: Memory, atomId: string, ids: seq<string>)
    requires MemSound(mem)
    ensures SoundIfOk(mem, Atoms.AddEvidence(mem, atomId, ids))
    decreases |ids|
  {
    if ids != [] && AddEdge(mem, atomId, ids[0]).Ok? {
      EvidenceSound(AddEdge(mem, atomId, ids[0]).value, atomId, ids[1..]);
    }
  }

  lemma StatusSound(mem: Memory, id: string, status: AtomStatus)
    requires MemSound(mem)
    ensures MemSound(SetStatus(mem, id, status)) && SameAtoms(mem, SetStatus(mem, id, status))
  {
  }

  lemma ArchiveSound(mem: Memory, id: string)
    requires MemSound(mem)
    ensures MemSound(Atoms.ArchiveAtom(mem, id)) && SameAtoms(mem, Atoms.ArchiveAtom(mem, id))
  {
    StatusSound(mem, id, Archived);
  }

  lemma {:induction false} MergeSound(mem: Memory, ids: seq<string>)
    requires MemSound(mem)
    ensures MemSound(MergeAll(mem, ids)) && SameAtoms(mem, MergeAll(mem, ids))
    decreases |ids|
  {
    if ids != [] {
      StatusSound(mem, ids[0], Merged);
      MergeSound(SetStatus(mem, ids[0], Merged), ids[1..]);
    }
  }

  lemma RetireSound(mem: Memory, op: Op)
    requires MemSound(mem)
    ensures MemSound(Retire(mem, op)) && SameAtoms(mem, Retire(mem, op))
  {
    MergeSound(mem, Losers(op));
    if op.targets != [] { StatusSound(mem, op.targets[0], Superseded); }
  }

  lemma LinkedSound(mem: Memory, op: Op, ids: seq<string>)
    requires MemSound(mem) && Atoms.AddEvidence(mem, op.newId, ids).Ok?
    ensures var out := Retire(Atoms.AddEvidence(mem, op.newId, ids).value, op); MemSound(out) && SameAtoms(mem, out)
  {
    EvidenceSound(mem, op.newId, ids);
    RetireSound(Atoms.AddEvidence(mem, op.newId, ids).value, op);
  }

  lemma ApplySound(mem: Memory, op: Op, window: seq<string>)
    requires MemSound(mem) && ApplyOp(mem, op, window).Ok?
    ensures MemSound(ApplyOp(mem, op, window).value) && SameAtoms(mem, ApplyOp(mem, op, window).value)
  {
    if op.action == Store { EvidenceSound(mem, op.newId, window); }
    if Retargets(op) {
      CheckTargetsExactly(mem, op.targets);
      LinkedSound(mem, op, Inherited(mem, op.targets) + window);
    }
  }

  lemma {:induction false} PhaseASound(mem: Memory, prepared: seq<AtomWrite>)
    requires MemSound(mem)
    ensures PhaseA(mem, prepared).Ok? ==> MemSound(PhaseA(mem, prepared).value)
    decreases |prepared|
  {
    if prepared != [] {
      WriteSound(mem, prepared[0], Preserve);
      if WriteAtom(mem, prepared[0], Preserve).Ok? {
        PhaseASound(WriteAtom(mem, prepared[0], Preserve).value, prepared[1..]);
      }
    }
  }

  lemma {:induction false} PhaseBSound(mem: Memory, ops: seq<Op>, window: seq<string>)
    requires MemSound(mem)
    ensures SoundIfOk(mem, PhaseB(mem, ops, window))
    decreases |ops|
  {
    if ops != [] {
      if ApplyOp(mem, ops[0], window).Ok? {
        ApplySound(mem, ops[0], window);
        PhaseBSound(ApplyOp(mem, ops[0], window).value, ops[1..], window);
      }
    }
  }

  lemma CommitSound(db: Db, ops: seq<Op>, prepared: seq<AtomWrite>, window: seq<string>, last: Option<nat>)
    requires MemSound(db.mem)
    ensures MemSound(Commit(db, ops, prepared, window, last).db.mem)
  {
    PhaseASound(db.mem, prepared);
    if PhaseA(db.mem, prepared).Ok? {
      PhaseBSound(PhaseA(db.mem, prepared).value, ops, window);
    }
  }
}
