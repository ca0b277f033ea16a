/**
 The L1 transaction refines one update of the atom table: exactly when it commits, which
 rows it retires, which evidence it links, and that it touches no other row.
 */
module ConsolidationProofs {
  import opened Tables
  import opened TextOrder
  import opened Atoms
  import opened Consolidation

  // ----- What a store looks like between transactions

  ghost predicate EvidenceClosed(mem: Memory) {
    forall e :: e in mem.evidence ==> e.atomId in mem.atoms && e.streamId in StreamIds(mem.stream)
  }

  /** No vector is left over from an atom that is gone. */
  ghost predicate VecsOwned(mem: Memory) {
    forall id :: id in mem.atomVecs ==> id in mem.atoms
  }

  // ----- The conditions for committing

  ghost predicate TargetsActive(mem: Memory, ops: seq<Op>) {
    forall i, t :: 0 <= i < |ops| && Retargets(ops[i]) && t in ops[i].targets ==> IsActive(mem, t)
  }

  predicate Retires(op: Op, id: string) {
    Retargets(op) && id in op.targets && id != op.newId
  }

  /** Some operation in `ops` retires `id`. */
  ghost predicate Loses(ops: seq<Op>, id: string) {
    exists i :: 0 <= i < |ops| && Retires(ops[i], id)
  }

  /** No decision names a target that an earlier decision has taken. */
  ghost predicate ConflictFree(ops: seq<Op>) {
    forall j, t :: 0 <= j < |ops| && Retargets(ops[j]) && t in ops[j].targets ==> !Loses(ops[..j], t)
  }

  ghost predicate Writable(mem: Memory, w: AtomWrite) {
    if w.id in mem.atoms then mem.atoms[w.id].content == w.content && mem.atoms[w.id].kind == w.kind
    else w.id !in mem.atomVecs
  }

  ghost predicate AllWritable(mem: Memory, prepared: seq<AtomWrite>) {
    forall i :: 0 <= i < |prepared| ==> Writable(mem, prepared[i])
  }

  ghost predicate WindowKnown(mem: Memory, ops: seq<Op>, window: seq<string>) {
    (exists i :: 0 <= i < |ops| && ops[i].action != Skip) ==> forall s :: s in window ==> s in StreamIds(mem.stream)
  }

  /** One prepared write for each atom id a decision needs, and no two for one id. */
  ghost predicate PreparedFor(ops: seq<Op>, prepared: seq<AtomWrite>) {
    && (forall i, j :: 0 <= i < j < |prepared| ==> prepared[i].id != prepared[j].id)
    && (forall i :: 0 <= i < |ops| && ops[i].action != Skip ==> HasWrite(prepared, ops[i].newId))
  }

  ghost predicate HasWrite(prepared: seq<AtomWrite>, id: string) {
    exists i :: 0 <= i < |prepared| && prepared[i].id == id
  }

  // ----- Phase 0

  lemma {:induction false} CheckTargetsExactly(mem: Memory, ids: seq<string>)
    ensures CheckTargets(mem, ids).Ok? <==> forall t :: t in ids ==> IsActive(mem, t)
    ensures CheckTargets(mem, ids).Ok? ==> CheckTargets(mem, ids).value == mem
  {
    if ids != [] {
      assert ids[0] in ids;
      assert forall t :: t in ids <==> t == ids[0] || t in ids[1..];
      CheckTargetsExactly(mem, ids[1..]);
    }
  }

  ghost predicate OpTargetsActive(mem: Memory, op: Op) {
    Retargets(op) ==> forall t :: t in op.targets ==> IsActive(mem, t)
  }

  lemma TargetsActiveSplit(mem: Memory, ops: seq<Op>)
    requires ops != []
    ensures TargetsActive(mem, ops) <==> OpTargetsActive(mem, ops[0]) && TargetsActive(mem, ops[1..])
  {
    if OpTargetsActive(mem, ops[0]) && TargetsActive(mem, ops[1..]) {
      forall i, t | 0 <= i < |ops| && Retargets(ops[i]) && t in ops[i].targets ensures IsActive(mem, t) {
        if i > 0 { assert ops[1..][i - 1] == ops[i]; }
      }
    }
    if TargetsActive(mem, ops) {
      forall i, t | 0 <= i < |ops[1..]| && Retargets(ops[1..][i]) && t in ops[1..][i].targets ensures IsActive(mem, t) {
        assert ops[1..][i] == ops[i + 1];
      }
    }
  }

  lemma {:induction false} Phase0Exactly(mem: Memory, ops: seq<Op>)
    ensures Phase0(mem, ops).Ok? <==> TargetsActive(mem, ops)
  {
    if ops != [] {
      CheckTargetsExactly(mem, ops[0].targets);
      Phase0Exactly(mem, ops[1..]);
      TargetsActiveSplit(mem, ops);
    }
  }

  // ----- Phase A

  /** Rows of the text index for one atom. */
  function FtsCount(rows: seq<FtsRow>, id: string): nat {
    if rows == [] then 0 else (if rows[0].id == id then 1 else 0) + FtsCount(rows[1..], id)
  }

  lemma {:induction false} FtsCountAppend(rows: seq<FtsRow>, row: FtsRow, id: string)
    ensures FtsCount(rows + [row], id) == FtsCount(rows, id) + if row.id == id then 1 else 0
  {
    if rows == [] {
      assert rows + [row] == [row];
    } else {
      FtsCountAppend(rows[1..], row, id);
      assert (rows + [row])[1..] == rows[1..] + [row];
    }
  }

  lemma {:induction false} FtsCountWithout(rows: seq<FtsRow>, gone: string, id: string)
    ensures FtsCount(WithoutFts(rows, gone), id) == if id == gone then 0 else FtsCount(rows, id)
  {
    if rows != [] {
      FtsCountWithout(rows[1..], gone, id);
      var rest := WithoutFts(rows[1..], gone);
      assert ([rows[0]] + rest)[1..] == rest && ([rows[0]] + rest)[0] == rows[0];
      assert [] + rest == rest;
    }
  }

  /** Existing rows are kept as they were; each new id gets an active row. */
  ghost predicate AtomsWritten(mem: Memory, out: Memory, done: seq<AtomWrite>) {
    && (forall id :: id in out.atoms <==> id in mem.atoms || HasWrite(done, id))
    && (forall id :: id in mem.atoms ==> out.atoms[id] == mem.atoms[id])
    && (forall i :: 0 <= i < |done| && done[i].id !in mem.atoms ==>
          out.atoms[done[i].id] == Atom(done[i].kind, done[i].content, done[i].meta, Active))
  }

  /** Each written id has its own vector; no other vector changed. */
  ghost predicate VecsWritten(mem: Memory, out: Memory, done: seq<AtomWrite>) {
    && (forall i :: 0 <= i < |done| ==> done[i].id in out.atomVecs && out.atomVecs[done[i].id] == done[i].vec)
    && (forall id :: !HasWrite(done, id) ==> (id in out.atomVecs <==> id in mem.atomVecs))
    && (forall id :: !HasWrite(done, id) && id in mem.atomVecs ==> out.atomVecs[id] == mem.atomVecs[id])
  }

  /** An existing atom ends with exactly one text row, a new one with one more than any
      stray rows its id had; no other atom's rows changed. */
  ghost predicate FtsWritten(mem: Memory, out: Memory, done: seq<AtomWrite>) {
    forall id :: FtsCount(out.atomFts, id) ==
      if !HasWrite(done, id) then FtsCount(mem.atomFts, id)
      else if id in mem.atoms then 1 else FtsCount(mem.atomFts, id) + 1
  }

  /** What writing `done` has done to the atom and index tables. */
  ghost predicate Written(mem: Memory, out: Memory, done: seq<AtomWrite>) {
    && out == mem.(atoms := out.atoms, atomRows := out.atomRows, atomFts := out.atomFts, atomVecs := out.atomVecs)
    && AtomsWritten(mem, out, done)
    && VecsWritten(mem, out, done)
    && FtsWritten(mem, out, done)
  }

  ghost predicate DistinctWrites(prepared: seq<AtomWrite>) {
    forall i, j :: 0 <= i < j < |prepared| ==> prepared[i].id != prepared[j].id
  }

  lemma HasWriteExtended(done: seq<AtomWrite>, w: AtomWrite)
    ensures forall id :: HasWrite(done + [w], id) <==> HasWrite(done, id) || id == w.id
  {
    forall id ensures HasWrite(done + [w], id) <==> HasWrite(done, id) || id == w.id {
      if HasWrite(done, id) {
        var i :| 0 <= i < |done| && done[i].id == id;
        assert (done + [w])[i].id == id;
      }
      assert (done + [w])[|done|] == w;
    }
  }

  lemma WriteAtomStep(mem: Memory, mid: Memory, done: seq<AtomWrite>, w: AtomWrite)
    requires Written(mem, mid, done) && !HasWrite(done, w.id)
    ensures WriteAtom(mid, w, Preserve).Ok? <==> Writable(mem, w)
    ensures WriteAtom(mid, w, Preserve).Ok? ==> Written(mem, WriteAtom(mid, w, Preserve).value, done + [w])
  {
    assert w.id in mid.atoms <==> w.id in mem.atoms;
    var r := WriteAtom(mid, w, Preserve);
    if r.Ok? {
      var out := r.value;
      AtomsStep(mem, mid, done, w, out);
      VecsStep(mem, mid, done, w, out);
      FtsStep(mem, mid, done, w, out);
    }
  }

  lemma AtomsStep(mem: Memory, mid: Memory, done: seq<AtomWrite>, w: AtomWrite, out: Memory)
    requires AtomsWritten(mem, mid, done) && !HasWrite(done, w.id)
    requires WriteAtom(mid, w, Preserve) == Ok(out)
    ensures AtomsWritten(mem, out, done + [w])
  {
    HasWriteExtended(done, w);
    var all := done + [w];
    assert w.id in mid.atoms ==> out.atoms == mid.atoms;
    forall i | 0 <= i < |all| && all[i].id !in mem.atoms
      ensures out.atoms[all[i].id] == Atom(all[i].kind, all[i].content, all[i].meta, Active)
    {
      if i < |done| {
        assert HasWrite(done, done[i].id);
        assert all[i] == done[i];
      }
    }
  }

  lemma VecsStep(mem: Memory, mid: Memory, done: seq<AtomWrite>, w: AtomWrite, out: Memory)
    requires VecsWritten(mem, mid, done) && !HasWrite(done, w.id)
    requires out.atomVecs == mid.atomVecs[w.id := w.vec]
    ensures VecsWritten(mem, out, done + [w])
  {
    HasWriteExtended(done, w);
    var all := done + [w];
    forall i | 0 <= i < |all|
      ensures all[i].id in out.atomVecs && out.atomVecs[all[i].id] == all[i].vec
    {
      if i < |done| {
        assert HasWrite(done, done[i].id);
        assert all[i] == done[i];
      }
    }
  }

  lemma FtsStep(mem: Memory, mid: Memory, done: seq<AtomWrite>, w: AtomWrite, out: Memory)
    requires AtomsWritten(mem, mid, done) && FtsWritten(mem, mid, done) && !HasWrite(done, w.id)
    requires WriteAtom(mid, w, Preserve) == Ok(out)
    ensures FtsWritten(mem, out, done + [w])
  {
    HasWriteExtended(done, w);
    var fts := if w.id in mid.atoms then WithoutFts(mid.atomFts, w.id) else mid.atomFts;
    assert out.atomFts == fts + [FtsRow(w.id, w.content)];
    forall id
      ensures FtsCount(out.atomFts, id) ==
        if !HasWrite(done + [w], id) then FtsCount(mem.atomFts, id)
        else if id in mem.atoms then 1 else FtsCount(mem.atomFts, id) + 1
    {
      FtsCountAppend(fts, FtsRow(w.id, w.content), id);
      FtsCountWithout(mid.atomFts, w.id, id);
    }
  }

  lemma {:induction false} PhaseAExactly(mem: Memory, mid: Memory, done: seq<AtomWrite>, rest: seq<AtomWrite>)
    requires Written(mem, mid, done) && DistinctWrites(done + rest)
    ensures PhaseA(mid, rest).Ok? <==> AllWritable(mem, rest)
    ensures PhaseA(mid, rest).Ok? ==> Written(mem, PhaseA(mid, rest).value, done + rest)
    decreases |rest|
  {
    if rest == [] {
      assert done + rest == done;
    } else {
      var w := rest[0];
      assert !HasWrite(done, w.id) by {
        forall i | 0 <= i < |done| ensures done[i].id != w.id {
          assert (done + rest)[i] == done[i] && (done + rest)[|done|] == w;
        }
      }
      WriteAtomStep(mem, mid, done, w);
      AllWritableSplit(mem, rest);
      MoveHead(done, rest);
      var r := WriteAtom(mid, w, Preserve);
      if r.Ok? { PhaseAExactly(mem, r.value, done + [w], rest[1..]); }
    }
  }

  lemma AllWritableSplit(mem: Memory, rest: seq<AtomWrite>)
    requires rest != []
    ensures AllWritable(mem, rest) <==> Writable(mem, rest[0]) && AllWritable(mem, rest[1..])
  {
    assert forall i :: 1 <= i < |rest| ==> rest[i] == rest[1..][i - 1];
  }

  // ----- Evidence

  /** The edges a list of decisions calls for, one decision at a time. */
  ghost predicate Linked(edges: seq<Edge>, ops: seq<Op>, window: seq<string>, a: string, s: string)
    decreases |ops|, 0
  {
    if ops == [] then Edge(a, s) in edges
    else
      var front, op := ops[..|ops| - 1], ops[|ops| - 1];
      || Linked(edges, front, window, a, s)
      || (op.action != Skip && op.newId == a
          && (s in window || (Retargets(op) && LinkedToTarget(edges, front, window, op.targets, s))))
  }

  ghost predicate LinkedToTarget(edges: seq<Edge>, ops: seq<Op>, window: seq<string>, targets: seq<string>, s: string)
    decreases |ops|, 1
  {
    exists t :: t in targets && Linked(edges, ops, window, t, s)
  }

  lemma {:induction false} AddEvidenceExactly(mem: Memory, id: string, ids: seq<string>)
    requires EvidenceClosed(mem) && id in mem.atoms
    ensures AddEvidence(mem, id, ids).Ok? <==> forall s :: s in ids ==> s in StreamIds(mem.stream)
    ensures AddEvidence(mem, id, ids).Ok? ==>
              var out := AddEvidence(mem, id, ids).value;
              && out == mem.(evidence := out.evidence) && EvidenceClosed(out)
              && forall e :: e in out.evidence <==> e in mem.evidence || (e.atomId == id && e.streamId in ids)
    decreases |ids|
  {
    if ids != [] {
      assert ids == [ids[0]] + ids[1..];
      var r := AddEdge(mem, id, ids[0]);
      if r.Ok? {
        assert EvidenceClosed(r.value);
        AddEvidenceExactly(r.value, id, ids[1..]);
      }
    }
  }

  // ----- Phase B

  /** The status the decisions leave on `id`: the last one to retire it, if any did. */
  function FinalStatus(ops: seq<Op>, id: string, status: AtomStatus): AtomStatus {
    if ops == [] then status
    else
      var op := ops[|ops| - 1];
      if Retires(op, id) then (if op.action == Update then Superseded else Merged)
      else FinalStatus(ops[..|ops| - 1], id, status)
  }

  ghost predicate StatusesApplied(mem: Memory, out: Memory, done: seq<Op>) {
    && out.atoms.Keys == mem.atoms.Keys
    && forall id :: id in mem.atoms ==>
         out.atoms[id] == mem.atoms[id].(status := FinalStatus(done, id, mem.atoms[id].status))
  }

  ghost predicate EvidenceApplied(mem: Memory, out: Memory, done: seq<Op>, window: seq<string>) {
    forall a, s :: Edge(a, s) in out.evidence <==> Linked(mem.evidence, done, window, a, s)
  }

  /** What applying `done` has done: statuses and evidence, and nothing else. */
  ghost predicate Applied(mem: Memory, out: Memory, done: seq<Op>, window: seq<string>) {
    && out == mem.(atoms := out.atoms, evidence := out.evidence)
    && StatusesApplied(mem, out, done)
    && EvidenceApplied(mem, out, done, window)
    && EvidenceClosed(out)
  }

  lemma LosesSplit(ops: seq<Op>, id: string)
    requires ops != []
    ensures Loses(ops, id) <==> Loses(ops[..|ops| - 1], id) || Retires(ops[|ops| - 1], id)
  {
    var front := ops[..|ops| - 1];
    assert forall i :: 0 <= i < |front| ==> front[i] == ops[i];
  }

  lemma {:induction false} FinalStatusUnlost(ops: seq<Op>, id: string, status: AtomStatus)
    ensures !Loses(ops, id) ==> FinalStatus(ops, id, status) == status
    ensures Loses(ops, id) ==> FinalStatus(ops, id, status) == Superseded || FinalStatus(ops, id, status) == Merged
  {
    if ops != [] {
      FinalStatusUnlost(ops[..|ops| - 1], id, status);
      LosesSplit(ops, id);
    }
  }

  lemma {:induction false} MergeAllEffect(mem: Memory, ids: seq<string>)
    ensures var out := MergeAll(mem, ids);
            && out == mem.(atoms := out.atoms) && out.atoms.Keys == mem.atoms.Keys
            && forall id :: id in mem.atoms ==>
                 out.atoms[id] == if id in ids then mem.atoms[id].(status := Merged) else mem.atoms[id]
    decreases |ids|
  {
    if ids != [] {
      assert ids == [ids[0]] + ids[1..];
      MergeAllEffect(SetStatus(mem, ids[0], Merged), ids[1..]);
    }
  }

  lemma RetireEffect(mem: Memory, op: Op)
    requires ValidOp(op)
    ensures var out := Retire(mem, op);
            && out == mem.(atoms := out.atoms) && out.atoms.Keys == mem.atoms.Keys
            && forall id :: id in mem.atoms ==>
                 out.atoms[id] == if Retires(op, id) then mem.atoms[id].(status := if op.action == Update then Superseded else Merged)
                                  else mem.atoms[id]
  {
    if op.action == Merge { MergeAllEffect(mem, Losers(op)); }
  }

  lemma EvidenceStep(mem: Memory, mid: Memory, out: Memory, done: seq<Op>, op: Op, window: seq<string>,
                     added: seq<string>)
    requires EvidenceApplied(mem, mid, done, window) && op.action != Skip
    requires forall e :: e in out.evidence <==> e in mid.evidence || (e.atomId == op.newId && e.streamId in added)
    requires forall s :: s in added <==> s in window || (Retargets(op) && exists t :: t in op.targets && Edge(t, s) in mid.evidence)
    ensures EvidenceApplied(mem, out, done + [op], window)
  {
    var all := done + [op];
    assert all[..|all| - 1] == done && all[|all| - 1] == op;
    forall a, s ensures Edge(a, s) in out.evidence <==> Linked(mem.evidence, all, window, a, s) {
      assert Edge(a, s) in mid.evidence <==> Linked(mem.evidence, done, window, a, s);
      if a == op.newId && Retargets(op) {
        assert (exists t :: t in op.targets && Edge(t, s) in mid.evidence) <==> LinkedToTarget(mem.evidence, done, window, op.targets, s) by {
          if t :| t in op.targets && Edge(t, s) in mid.evidence { assert Linked(mem.evidence, done, window, t, s); }
          if LinkedToTarget(mem.evidence, done, window, op.targets, s) {
            var t :| t in op.targets && Linked(mem.evidence, done, window, t, s);
            assert Edge(t, s) in mid.evidence;
          }
        }
      }
    }
  }

  lemma EvidenceSkip(mem: Memory, mid: Memory, done: seq<Op>, op: Op, window: seq<string>)
    requires EvidenceApplied(mem, mid, done, window) && op.action == Skip
    ensures EvidenceApplied(mem, mid, done + [op], window)
  {
    var all := done + [op];
    assert all[..|all| - 1] == done && all[|all| - 1] == op;
    forall a, s ensures Edge(a, s) in mid.evidence <==> Linked(mem.evidence, all, window, a, s) {
      assert Edge(a, s) in mid.evidence <==> Linked(mem.evidence, done, window, a, s);
    }
  }

  lemma StatusStep(mem: Memory, mid: Memory, out: Memory, done: seq<Op>, op: Op)
    requires ValidOp(op) && StatusesApplied(mem, mid, done) && out.atoms == Retire(mid, op).atoms
    ensures StatusesApplied(mem, out, done + [op])
  {
    var all := done + [op];
    assert all[..|all| - 1] == done && all[|all| - 1] == op;
    RetireEffect(mid, op);
  }

  ghost predicate KnownFor(mem: Memory, op: Op, window: seq<string>) {
    op.action != Skip ==> forall s :: s in window ==> s in StreamIds(mem.stream)
  }

  ghost predicate Unclaimed(done: seq<Op>, op: Op) {
    Retargets(op) ==> forall t :: t in op.targets ==> !Loses(done, t)
  }

  lemma ActiveUnlessLost(mem: Memory, mid: Memory, done: seq<Op>, ids: seq<string>)
    requires StatusesApplied(mem, mid, done)
    requires forall t :: t in ids ==> IsActive(mem, t)
    ensures (forall t :: t in ids ==> IsActive(mid, t)) <==> (forall t :: t in ids ==> !Loses(done, t))
  {
    forall t | t in ids ensures IsActive(mid, t) <==> !Loses(done, t) {
      assert IsActive(mem, t);
      FinalStatusUnlost(done, t, Active);
    }
  }

  /** One decision applies exactly when its targets are unclaimed and its window is known. */
  lemma ApplyOpStep(mem: Memory, mid: Memory, done: seq<Op>, op: Op, window: seq<string>)
    requires Applied(mem, mid, done, window) && ValidOp(op)
    requires OpTargetsActive(mem, op) && (op.action != Skip ==> op.newId in mem.atoms)
    ensures ApplyOp(mid, op, window).Ok? <==> Unclaimed(done, op) && KnownFor(mem, op, window)
    ensures ApplyOp(mid, op, window).Ok? ==> Applied(mem, ApplyOp(mid, op, window).value, done + [op], window)
  {
    match op.action
    case Skip =>
      EvidenceSkip(mem, mid, done, op, window);
      StatusStep(mem, mid, mid, done, op);
    case Store =>
      AddEvidenceExactly(mid, op.newId, window);
      var r := AddEvidence(mid, op.newId, window);
      if r.Ok? {
        EvidenceStep(mem, mid, r.value, done, op, window, window);
        StatusStep(mem, mid, r.value, done, op);
      }
    case Update => RetargetStep(mem, mid, done, op, window);
    case Merge => RetargetStep(mem, mid, done, op, window);
  }

  lemma RetargetStep(mem: Memory, mid: Memory, done: seq<Op>, op: Op, window: seq<string>)
    requires Applied(mem, mid, done, window) && ValidOp(op) && Retargets(op)
    requires OpTargetsActive(mem, op) && op.newId in mem.atoms
    ensures ApplyOp(mid, op, window).Ok? <==> Unclaimed(done, op) && KnownFor(mem, op, window)
    ensures ApplyOp(mid, op, window).Ok? ==> Applied(mem, ApplyOp(mid, op, window).value, done + [op], window)
  {
    CheckTargetsExactly(mid, op.targets);
    ActiveUnlessLost(mem, mid, done, op.targets);
    var ids := Inherited(mid, op.targets) + window;
    AddEvidenceExactly(mid, op.newId, ids);
    InheritedKnown(mid, op.targets, window);
    var linked := AddEvidence(mid, op.newId, ids);
    if linked.Ok? {
      var out := Retire(linked.value, op);
      RetireEffect(linked.value, op);
      EvidenceStep(mem, mid, out, done, op, window, ids);
      StatusStep(mem, linked.value, out, done, op);
    }
  }

  lemma InheritedKnown(mid: Memory, targets: seq<string>, window: seq<string>)
    requires EvidenceClosed(mid)
    ensures (forall s :: s in Inherited(mid, targets) + window ==> s in StreamIds(mid.stream))
            <==> (forall s :: s in window ==> s in StreamIds(mid.stream))
  {
  }

  /** Each remaining decision's targets are unclaimed when its turn comes. */
  ghost predicate AllApplicable(mem: Memory, done: seq<Op>, rest: seq<Op>, window: seq<string>) {
    forall k :: 0 <= k < |rest| ==> Unclaimed(done + rest[..k], rest[k]) && KnownFor(mem, rest[k], window)
  }

  lemma AllApplicableSplit(mem: Memory, done: seq<Op>, rest: seq<Op>, window: seq<string>)
    requires rest != []
    ensures AllApplicable(mem, done, rest, window)
            <==> Unclaimed(done, rest[0]) && KnownFor(mem, rest[0], window) && AllApplicable(mem, done + [rest[0]], rest[1..], window)
  {
    var more := done + [rest[0]];
    assert done + rest[..0] == done;
    forall k | 0 <= k < |rest[1..]|
      ensures more + rest[1..][..k] == done + rest[..k + 1] && rest[1..][k] == rest[k + 1]
    {
      assert rest[..k + 1] == [rest[0]] + rest[1..][..k];
    }
    if Unclaimed(done, rest[0]) && KnownFor(mem, rest[0], window) && AllApplicable(mem, more, rest[1..], window) {
      forall k | 0 <= k < |rest| ensures Unclaimed(done + rest[..k], rest[k]) && KnownFor(mem, rest[k], window) {
        if k > 0 { assert Unclaimed(more + rest[1..][..k - 1], rest[1..][k - 1]); }
      }
    }
    if AllApplicable(mem, done, rest, window) {
      assert Unclaimed(done + rest[..0], rest[0]);
      forall k | 0 <= k < |rest[1..]| ensures Unclaimed(more + rest[1..][..k], rest[1..][k]) && KnownFor(mem, rest[1..][k], window) {
        assert Unclaimed(done + rest[..k + 1], rest[k + 1]);
      }
    }
  }

  /** The shape the planning phases hand to the transaction. */
  ghost predicate ReadyOp(mem: Memory, op: Op) {
    ValidOp(op) && OpTargetsActive(mem, op) && (op.action != Skip ==> op.newId in mem.atoms)
  }

  lemma {:induction false} PhaseBExactly(mem: Memory, mid: Memory, done: seq<Op>, rest: seq<Op>, window: seq<string>)
    requires Applied(mem, mid, done, window)
    requires forall op :: op in rest ==> ReadyOp(mem, op)
    ensures PhaseB(mid, rest, window).Ok? <==> AllApplicable(mem, done, rest, window)
    ensures PhaseB(mid, rest, window).Ok? ==> Applied(mem, PhaseB(mid, rest, window).value, done + rest, window)
    decreases |rest|
  {
    if rest == [] {
      assert done + rest == done;
    } else {
      assert ReadyOp(mem, rest[0]);
      ApplyOpStep(mem, mid, done, rest[0], window);
      AllApplicableSplit(mem, done, rest, window);
      MoveHead(done, rest);
      var r := ApplyOp(mid, rest[0], window);
      if r.Ok? { PhaseBExactly(mem, r.value, done + [rest[0]], rest[1..], window); }
    }
  }

  // ----- The transaction

  lemma WrittenStarts(mem: Memory)
    ensures Written(mem, mem, [])
  {
  }

  lemma AppliedStarts(mem: Memory, window: seq<string>)
    requires EvidenceClosed(mem)
    ensures Applied(mem, mem, [], window)
  {
  }

  lemma WrittenKeepsTargets(mem: Memory, mid: Memory, ops: seq<Op>, prepared: seq<AtomWrite>)
    requires Written(mem, mid, prepared) && TargetsActive(mem, ops) && PreparedFor(ops, prepared)
    requires forall op :: op in ops ==> ValidOp(op)
    ensures forall op :: op in ops ==> ReadyOp(mid, op)
  {
    forall op | op in ops ensures ReadyOp(mid, op) {
      var i :| 0 <= i < |ops| && ops[i] == op;
      if op.action != Skip { assert HasWrite(prepared, op.newId); }
      assert OpTargetsActive(mid, op) by {
        forall t | Retargets(op) && t in op.targets ensures IsActive(mid, t) {
          assert IsActive(mem, t);
        }
      }
    }
  }

  lemma ApplicableExactly(mem: Memory, mid: Memory, ops: seq<Op>, window: seq<string>)
    requires mid.stream == mem.stream
    ensures AllApplicable(mid, [], ops, window) <==> ConflictFree(ops) && WindowKnown(mem, ops, window)
  {
    forall k | 0 <= k < |ops| ensures [] + ops[..k] == ops[..k] { }
    if AllApplicable(mid, [], ops, window) {
      forall j, t | 0 <= j < |ops| && Retargets(ops[j]) && t in ops[j].targets ensures !Loses(ops[..j], t) {
        assert Unclaimed([] + ops[..j], ops[j]);
      }
      if i :| 0 <= i < |ops| && ops[i].action != Skip { assert KnownFor(mid, ops[i], window); }
    }
  }

  /** The transaction commits exactly when every named target is active, no decision names
      a target taken earlier in the pass, every winner can be written and every turn of the
      window exists. */
  lemma CommitsExactly(mem: Memory, ops: seq<Op>, prepared: seq<AtomWrite>, window: seq<string>, last: Option<nat>)
    requires EvidenceClosed(mem) && PreparedFor(ops, prepared)
    requires forall op :: op in ops ==> ValidOp(op)
    ensures Body(mem, ops, prepared, window, last).Ok?
            <==> TargetsActive(mem, ops) && ConflictFree(ops) && AllWritable(mem, prepared) && WindowKnown(mem, ops, window)
  {
    Phase0Exactly(mem, ops);
    WrittenStarts(mem);
    assert [] + prepared == prepared;
    PhaseAExactly(mem, mem, [], prepared);
    var written := PhaseA(mem, prepared);
    if TargetsActive(mem, ops) && written.Ok? {
      WrittenKeepsTargets(mem, written.value, ops, prepared);
      AppliedStarts(written.value, window);
      PhaseBExactly(written.value, written.value, [], ops, window);
      ApplicableExactly(mem, written.value, ops, window);
    }
  }

  /** What a committed transaction has done. */
  ghost predicate Consolidated(mem: Memory, out: Memory, ops: seq<Op>, prepared: seq<AtomWrite>, window: seq<string>) {
    // the atom table: existing rows change status only, winners are added as active
    && (forall id :: id in out.atoms <==> id in mem.atoms || HasWrite(prepared, id))
    && (forall id :: id in mem.atoms ==> out.atoms[id] == mem.atoms[id].(status := FinalStatus(ops, id, mem.atoms[id].status)))
    && (forall w :: w in prepared && w.id !in mem.atoms ==> out.atoms[w.id] == Atom(w.kind, w.content, w.meta, Active))
    // evidence is what the decisions call for
    && (forall a, s :: Edge(a, s) in out.evidence <==> Linked(mem.evidence, ops, window, a, s))
    // index rows of the winners are repaired, all others kept
    && VecsWritten(mem, out, prepared) && FtsWritten(mem, out, prepared)
    && out.stream == mem.stream
  }

  lemma ConsolidatedBy(mem: Memory, mid: Memory, out: Memory, ops: seq<Op>, prepared: seq<AtomWrite>,
                       window: seq<string>)
    requires Written(mem, mid, prepared) && Applied(mid, out, ops, window) && TargetsActive(mem, ops)
    ensures Consolidated(mem, out, ops, prepared, window) && EvidenceClosed(out)
  {
    forall w | w in prepared && w.id !in mem.atoms ensures out.atoms[w.id] == Atom(w.kind, w.content, w.meta, Active) {
      assert HasWrite(prepared, w.id);
      if Loses(ops, w.id) { LostWasActive(mem, ops, w.id); }
      FinalStatusUnlost(ops, w.id, Active);
    }
  }

  lemma LostWasActive(mem: Memory, ops: seq<Op>, id: string)
    requires TargetsActive(mem, ops) && Loses(ops, id)
    ensures IsActive(mem, id)
  {
  }

  lemma CommitConsolidates(mem: Memory, ops: seq<Op>, prepared: seq<AtomWrite>, window: seq<string>, last: Option<nat>)
    requires EvidenceClosed(mem) && PreparedFor(ops, prepared)
    requires forall op :: op in ops ==> ValidOp(op)
    requires Body(mem, ops, prepared, window, last).Ok?
    ensures var out := Body(mem, ops, prepared, window, last).value;
            && Consolidated(mem, out, ops, prepared, window)
            && EvidenceClosed(out)
            && out.watermark == if last.Some? then last else mem.watermark
  {
    Phase0Exactly(mem, ops);
    WrittenStarts(mem);
    assert [] + prepared == prepared;
    PhaseAExactly(mem, mem, [], prepared);
    var mid := PhaseA(mem, prepared).value;
    WrittenKeepsTargets(mem, mid, ops, prepared);
    AppliedStarts(mid, window);
    PhaseBExactly(mid, mid, [], ops, window);
    assert [] + ops == ops;
    ConsolidatedBy(mem, mid, PhaseB(mid, ops, window).value, ops, prepared, window);
  }

  // ----- What follows for the memory

  /** Exactly the losers leave the active set; they were all active; no other row changes. */
  lemma RetiresExactlyLosers(mem: Memory, ops: seq<Op>, prepared: seq<AtomWrite>, window: seq<string>,
                             last: Option<nat>, id: string)
    requires EvidenceClosed(mem) && PreparedFor(ops, prepared)
    requires forall op :: op in ops ==> ValidOp(op)
    requires Body(mem, ops, prepared, window, last).Ok?
    ensures var out := Body(mem, ops, prepared, window, last).value;
            && (Loses(ops, id) <==> IsActive(mem, id) && !IsActive(out, id))
            && (id in mem.atoms && !Loses(ops, id) ==> id in out.atoms && out.atoms[id] == mem.atoms[id])
  {
    CommitsExactly(mem, ops, prepared, window, last);
    CommitConsolidates(mem, ops, prepared, window, last);
    if Loses(ops, id) { LostWasActive(mem, ops, id); }
    if id in mem.atoms { FinalStatusUnlost(ops, id, mem.atoms[id].status); }
  }

  /** A winner ends active exactly when it was not retired before and no decision in the
      pass retires it. */
  lemma WinnerActiveExactly(mem: Memory, ops: seq<Op>, prepared: seq<AtomWrite>, window: seq<string>,
                            last: Option<nat>, i: nat)
    requires EvidenceClosed(mem) && PreparedFor(ops, prepared)
    requires forall op :: op in ops ==> ValidOp(op)
    requires i < |ops| && ops[i].action != Skip
    requires Body(mem, ops, prepared, window, last).Ok?
    ensures IsActive(Body(mem, ops, prepared, window, last).value, ops[i].newId)
            <==> (ops[i].newId in mem.atoms ==> IsActive(mem, ops[i].newId)) && !Loses(ops, ops[i].newId)
  {
    var id := ops[i].newId;
    CommitConsolidates(mem, ops, prepared, window, last);
    RetiresExactlyLosers(mem, ops, prepared, window, last, id);
    assert HasWrite(prepared, id);
    var k :| 0 <= k < |prepared| && prepared[k].id == id;
    assert prepared[k] in prepared;
  }

  /** Two candidates that reproduce each other's target retire both: neither winner survives. */
  lemma MutualSupersession(mem: Memory, a: Op, b: Op, prepared: seq<AtomWrite>, window: seq<string>, last: Option<nat>)
    requires EvidenceClosed(mem) && PreparedFor([a, b], prepared)
    requires a.action == Update && b.action == Update && a.newId != b.newId
    requires a.targets == [b.newId] && b.targets == [a.newId]
    requires IsActive(mem, a.newId) && IsActive(mem, b.newId)
    requires AllWritable(mem, prepared) && forall s :: s in window ==> s in StreamIds(mem.stream)
    ensures var r := Body(mem, [a, b], prepared, window, last);
            r.Ok? && !IsActive(r.value, a.newId) && !IsActive(r.value, b.newId)
  {
    var ops := [a, b];
    assert ConflictFree(ops) by {
      forall j, t | 0 <= j < |ops| && Retargets(ops[j]) && t in ops[j].targets ensures !Loses(ops[..j], t) {
        if j == 1 { assert ops[..1] == [a]; }
      }
    }
    CommitsExactly(mem, ops, prepared, window, last);
    assert Retires(ops[0], b.newId) && Retires(ops[1], a.newId);
    RetiresExactlyLosers(mem, ops, prepared, window, last, a.newId);
    RetiresExactlyLosers(mem, ops, prepared, window, last, b.newId);
  }

  lemma {:induction false} LinkedKeeps(edges: seq<Edge>, ops: seq<Op>, window: seq<string>, a: string, s: string,
                                       k: nat)
    requires k <= |ops| && Linked(edges, ops[..k], window, a, s)
    ensures Linked(edges, ops, window, a, s)
    decreases |ops| - k
  {
    if k < |ops| {
      var next := ops[..k + 1];
      assert next[..|next| - 1] == ops[..k];
      LinkedKeeps(edges, ops, window, a, s, k + 1);
    } else {
      assert ops[..k] == ops;
    }
  }

  /** `s` is in the window or was evidence of a target of `op`, whose winner is `a`. */
  ghost predicate PassesOn(edges: seq<Edge>, op: Op, window: seq<string>, a: string, s: string) {
    && op.action != Skip && op.newId == a
    && (s in window || (Retargets(op) && exists t :: t in op.targets && Edge(t, s) in edges))
  }

  /** Every original edge survives, and each winner has the window and everything its
      targets had. */
  lemma EvidenceInherited(edges: seq<Edge>, ops: seq<Op>, window: seq<string>, a: string, s: string)
    ensures Edge(a, s) in edges ==> Linked(edges, ops, window, a, s)
    ensures (exists i :: 0 <= i < |ops| && PassesOn(edges, ops[i], window, a, s)) ==> Linked(edges, ops, window, a, s)
  {
    if Edge(a, s) in edges { LinkedKeeps(edges, ops, window, a, s, 0); }
    if i :| 0 <= i < |ops| && PassesOn(edges, ops[i], window, a, s) {
      if s !in window {
        var t :| t in ops[i].targets && Edge(t, s) in edges;
        assert ops[..i][..0] == [];
        LinkedKeeps(edges, ops[..i], window, t, s, 0);
        assert LinkedToTarget(edges, ops[..i], window, ops[i].targets, s);
      }
      var upto := ops[..i + 1];
      assert upto[..|upto| - 1] == ops[..i] && upto[|upto| - 1] == ops[i];
      LinkedKeeps(edges, ops, window, a, s, i + 1);
    }
  }

  /** Some decision names a target that had evidence `s`. */
  ghost predicate TargetHad(edges: seq<Edge>, ops: seq<Op>, s: string) {
    exists i, t :: 0 <= i < |ops| && Retargets(ops[i]) && t in ops[i].targets && Edge(t, s) in edges
  }

  /** No edge is invented: a new one belongs to a winner and points into the window or to
      evidence that some named target had. */
  lemma {:induction false} EvidenceNotInvented(edges: seq<Edge>, ops: seq<Op>, window: seq<string>, a: string,
                                               s: string)
    requires Linked(edges, ops, window, a, s)
    ensures || Edge(a, s) in edges
            || ((exists i :: 0 <= i < |ops| && ops[i].action != Skip && ops[i].newId == a)
                && (s in window || TargetHad(edges, ops, s)))
  {
    if ops != [] {
      var front, op := ops[..|ops| - 1], ops[|ops| - 1];
      assert forall i :: 0 <= i < |front| ==> front[i] == ops[i];
      if Linked(edges, front, window, a, s) {
        EvidenceNotInvented(edges, front, window, a, s);
      } else {
        assert ops[|ops| - 1].newId == a;
        if s !in window {
          var t :| t in op.targets && Linked(edges, front, window, t, s);
          EvidenceNotInvented(edges, front, window, t, s);
          if Edge(t, s) in edges { assert ops[|ops| - 1].targets == op.targets; }
        }
      }
    }
  }

  /** Index rows belong to atoms, one text row and at most one vector each. */
  ghost predicate IndexOwned(mem: Memory) {
    && (forall id :: id !in mem.atoms ==> FtsCount(mem.atomFts, id) == 0 && id !in mem.atomVecs)
    && (forall id :: id in mem.atoms ==> FtsCount(mem.atomFts, id) == 1 && id in mem.atomVecs)
  }

  /** Whatever the indexes looked like for atoms that existed, each winner ends with one
      vector; and with exactly one text row unless it is new and its id had stray rows. */
  lemma WinnersIndexedOnce(mem: Memory, ops: seq<Op>, prepared: seq<AtomWrite>, window: seq<string>,
                           last: Option<nat>, w: AtomWrite)
    requires EvidenceClosed(mem) && PreparedFor(ops, prepared) && w in prepared
    requires forall op :: op in ops ==> ValidOp(op)
    requires Body(mem, ops, prepared, window, last).Ok?
    ensures var out := Body(mem, ops, prepared, window, last).value;
            && w.id in out.atomVecs && out.atomVecs[w.id] == w.vec
            && (FtsCount(out.atomFts, w.id) == 1 <==> w.id in mem.atoms || FtsCount(mem.atomFts, w.id) == 0)
  {
    CommitConsolidates(mem, ops, prepared, window, last);
    assert HasWrite(prepared, w.id);
  }

  lemma CommitKeepsIndexOwned(mem: Memory, ops: seq<Op>, prepared: seq<AtomWrite>, window: seq<string>,
                              last: Option<nat>)
    requires EvidenceClosed(mem) && PreparedFor(ops, prepared) && IndexOwned(mem)
    requires forall op :: op in ops ==> ValidOp(op)
    requires Body(mem, ops, prepared, window, last).Ok?
    ensures IndexOwned(Body(mem, ops, prepared, window, last).value)
  {
    CommitConsolidates(mem, ops, prepared, window, last);
  }
}
