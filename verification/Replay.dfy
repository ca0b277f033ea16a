/**
 Running a committed L1 transaction again, as a retry of its pass would: a second run
 finds everything in place, and a decision that retired an atom is refused.
 */
module Replay {
  import opened Tables
  import opened Atoms
  import opened Consolidation
  import opened ConsolidationProofs

  /** The atom is stored as the write has it, with the write's vector. */
  ghost predicate InPlace(mem: Memory, w: AtomWrite) {
    && w.id in mem.atoms && mem.atoms[w.id].kind == w.kind && mem.atoms[w.id].content == w.content
    && w.id in mem.atomVecs && mem.atomVecs[w.id] == w.vec
  }

  ghost predicate AllInPlace(mem: Memory, prepared: seq<AtomWrite>) {
    forall w <- prepared :: InPlace(mem, w)
  }

  /** Text rows of the written atoms are replaced by one each; nothing else moves. */
  ghost predicate OnlyTextRows(mem: Memory, out: Memory, prepared: seq<AtomWrite>) {
    && out == mem.(atomFts := out.atomFts)
    && forall id :: FtsCount(out.atomFts, id) == if HasWrite(prepared, id) then 1 else FtsCount(mem.atomFts, id)
  }

  lemma WriteAgain(mem: Memory, w: AtomWrite)
    requires InPlace(mem, w)
    ensures WriteAtom(mem, w, Preserve).Ok? && OnlyTextRows(mem, WriteAtom(mem, w, Preserve).value, [w])
  {
    var out := WriteAtom(mem, w, Preserve).value;
    assert mem.atoms[w.id := mem.atoms[w.id]] == mem.atoms && mem.atomVecs[w.id := w.vec] == mem.atomVecs;
    forall id ensures FtsCount(out.atomFts, id) == if HasWrite([w], id) then 1 else FtsCount(mem.atomFts, id) {
      FtsCountWithout(mem.atomFts, w.id, id);
      FtsCountAppend(WithoutFts(mem.atomFts, w.id), FtsRow(w.id, w.content), id);
      assert [w][0] == w;
    }
  }

  lemma HasWriteSplit(prepared: seq<AtomWrite>, id: string)
    requires prepared != []
    ensures HasWrite(prepared, id) <==> prepared[0].id == id || HasWrite(prepared[1..], id)
  {
    if i :| 0 <= i < |prepared| && prepared[i].id == id && i > 0 { assert prepared[1..][i - 1].id == id; }
    if i :| 0 <= i < |prepared[1..]| && prepared[1..][i].id == id { assert prepared[i + 1].id == id; }
  }

  lemma {:induction false} WritesAgain(mem: Memory, prepared: seq<AtomWrite>)
    requires AllInPlace(mem, prepared)
    ensures PhaseA(mem, prepared).Ok? && OnlyTextRows(mem, PhaseA(mem, prepared).value, prepared)
    decreases |prepared|
  {
    if prepared != [] {
      var w, rest := prepared[0], prepared[1..];
      assert w in prepared && forall v <- rest :: v in prepared;
      WriteAgain(mem, w);
      var mid := WriteAtom(mem, w, Preserve).value;
      WritesAgain(mid, rest);
      forall id ensures HasWrite(prepared, id) <==> w.id == id || HasWrite(rest, id) { HasWriteSplit(prepared, id); }
      forall id ensures HasWrite([w], id) <==> w.id == id { assert [w][0] == w; }
    }
  }

  lemma {:induction false} LinkAgain(mem: Memory, id: string, ids: seq<string>)
    requires forall s <- ids :: Edge(id, s) in mem.evidence
    ensures AddEvidence(mem, id, ids) == Ok(mem)
    decreases |ids|
  {
    if ids != [] {
      assert forall s <- ids[1..] :: s in ids;
      LinkAgain(mem, id, ids[1..]);
    }
  }

  /** The decision retires nothing, and what it asks for is there. */
  ghost predicate Done(mem: Memory, op: Op, window: seq<string>) {
    && ValidOp(op) && Losers(op) == []
    && (Retargets(op) ==> forall t <- op.targets :: IsActive(mem, t))
    && (op.action != Skip ==> forall s <- window :: Edge(op.newId, s) in mem.evidence)
  }

  lemma ApplyAgain(mem: Memory, op: Op, window: seq<string>)
    requires Done(mem, op, window)
    ensures ApplyOp(mem, op, window) == Ok(mem)
  {
    if op.action == Store {
      LinkAgain(mem, op.newId, window);
    } else if Retargets(op) {
      CheckTargetsExactly(mem, op.targets);
      forall t <- op.targets ensures t == op.newId {
        assert t !in Losers(op);
      }
      LinkAgain(mem, op.newId, Inherited(mem, op.targets) + window);
    }
  }

  lemma {:induction false} AppliesAgain(mem: Memory, ops: seq<Op>, window: seq<string>)
    requires forall op <- ops :: Done(mem, op, window)
    ensures PhaseB(mem, ops, window) == Ok(mem)
    decreases |ops|
  {
    if ops != [] {
      assert ops[0] in ops && forall op <- ops[1..] :: op in ops;
      ApplyAgain(mem, ops[0], window);
      AppliesAgain(mem, ops[1..], window);
    }
  }

  lemma {:induction false} WindowLinked(edges: seq<Edge>, ops: seq<Op>, window: seq<string>, i: nat, s: string)
    requires i < |ops| && ops[i].action != Skip && s in window
    ensures Linked(edges, ops, window, ops[i].newId, s)
  {
    if i < |ops| - 1 { WindowLinked(edges, ops[..|ops| - 1], window, i, s); }
  }

  lemma CommittedInPlace(mem: Memory, out: Memory, ops: seq<Op>, prepared: seq<AtomWrite>, window: seq<string>)
    requires Consolidated(mem, out, ops, prepared, window) && AllWritable(mem, prepared)
    ensures AllInPlace(out, prepared)
  {
    forall w <- prepared ensures InPlace(out, w) {
      var k :| 0 <= k < |prepared| && prepared[k] == w;
      assert HasWrite(prepared, w.id) && Writable(mem, prepared[k]);
    }
  }

  lemma CommittedIsDone(mem: Memory, out: Memory, ops: seq<Op>, prepared: seq<AtomWrite>, window: seq<string>, i: nat)
    requires Consolidated(mem, out, ops, prepared, window) && TargetsActive(mem, ops)
    requires i < |ops| && ValidOp(ops[i]) && !Dirties(ops)
    ensures Done(out, ops[i], window)
  {
    assert ops[i] in ops && Losers(ops[i]) == [];
    forall id, k | 0 <= k < |ops| ensures !Retires(ops[k], id) {
      assert ops[k] in ops && id !in Losers(ops[k]);
    }
    if Retargets(ops[i]) {
      forall t <- ops[i].targets ensures IsActive(out, t) {
        assert IsActive(mem, t);
        FinalStatusUnlost(ops, t, Active);
      }
    }
    if ops[i].action != Skip {
      forall s <- window ensures Edge(ops[i].newId, s) in out.evidence {
        WindowLinked(mem.evidence, ops, window, i, s);
      }
    }
  }

  /** With nothing retired, the whole body runs again and finds everything in place. */
  lemma BodyAgain(mem: Memory, out: Memory, ops: seq<Op>, prepared: seq<AtomWrite>, window: seq<string>, last: Option<nat>)
    requires Consolidated(mem, out, ops, prepared, window) && AllWritable(mem, prepared) && TargetsActive(mem, ops)
    requires (forall op :: op in ops ==> ValidOp(op)) && !Dirties(ops) && (last.Some? ==> out.watermark == last)
    ensures Body(out, ops, prepared, window, last).Ok? && OnlyTextRows(out, Body(out, ops, prepared, window, last).value, prepared)
  {
    CommittedInPlace(mem, out, ops, prepared, window);
    WritesAgain(out, prepared);
    var written := PhaseA(out, prepared).value;
    forall op <- ops ensures Done(out, op, window) && Done(written, op, window) {
      var i :| 0 <= i < |ops| && ops[i] == op;
      CommittedIsDone(mem, out, ops, prepared, window, i);
    }
    assert TargetsActive(out, ops) by {
      forall i, t | 0 <= i < |ops| && Retargets(ops[i]) && t in ops[i].targets ensures IsActive(out, t) {
        assert ops[i] in ops && Done(out, ops[i], window);
      }
    }
    Phase0Exactly(out, ops);
    AppliesAgain(written, ops, window);
    assert last.Some? ==> written.(watermark := last) == written;
  }

  /** A decision that retired a target cannot run twice. */
  lemma RetiringRefused(mem: Memory, out: Memory, ops: seq<Op>, prepared: seq<AtomWrite>, window: seq<string>, last: Option<nat>)
    requires EvidenceClosed(mem) && PreparedFor(ops, prepared) && forall op :: op in ops ==> ValidOp(op)
    requires Body(mem, ops, prepared, window, last) == Ok(out) && Dirties(ops)
    ensures Body(out, ops, prepared, window, last).Err?
  {
    var op :| op in ops && Losers(op) != [];
    var i :| 0 <= i < |ops| && ops[i] == op;
    var t := Losers(op)[0];
    assert t in Losers(op) && Retires(ops[i], t);
    assert Loses(ops, t);
    RetiresExactlyLosers(mem, ops, prepared, window, last, t);
    assert !TargetsActive(out, ops);
    Phase0Exactly(out, ops);
  }

  /** Running a committed transaction again commits if and only if it retired nothing, and
      either way the tables stay as they are: atoms, vectors, evidence, watermark and flag,
      and one text row for each written atom, as many as it had if every atom had its one. */
  lemma SecondRunChangesNothing(db: Db, ops: seq<Op>, prepared: seq<AtomWrite>, window: seq<string>, last: Option<nat>,
                                first: Committed, again: Committed)
    requires EvidenceClosed(db.mem) && PreparedFor(ops, prepared) && forall op :: op in ops ==> ValidOp(op)
    requires first == Commit(db, ops, prepared, window, last) && first.fault == None
    requires again == Commit(first.db, ops, prepared, window, last)
    ensures again.fault == None <==> !Dirties(ops)
    ensures again.db == first.db.(mem := first.db.mem.(atomFts := again.db.mem.atomFts))
    ensures if Dirties(ops) then again.db == first.db else OnlyTextRows(first.db.mem, again.db.mem, prepared)
    ensures IndexOwned(db.mem) ==> forall id :: FtsCount(again.db.mem.atomFts, id) == FtsCount(first.db.mem.atomFts, id)
  {
    var mem, out := db.mem, first.db.mem;
    CommitsExactly(mem, ops, prepared, window, last);
    CommitConsolidates(mem, ops, prepared, window, last);
    if Dirties(ops) {
      RetiringRefused(mem, out, ops, prepared, window, last);
    } else {
      BodyAgain(mem, out, ops, prepared, window, last);
      if IndexOwned(mem) { CommitKeepsIndexOwned(mem, ops, prepared, window, last); }
    }
  }
}
