/**
 Whatever the model replies, a reconciled plan never clashes with itself; so if every
 target it names is still active when the transaction opens, the transaction commits.
 */
module PlanningProofs {
  import opened Tables
  import opened TextOrder
  import opened Atoms
  import opened Consolidation
  import opened ConsolidationProofs
  import opened Decisions
  import opened Prompts
  import opened Planning

  lemma {:induction false} TakenAreLosers(rs: seq<Retrieved>, newIds: seq<string>, ds: seq<Decision>, i: nat, t: string)
    requires |rs| == |newIds| == |ds| && i <= |ds|
    ensures t in TakenBefore(ds, newIds, i) <==> Loses(ToOps(rs, newIds, ds)[..i], t)
  {
    if i > 0 {
      var ops := ToOps(rs, newIds, ds);
      TakenAreLosers(rs, newIds, ds, i - 1, t);
      LosesSplit(ops[..i], t);
      assert ops[..i][..i - 1] == ops[..i - 1];
    }
  }

  /** No final decision names a target an earlier one has taken. */
  lemma ReconciledIsConflictFree(replies: Replies, rs: seq<Retrieved>, newIds: seq<string>, planned: seq<Decision>,
                                 final: seq<Decision>)
    requires |planned| == |newIds| == |rs| == |final|
    requires Reconciled(replies, rs, newIds, planned, final)
    ensures ConflictFree(ToOps(rs, newIds, final))
  {
    var ops := ToOps(rs, newIds, final);
    forall j, t | 0 <= j < |ops| && Retargets(ops[j]) && t in ops[j].targets
      ensures !Loses(ops[..j], t)
    {
      var taken := TakenBefore(final, newIds, j);
      TakenAreLosers(rs, newIds, final, j, t);
      assert t in final[j].targets;
      if Clashes(planned[j], taken) {
        assert Fits(final[j], Allowed(rs[j]) - taken);
      }
    }
  }

  /** The earliest candidate to name a target keeps its decision. */
  lemma EarliestClaimantKeeps(replies: Replies, rs: seq<Retrieved>, newIds: seq<string>, planned: seq<Decision>,
                              final: seq<Decision>, i: nat)
    requires |planned| == |newIds| == |rs| == |final| && i < |rs|
    requires Reconciled(replies, rs, newIds, planned, final)
    requires forall t :: t in planned[i].targets ==> !Loses(ToOps(rs, newIds, final)[..i], t)
    ensures final[i] == planned[i]
  {
    forall t | t in planned[i].targets ensures t !in TakenBefore(final, newIds, i) {
      TakenAreLosers(rs, newIds, final, i, t);
    }
  }

  /** Atom ids are derived from what they name. */
  ghost predicate HonestIds(atomId: (string, string) -> string, mem: Memory) {
    forall kind, content :: atomId(kind, content) in mem.atoms ==>
      mem.atoms[atomId(kind, content)].kind == kind && mem.atoms[atomId(kind, content)].content == content
  }

  ghost predicate InjectiveId(atomId: (string, string) -> string) {
    forall k, c, k', c' :: atomId(k, c) == atomId(k', c') ==> k == k' && c == c'
  }

  ghost predicate PreparedWell(ops: seq<Op>, prepared: seq<AtomWrite>) {
    && (forall i, j :: 0 <= i < j < |prepared| ==> prepared[i].id != prepared[j].id)
    && (forall i :: 0 <= i < |ops| && ops[i].action != Skip ==> IsPrepared(prepared, ops[i].newId))
    && (forall w :: w in prepared ==> AskedFor(ops, w))
  }

  lemma PreparedWellIsPrepared(ops: seq<Op>, prepared: seq<AtomWrite>)
    requires PreparedWell(ops, prepared)
    ensures PreparedFor(ops, prepared)
  {
    forall i | 0 <= i < |ops| && ops[i].action != Skip ensures HasWrite(prepared, ops[i].newId) {
      var w :| w in prepared && w.id == ops[i].newId;
      var k :| 0 <= k < |prepared| && prepared[k] == w;
    }
  }

  lemma WinnersWritable(atomId: (string, string) -> string, mem: Memory, rs: seq<Retrieved>, final: seq<Decision>,
                        prepared: seq<AtomWrite>)
    requires HonestIds(atomId, mem) && VecsOwned(mem) && |final| == |rs|
    requires PreparedWell(ToOps(rs, NewIds(atomId, rs), final), prepared)
    ensures AllWritable(mem, prepared)
  {
    var ops := ToOps(rs, NewIds(atomId, rs), final);
    forall i | 0 <= i < |prepared| ensures Writable(mem, prepared[i]) {
      var w := prepared[i];
      assert w in prepared;
      assert AskedFor(ops, w);
      var k :| 0 <= k < |ops| && ops[k].action != Skip && w.id == ops[k].newId
        && w.kind == ops[k].kind && w.content == ops[k].content && w.meta == DefaultMetadata(ops[k].confidence);
      assert w.id == atomId(w.kind, w.content);
    }
  }

  lemma FinalOpsValid(rs: seq<Retrieved>, newIds: seq<string>, final: seq<Decision>)
    requires |rs| == |newIds| == |final| && AllFit(rs, final)
    ensures forall op :: op in ToOps(rs, newIds, final) ==> ValidOp(op)
  {
    var ops := ToOps(rs, newIds, final);
    forall op | op in ops ensures ValidOp(op) {
      var i :| 0 <= i < |ops| && ops[i] == op;
      assert Fits(final[i], Allowed(rs[i]));
    }
  }

  /** For any model replies, the transaction over a reconciled plan commits exactly when the
      targets it names are still active as it opens: the only fault left is a change made
      by someone else in between. */
  lemma PlanCommitsExactly(atomId: (string, string) -> string, replies: Replies, rs: seq<Retrieved>,
                           planned: seq<Decision>,
                           final: seq<Decision>, mem: Memory, prepared: seq<AtomWrite>, window: seq<string>, last: Option<nat>)
    requires |planned| == |rs| == |final| && AllFit(rs, final)
    requires Reconciled(replies, rs, NewIds(atomId, rs), planned, final)
    requires PreparedWell(ToOps(rs, NewIds(atomId, rs), final), prepared)
    requires EvidenceClosed(mem) && HonestIds(atomId, mem) && VecsOwned(mem)
    requires forall s :: s in window ==> s in StreamIds(mem.stream)
    ensures Body(mem, ToOps(rs, NewIds(atomId, rs), final), prepared, window, last).Ok?
            <==> TargetsActive(mem, ToOps(rs, NewIds(atomId, rs), final))
  {
    var newIds := NewIds(atomId, rs);
    var ops := ToOps(rs, newIds, final);
    ReconciledIsConflictFree(replies, rs, newIds, planned, final);
    PreparedWellIsPrepared(ops, prepared);
    WinnersWritable(atomId, mem, rs, final, prepared);
    FinalOpsValid(rs, newIds, final);
    CommitsExactly(mem, ops, prepared, window, last);
  }

  /** The invariants that theorem needs are kept by every committed transaction. */
  lemma CommitKeepsInvariants(atomId: (string, string) -> string, rs: seq<Retrieved>, final: seq<Decision>,
                              mem: Memory, prepared: seq<AtomWrite>, window: seq<string>, last: Option<nat>)
    requires InjectiveId(atomId) && |rs| == |final| && AllFit(rs, final)
    requires PreparedWell(ToOps(rs, NewIds(atomId, rs), final), prepared)
    requires EvidenceClosed(mem) && HonestIds(atomId, mem) && VecsOwned(mem)
    requires Body(mem, ToOps(rs, NewIds(atomId, rs), final), prepared, window, last).Ok?
    ensures var out := Body(mem, ToOps(rs, NewIds(atomId, rs), final), prepared, window, last).value;
            EvidenceClosed(out) && HonestIds(atomId, out) && VecsOwned(out)
  {
    var ops := ToOps(rs, NewIds(atomId, rs), final);
    FinalOpsValid(rs, NewIds(atomId, rs), final);
    PreparedWellIsPrepared(ops, prepared);
    CommitConsolidates(mem, ops, prepared, window, last);
    var out := Body(mem, ops, prepared, window, last).value;
    forall kind, content | atomId(kind, content) in out.atoms
      ensures out.atoms[atomId(kind, content)].kind == kind && out.atoms[atomId(kind, content)].content == content
    {
      var id := atomId(kind, content);
      if id !in mem.atoms {
        assert HasWrite(prepared, id);
        var k :| 0 <= k < |prepared| && prepared[k].id == id;
        NewRowIsHonest(atomId, rs, final, ops, prepared[k], kind, content);
      }
    }
  }

  lemma NewRowIsHonest(atomId: (string, string) -> string, rs: seq<Retrieved>, final: seq<Decision>, ops: seq<Op>,
                       w: AtomWrite,
                       kind: string, content: string)
    requires InjectiveId(atomId) && |rs| == |final| && ops == ToOps(rs, NewIds(atomId, rs), final)
    requires AskedFor(ops, w) && w.id == atomId(kind, content)
    ensures w.kind == kind && w.content == content
  {
    var k :| 0 <= k < |ops| && ops[k].action != Skip && w.id == ops[k].newId
      && w.kind == ops[k].kind && w.content == ops[k].content && w.meta == DefaultMetadata(ops[k].confidence);
  }
}
