/**
 What a pass reads out of the model's replies, from the replies alone: which ones decide for a
 candidate, and as what. A reply that says no sound decision is never read as one.
 */
module ReplyProofs {
  import opened Tables
  import opened TextOrder
  import opened Consolidation
  import opened Decisions
  import opened Prompts
  import opened Planning

  /** An id the candidate was shown. */
  ghost predicate Shown(r: Retrieved, id: string) {
    exists m <- r.existing :: m.id == id
  }

  /** The reply decides so for this candidate, when the targets in `taken` are out of reach. */
  ghost predicate Decides(j: Json, d: Decision, r: Retrieved, taken: set<string>) {
    && Says(j, d) && Distinct(d.targets) && (forall id <- d.targets :: Shown(r, id) && id !in taken)
    && match d.action case Store => |d.targets| == 0 case Skip => |d.targets| == 0 case Update => |d.targets| == 1 case Merge => |d.targets| >= 2
  }

  lemma DecidesIsValid(j: Json, d: Decision, r: Retrieved, taken: set<string>)
    ensures Validate(j, Allowed(r) - taken) == Some(d) <==> Decides(j, d, r, taken)
  {
    ValidatesExactly(j, Allowed(r) - taken, d);
    forall id ensures id in Allowed(r) - taken <==> Shown(r, id) && id !in taken {}
  }

  /** An individual reply is a decision exactly when it decides for its candidate. */
  lemma IndividualExactly(replies: Replies, rs: seq<Retrieved>, i: nat, d: Decision)
    requires i < |rs|
    ensures Individual(replies, i, Allowed(rs[i])) == Some(d)
            <==> (replies.single)(i).Some? && Decides((replies.single)(i).value, d, rs[i], {})
  {
    if (replies.single)(i).Some? {
      DecidesIsValid((replies.single)(i).value, d, rs[i], {});
      assert Allowed(rs[i]) - {} == Allowed(rs[i]);
    }
  }

  /** A replan is asked once, and may name any shown target that is still free. */
  lemma ReplanExactly(replies: Replies, rs: seq<Retrieved>, i: nat, taken: set<string>, d: Decision)
    requires i < |rs|
    ensures Replan(replies, i, taken, Allowed(rs[i])) == Some(d)
            <==> (replies.replan)(i, taken).Some? && Decides((replies.replan)(i, taken).value, d, rs[i], taken)
  {
    if (replies.replan)(i, taken).Some? { DecidesIsValid((replies.replan)(i, taken).value, d, rs[i], taken); }
  }

  /** An entry states an index only as an integer in range. */
  lemma StatedExactly(j: Json, n: nat, i: nat)
    ensures Stated(j, n) == Some(i) <==> j.JObject? && "candidate" in j.fields && j.fields["candidate"] == JInt(i) && i < n
  {
  }

  ghost predicate StatesSome(entries: seq<Json>, n: nat) {
    exists k, i: nat :: 0 <= k < |entries| && Stated(entries[k], n) == Some(i)
  }

  /** The bracketed array is read when some element of it states an index, else the lines are. */
  lemma PayloadExactly(reply: Reply, n: nat)
    ensures Payload(reply, n)
            == if reply.bracketed.Some? && StatesSome(reply.bracketed.value, n) then reply.bracketed.value else reply.lines
  {
    if reply.bracketed.Some? {
      var entries := reply.bracketed.value;
      if j :| j in entries && Stated(j, n).Some? {
        var k :| 0 <= k < |entries| && entries[k] == j;
        assert Stated(entries[k], n) == Some(Stated(j, n).value);
      }
      if k, i: nat :| 0 <= k < |entries| && Stated(entries[k], n) == Some(i) { assert entries[k] in entries; }
    }
  }

  /** Entry `k` states the index and is valid; those before it that state the index are not. */
  ghost predicate FirstFor(entries: seq<Json>, l: nat, n: nat, allowed: set<string>, k: int) {
    && 0 <= k < |entries| && Stated(entries[k], n) == Some(l) && Validate(entries[k], allowed).Some?
    && forall e :: 0 <= e < k && Stated(entries[e], n) == Some(l) ==> Validate(entries[e], allowed) == None
  }

  lemma {:induction false} FirstValidIs(entries: seq<Json>, l: nat, n: nat, allowed: set<string>, k: nat)
    requires FirstFor(entries, l, n, allowed, k)
    ensures FirstValid(Stating(entries, l, n), allowed) == Validate(entries[k], allowed)
  {
    var m := |entries| - 1;
    var front, last := Stating(entries[..m], l, n), entries[m];
    assert (front + [last])[..|front|] == front;
    if k < m {
      FirstValidIs(entries[..m], l, n, allowed, k);
    } else {
      NoneValid(entries[..m], l, n, allowed);
    }
  }

  lemma {:induction false} NoneValid(entries: seq<Json>, l: nat, n: nat, allowed: set<string>)
    requires forall e :: 0 <= e < |entries| && Stated(entries[e], n) == Some(l) ==> Validate(entries[e], allowed) == None
    ensures FirstValid(Stating(entries, l, n), allowed) == None
  {
    if entries != [] {
      var m := |entries| - 1;
      var front, last := Stating(entries[..m], l, n), entries[m];
      NoneValid(entries[..m], l, n, allowed);
      assert (front + [last])[..|front|] == front;
    }
  }

  /** Candidate `l` of a batch is decided by the first entry that states its index and is valid;
      its own individual reply is asked for, and counts, only if there is none. */
  lemma OutcomeExactly(replies: Replies, rs: seq<Retrieved>, chunks: seq<seq<Retrieved>>, c: nat, l: nat, entries: seq<Json>)
    requires InChunk(rs, chunks, c, l) && (replies.batch)(c).Some? && entries == Payload((replies.batch)(c).value, |chunks[c]|)
    ensures var i, n := Offset(chunks, c) + l, |chunks[c]|;
            && (forall k :: FirstFor(entries, l, n, Allowed(rs[i]), k) ==> Outcome(replies, rs, chunks, c, l) == Validate(entries[k], Allowed(rs[i])))
            && ((forall k :: !FirstFor(entries, l, n, Allowed(rs[i]), k)) ==> Outcome(replies, rs, chunks, c, l) == Individual(replies, i, Allowed(rs[i])))
  {
    var i, n := Offset(chunks, c) + l, |chunks[c]|;
    var allowed := Allowed(rs[i]);
    forall k | FirstFor(entries, l, n, allowed, k) ensures Outcome(replies, rs, chunks, c, l) == Validate(entries[k], allowed) {
      FirstValidIs(entries, l, n, allowed, k);
    }
    if forall k :: !FirstFor(entries, l, n, allowed, k) {
      NoFirstNone(entries, l, n, allowed, |entries|);
      NoneValid(entries, l, n, allowed);
    }
  }

  lemma {:induction false} NoFirstNone(entries: seq<Json>, l: nat, n: nat, allowed: set<string>, m: nat)
    requires m <= |entries| && forall k :: !FirstFor(entries, l, n, allowed, k)
    ensures forall e :: 0 <= e < m && Stated(entries[e], n) == Some(l) ==> Validate(entries[e], allowed) == None
  {
    if m > 0 {
      NoFirstNone(entries, l, n, allowed, m - 1);
      assert !FirstFor(entries, l, n, allowed, m - 1);
    }
  }

  // ----- Replanning

  /** The decision takes the atom out of the active set, its own winner excepted. */
  ghost predicate Consumes(d: Decision, newId: string, id: string) {
    (d.action == Update || d.action == Merge) && id in d.targets && id != newId
  }

  ghost predicate TakenBy(ds: seq<Decision>, newIds: seq<string>, k: int, id: string) {
    0 <= k < |ds| && k < |newIds| && Consumes(ds[k], newIds[k], id)
  }

  lemma {:induction false} TakenExactly(ds: seq<Decision>, newIds: seq<string>, i: nat, id: string)
    requires i <= |ds| && i <= |newIds|
    ensures id in TakenBefore(ds, newIds, i) <==> exists k :: k < i && TakenBy(ds, newIds, k, id)
  {
    if i > 0 {
      TakenExactly(ds, newIds, i - 1, id);
      assert id in Consumed(ds[i - 1], newIds[i - 1]) <==> TakenBy(ds, newIds, i - 1, id);
    }
  }

  ghost predicate ClashesAt(planned: seq<Decision>, final: seq<Decision>, newIds: seq<string>, i: int, k: int, id: string) {
    && 0 <= k < i < |planned| && (planned[i].action == Update || planned[i].action == Merge)
    && id in planned[i].targets && TakenBy(final, newIds, k, id)
  }

  /** A decision stands exactly when no earlier final one of the pass takes a target of it; otherwise
      the candidate has the decision its replan gives it over the shown atoms still free. */
  lemma FinalExactly(replies: Replies, rs: seq<Retrieved>, newIds: seq<string>, planned: seq<Decision>, final: seq<Decision>,
                     taken: set<string>, i: nat)
    requires |planned| == |newIds| == |rs| == |final| && i < |rs| && Reconciled(replies, rs, newIds, planned, final)
    requires forall id :: id in taken <==> exists k :: k < i && TakenBy(final, newIds, k, id)
    ensures if exists k, id :: ClashesAt(planned, final, newIds, i, k, id)
            then (replies.replan)(i, taken).Some? && Decides((replies.replan)(i, taken).value, final[i], rs[i], taken)
            else final[i] == planned[i]
  {
    forall id ensures id in TakenBefore(final, newIds, i) <==> id in taken {
      TakenExactly(final, newIds, i, id);
    }
    assert TakenBefore(final, newIds, i) == taken;
    if Clashes(planned[i], taken) {
      var id :| id in planned[i].targets && id in taken;
      var k :| k < i && TakenBy(final, newIds, k, id);
      assert ClashesAt(planned, final, newIds, i, k, id);
      ReplanExactly(replies, rs, i, taken, final[i]);
    } else if k, id :| ClashesAt(planned, final, newIds, i, k, id) {
      assert false;
    }
  }
}
