/**
 Planning one L1 pass before its transaction opens: a decision for every candidate,
 replanning of decisions that clash with an earlier one of the same pass, and one
 prepared write per winning atom.
 */
module Planning {
  import opened Tables
  import opened TextOrder
  import opened Atoms
  import opened Consolidation
  import opened Decisions
  import opened Packing
  import opened Prompts

  /** Every reply the model could give. A call that fails, and a reply with no JSON object
      in it, are both `None`. */
  datatype Replies = Replies(
    batch: nat -> Option<Reply>,
    single: nat -> Option<Json>,
    replan: (nat, set<string>) -> Option<Json>)

  function Allowed(r: Retrieved): set<string> {
    set m | m in r.existing :: m.id
  }

  function AllowedSets(rs: seq<Retrieved>): (sets: seq<set<string>>)
    ensures |sets| == |rs|
    ensures forall i :: 0 <= i < |rs| ==> sets[i] == Allowed(rs[i])
  {
    seq(|rs|, i requires 0 <= i < |rs| => Allowed(rs[i]))
  }

  // ----- Phase 2: one decision per candidate

  function Individual(replies: Replies, i: nat, allowed: set<string>): (d: Option<Decision>)
    ensures d.Some? ==> Fits(d.value, allowed)
  {
    match (replies.single)(i)
    case None => None
    case Some(j) => Validate(j, allowed)
  }

  function Offset<T>(chunks: seq<seq<T>>, c: nat): nat
    requires c <= |chunks|
  {
    if c == 0 then 0 else Offset(chunks, c - 1) + |chunks[c - 1]|
  }

  /** The decision for candidate l of chunk c: the batch entry stating its index, or the
      candidate's own individual reply. */
  function Outcome(replies: Replies, rs: seq<Retrieved>, chunks: seq<seq<Retrieved>>, c: nat, l: nat): Option<Decision>
    requires c < |chunks| && l < |chunks[c]| && Offset(chunks, c) + l < |rs|
  {
    var i := Offset(chunks, c) + l;
    var allowed := Allowed(rs[i]);
    match (replies.batch)(c)
    case None => None
    case Some(reply) =>
      var slot := FirstValid(Stating(Payload(reply, |chunks[c]|), l, |chunks[c]|), allowed);
      if slot.Some? then slot else Individual(replies, i, allowed)
  }

  lemma {:induction false} OffsetsFit<T>(chunks: seq<seq<T>>, c: nat)
    requires c <= |chunks|
    ensures Offset(chunks, c) == |Flatten(chunks[..c])| <= |Flatten(chunks)|
    ensures c < |chunks| ==> Offset(chunks, c) + |chunks[c]| <= |Flatten(chunks)|
  {
    OffsetIsPrefix(chunks, c);
    if c < |chunks| {
      OffsetIsPrefix(chunks, c + 1);
      FlattenPrefix(chunks, c + 1);
    }
    FlattenPrefix(chunks, c);
  }

  lemma {:induction false} OffsetIsPrefix<T>(chunks: seq<seq<T>>, c: nat)
    requires c <= |chunks|
    ensures Offset(chunks, c) == |Flatten(chunks[..c])|
  {
    if c > 0 {
      OffsetIsPrefix(chunks, c - 1);
      assert chunks[..c] == chunks[..c - 1] + [chunks[c - 1]];
      FlattenAppend(chunks[..c - 1], chunks[c - 1]);
    }
  }

  lemma {:induction false} FlattenPrefix<T>(chunks: seq<seq<T>>, c: nat)
    requires c <= |chunks|
    ensures |Flatten(chunks[..c])| <= |Flatten(chunks)|
    decreases |chunks| - c
  {
    if c == |chunks| {
      assert chunks[..c] == chunks;
    } else {
      assert chunks[..c + 1] == chunks[..c] + [chunks[c]];
      FlattenAppend(chunks[..c], chunks[c]);
      FlattenPrefix(chunks, c + 1);
    }
  }

  ghost predicate InChunk(rs: seq<Retrieved>, chunks: seq<seq<Retrieved>>, c: int, l: int) {
    0 <= c < |chunks| && 0 <= l < |chunks[c]| && Offset(chunks, c) + l < |rs|
  }

  /** Decisions for the first chunks, each the outcome of its own candidate. */
  ghost predicate DecidedByBatch(replies: Replies, rs: seq<Retrieved>, chunks: seq<seq<Retrieved>>, ds: seq<Decision>) {
    forall c, l :: InChunk(rs, chunks, c, l) && Offset(chunks, c) + l < |ds| ==>
      Outcome(replies, rs, chunks, c, l) == Some(ds[Offset(chunks, c) + l])
  }

  ghost predicate DecidedSingly(replies: Replies, rs: seq<Retrieved>, ds: seq<Decision>)
    requires |ds| <= |rs|
  {
    forall i :: 0 <= i < |ds| ==> Individual(replies, i, Allowed(rs[i])) == Some(ds[i])
  }

  ghost predicate AllFit(rs: seq<Retrieved>, ds: seq<Decision>)
    requires |ds| <= |rs|
  {
    forall i :: 0 <= i < |ds| ==> Fits(ds[i], Allowed(rs[i]))
  }

  /** One call per candidate: the path taken for a batch size or a candidate count of one. */
  method DecideSingly(replies: Replies, rs: seq<Retrieved>) returns (r: Option<seq<Decision>>)
    ensures r.Some? ==> |r.value| == |rs| && AllFit(rs, r.value) && DecidedSingly(replies, rs, r.value)
    ensures r.None? ==> exists i :: 0 <= i < |rs| && Individual(replies, i, Allowed(rs[i])) == None
  {
    var ds: seq<Decision> := [];
    for i := 0 to |rs|
      invariant |ds| == i && AllFit(rs, ds) && DecidedSingly(replies, rs, ds)
    {
      var d := Individual(replies, i, Allowed(rs[i]));
      if d == None { return None; }
      ds := ds + [d.value];
    }
    return Some(ds);
  }

  lemma ShownSlice(rs: seq<Retrieved>, start: nat, size: nat, j: nat)
    requires start + size <= |rs| && j < size
    ensures |AllowedSets(rs)[start..start + size]| == size && AllowedSets(rs)[start..start + size][j] == Allowed(rs[start + j])
  {
  }

  lemma SlotGivesOutcome(replies: Replies, rs: seq<Retrieved>, chunks: seq<seq<Retrieved>>, c: nat, j: nat,
                         parsed: seq<Option<Decision>>)
    requires InChunk(rs, chunks, c, j) && Offset(chunks, c) + |chunks[c]| <= |rs|
    requires (replies.batch)(c).Some?
    requires Correlated(Payload((replies.batch)(c).value, |chunks[c]|),
                        AllowedSets(rs)[Offset(chunks, c)..Offset(chunks, c) + |chunks[c]|], parsed)
    ensures Outcome(replies, rs, chunks, c, j)
            == if parsed[j].Some? then parsed[j] else Individual(replies, Offset(chunks, c) + j, Allowed(rs[Offset(chunks, c) + j]))
    ensures Outcome(replies, rs, chunks, c, j).Some? ==>
              Fits(Outcome(replies, rs, chunks, c, j).value, Allowed(rs[Offset(chunks, c) + j]))
  {
    ShownSlice(rs, Offset(chunks, c), |chunks[c]|, j);
  }

  /** The first `l` candidates of chunk `c`, and all before that chunk, are decided. */
  ghost predicate DecidedUpTo(replies: Replies, rs: seq<Retrieved>, chunks: seq<seq<Retrieved>>, c: nat, l: nat,
                              ds: seq<Decision>)
    requires c < |chunks|
  {
    |ds| == Offset(chunks, c) + l <= |rs| && AllFit(rs, ds) && DecidedByBatch(replies, rs, chunks, ds)
  }

  /** A batch reply sorted into slots for chunk `c`. */
  ghost predicate ParsedFor(replies: Replies, rs: seq<Retrieved>, chunks: seq<seq<Retrieved>>, c: nat,
                            parsed: seq<Option<Decision>>)
    requires c < |chunks| && Offset(chunks, c) + |chunks[c]| <= |rs|
  {
    && (replies.batch)(c).Some?
    && Correlated(Payload((replies.batch)(c).value, |chunks[c]|),
                  AllowedSets(rs)[Offset(chunks, c)..Offset(chunks, c) + |chunks[c]|], parsed)
  }

  lemma DecideOne(replies: Replies, rs: seq<Retrieved>, chunks: seq<seq<Retrieved>>, c: nat, j: nat,
                  parsed: seq<Option<Decision>>, ds: seq<Decision>, d: Option<Decision>)
    requires c < |chunks| && j < |chunks[c]| && Offset(chunks, c) + |chunks[c]| <= |rs|
    requires ParsedFor(replies, rs, chunks, c, parsed) && DecidedUpTo(replies, rs, chunks, c, j, ds)
    requires j < |parsed| && d == if parsed[j].Some? then parsed[j] else Individual(replies, |ds|, Allowed(rs[|ds|]))
    ensures d.Some? ==> DecidedUpTo(replies, rs, chunks, c, j + 1, ds + [d.value])
    ensures d.None? ==> FailsAt(replies, rs, chunks, c, j)
  {
    SlotGivesOutcome(replies, rs, chunks, c, j, parsed);
    if d.Some? { ExtendDecided(replies, rs, chunks, c, j, ds, ds + [d.value]); }
  }

  /** One batched call, with an individual call for each slot it leaves empty. */
  method DecideChunk(replies: Replies, rs: seq<Retrieved>, chunks: seq<seq<Retrieved>>, c: nat, decided: seq<Decision>)
    returns (r: Option<seq<Decision>>)
    requires c < |chunks| && chunks[c] != [] && Offset(chunks, c) + |chunks[c]| <= |rs|
    requires DecidedUpTo(replies, rs, chunks, c, 0, decided)
    ensures r.Some? ==> DecidedUpTo(replies, rs, chunks, c, |chunks[c]|, r.value)
    ensures r.None? ==> Undecided(replies, rs, chunks)
  {
    var start, size := |decided|, |chunks[c]|;
    var parsed := AskBatch(replies, rs, chunks, c, start);
    if parsed == None { return None; }
    var ds := decided;
    for j := 0 to size
      invariant DecidedUpTo(replies, rs, chunks, c, j, ds)
    {
      var d := parsed.value[j];
      if d == None { d := Individual(replies, start + j, Allowed(rs[start + j])); }
      DecideOne(replies, rs, chunks, c, j, parsed.value, ds, d);
      if d == None { return None; }
      ds := ds + [d.value];
    }
    return Some(ds);
  }

  /** The batched call itself, its reply sorted into slots. */
  method AskBatch(replies: Replies, rs: seq<Retrieved>, chunks: seq<seq<Retrieved>>, c: nat, start: nat)
    returns (parsed: Option<seq<Option<Decision>>>)
    requires c < |chunks| && chunks[c] != [] && start == Offset(chunks, c) && start + |chunks[c]| <= |rs|
    ensures parsed.Some? ==> |parsed.value| == |chunks[c]| && ParsedFor(replies, rs, chunks, c, parsed.value)
    ensures parsed.None? ==> FailsAt(replies, rs, chunks, c, 0)
  {
    var reply := (replies.batch)(c);
    if reply == None { return None; }
    var slots, duplicates := ParseConsolidationBatch(reply.value, AllowedSets(rs)[start..start + |chunks[c]|]);
    return Some(slots);
  }

  ghost predicate FailsAt(replies: Replies, rs: seq<Retrieved>, chunks: seq<seq<Retrieved>>, c: int, l: int) {
    InChunk(rs, chunks, c, l) && Outcome(replies, rs, chunks, c, l) == None
  }

  ghost predicate Undecided(replies: Replies, rs: seq<Retrieved>, chunks: seq<seq<Retrieved>>) {
    exists c, l :: FailsAt(replies, rs, chunks, c, l)
  }

  method DecideByBatch(replies: Replies, rs: seq<Retrieved>, w: Wording, batchSize: nat, maxChars: int)
    returns (r: Option<seq<Decision>>, chunks: seq<seq<Retrieved>>)
    requires batchSize >= 1
    ensures LegalSplit(Builder(w), batchSize, maxChars, chunks, rs) && Greedy(Builder(w), batchSize, maxChars, chunks)
    ensures r.Some? ==> |r.value| == |rs| && AllFit(rs, r.value) && DecidedByBatch(replies, rs, chunks, r.value)
    ensures r.None? ==> Undecided(replies, rs, chunks)
  {
    var warnings;
    chunks, warnings := PackConsolidationChunks(rs, batchSize, maxChars, Builder(w));
    r := DecideChunks(replies, rs, chunks);
  }

  method DecideChunks(replies: Replies, rs: seq<Retrieved>,
                      chunks: seq<seq<Retrieved>>) returns (r: Option<seq<Decision>>)
    requires Flatten(chunks) == rs && forall c :: c in chunks ==> c != []
    ensures r.Some? ==> |r.value| == |rs| && AllFit(rs, r.value) && DecidedByBatch(replies, rs, chunks, r.value)
    ensures r.None? ==> Undecided(replies, rs, chunks)
  {
    var ds: seq<Decision> := [];
    for c := 0 to |chunks|
      invariant |ds| == Offset(chunks, c) <= |rs|
      invariant AllFit(rs, ds) && DecidedByBatch(replies, rs, chunks, ds)
    {
      OffsetsFit(chunks, c);
      assert chunks[c] in chunks;
      var next := DecideChunk(replies, rs, chunks, c, ds);
      if next == None { return None; }
      ds := next.value;
    }
    OffsetIsPrefix(chunks, |chunks|);
    assert chunks[..|chunks|] == chunks;
    return Some(ds);
  }

  lemma {:induction false} OffsetsApart<T>(chunks: seq<seq<T>>, c: nat, d: nat)
    requires c < d <= |chunks|
    ensures Offset(chunks, c) + |chunks[c]| <= Offset(chunks, d)
  {
    if d > c + 1 { OffsetsApart(chunks, c, d - 1); }
  }

  /** No other slot of any chunk is candidate Offset(c) + j. */
  lemma SlotsApart<T>(chunks: seq<seq<T>>, c: nat, j: nat, d: nat, l: nat)
    requires c < |chunks| && j < |chunks[c]| && d < |chunks| && l < |chunks[d]|
    requires Offset(chunks, d) + l == Offset(chunks, c) + j
    ensures d == c && l == j
  {
    if d < c { OffsetsApart(chunks, d, c); }
    if c < d { OffsetsApart(chunks, c, d); }
  }

  lemma ExtendDecided(replies: Replies, rs: seq<Retrieved>, chunks: seq<seq<Retrieved>>, c: nat, j: nat,
                      before: seq<Decision>, after: seq<Decision>)
    requires DecidedByBatch(replies, rs, chunks, before)
    requires InChunk(rs, chunks, c, j) && |before| == Offset(chunks, c) + j && AllFit(rs, before)
    requires Outcome(replies, rs, chunks, c, j).Some? && after == before + [Outcome(replies, rs, chunks, c, j).value]
    ensures DecidedByBatch(replies, rs, chunks, after) && AllFit(rs, after)
  {
    forall d, l | InChunk(rs, chunks, d, l) && Offset(chunks, d) + l < |after|
      ensures Outcome(replies, rs, chunks, d, l) == Some(after[Offset(chunks, d) + l])
    {
      if Offset(chunks, d) + l == |before| { SlotsApart(chunks, c, j, d, l); }
    }
  }

  // ----- Phase 2.5: replan decisions that clash within the pass

  predicate Claims(d: Decision) { d.action == Update || d.action == Merge }

  /** Targets a decision will make inactive. */
  function Consumed(d: Decision, newId: string): set<string> {
    if Claims(d) then set t | t in d.targets && t != newId else {}
  }

  function TakenBefore(ds: seq<Decision>, newIds: seq<string>, i: nat): set<string>
    requires i <= |ds| && i <= |newIds|
  {
    if i == 0 then {} else TakenBefore(ds, newIds, i - 1) + Consumed(ds[i - 1], newIds[i - 1])
  }

  predicate Clashes(d: Decision, taken: set<string>) {
    Claims(d) && exists t <- d.targets :: t in taken
  }

  function Replan(replies: Replies, i: nat, taken: set<string>, allowed: set<string>): (d: Option<Decision>)
    ensures d.Some? ==> Fits(d.value, allowed - taken)
  {
    match (replies.replan)(i, taken)
    case None => None
    case Some(j) => Validate(j, allowed - taken)
  }

  /** Each decision stands unless an earlier final one took a target of it; then it is the
      decision made afresh against the targets still free. */
  ghost predicate Reconciled(replies: Replies, rs: seq<Retrieved>, newIds: seq<string>, planned: seq<Decision>,
                             out: seq<Decision>)
    requires |planned| == |newIds| == |rs| && |out| <= |rs|
  {
    forall i :: 0 <= i < |out| ==>
      var taken := TakenBefore(out, newIds, i);
      if Clashes(planned[i], taken) then Replan(replies, i, taken, Allowed(rs[i])) == Some(out[i])
      else out[i] == planned[i]
  }

  lemma {:induction false} TakenStable(a: seq<Decision>, b: seq<Decision>, newIds: seq<string>, i: nat)
    requires i <= |a| <= |b| && i <= |newIds| && a == b[..|a|]
    ensures TakenBefore(a, newIds, i) == TakenBefore(b, newIds, i)
  {
    if i > 0 { TakenStable(a, b, newIds, i - 1); }
  }

  /** The final decision for candidate |out|, given the final decisions before it. */
  function NextDecision(replies: Replies, rs: seq<Retrieved>, newIds: seq<string>, planned: seq<Decision>,
                        out: seq<Decision>): Option<Decision>
    requires |planned| == |newIds| == |rs| && |out| < |rs|
  {
    var taken := TakenBefore(out, newIds, |out|);
    if Clashes(planned[|out|], taken) then Replan(replies, |out|, taken, Allowed(rs[|out|])) else Some(planned[|out|])
  }

  lemma ReconciledExtends(replies: Replies, rs: seq<Retrieved>, newIds: seq<string>, planned: seq<Decision>,
                          out: seq<Decision>, d: Decision)
    requires |planned| == |newIds| == |rs| && |out| < |rs|
    requires Reconciled(replies, rs, newIds, planned, out) && NextDecision(replies, rs, newIds, planned, out) == Some(d)
    ensures Reconciled(replies, rs, newIds, planned, out + [d])
    ensures TakenBefore(out + [d], newIds, |out| + 1) == TakenBefore(out, newIds, |out|) + Consumed(d, newIds[|out|])
  {
    var next := out + [d];
    TakenStable(out, next, newIds, |out|);
    forall i | 0 <= i < |next|
      ensures var taken := TakenBefore(next, newIds, i);
              if Clashes(planned[i], taken) then Replan(replies, i, taken, Allowed(rs[i])) == Some(next[i])
              else next[i] == planned[i]
    {
      TakenStable(out, next, newIds, i);
    }
  }

  method ReconcilePlan(replies: Replies, rs: seq<Retrieved>, newIds: seq<string>, planned: seq<Decision>)
    returns (r: Option<seq<Decision>>)
    requires |planned| == |newIds| == |rs| && AllFit(rs, planned)
    ensures r.Some? ==> |r.value| == |rs| && AllFit(rs, r.value) && Reconciled(replies, rs, newIds, planned, r.value)
    ensures r.None? ==> exists out: seq<Decision> :: |out| < |rs| && Reconciled(replies, rs, newIds, planned, out)
                                                    && NextDecision(replies, rs, newIds, planned, out) == None
  {
    var decisions: seq<Decision> := [];
    var consumed: set<string> := {};
    for i := 0 to |rs|
      invariant |decisions| == i
      invariant consumed == TakenBefore(decisions, newIds, i)
      invariant AllFit(rs, decisions) && Reconciled(replies, rs, newIds, planned, decisions)
    {
      var dec := planned[i];
      if Clashes(dec, consumed) {
        var replanned := Replan(replies, i, consumed, Allowed(rs[i]));
        if replanned == None { return None; }
        dec := replanned.value;
      }
      ReconciledExtends(replies, rs, newIds, planned, decisions, dec);
      decisions := decisions + [dec];
      consumed := consumed + Consumed(dec, newIds[i]);
    }
    return Some(decisions);
  }

  // ----- Phase 3: write operations, and one prepared write per winner

  function ToOps(rs: seq<Retrieved>, newIds: seq<string>, ds: seq<Decision>): (ops: seq<Op>)
    requires |rs| == |newIds| == |ds|
    ensures |ops| == |ds|
    ensures forall i :: 0 <= i < |ds| ==>
              ops[i] == Op(ds[i].action, newIds[i], rs[i].kind, rs[i].content, rs[i].confidence, ds[i].targets)
  {
    seq(|ds|, i requires 0 <= i < |ds| => Op(ds[i].action, newIds[i], rs[i].kind, rs[i].content, rs[i].confidence, ds[i].targets))
  }

  /** Ids derived from kind and content: the digest of "kind:content". */
  function NewIds(atomId: (string, string) -> string, rs: seq<Retrieved>): (ids: seq<string>)
    ensures |ids| == |rs|
    ensures forall i :: 0 <= i < |rs| ==> ids[i] == atomId(rs[i].kind, rs[i].content)
  {
    seq(|rs|, i requires 0 <= i < |rs| => atomId(rs[i].kind, rs[i].content))
  }

  function DefaultMetadata(confidence: string): Metadata {
    Metadata(None, 100, confidence, false, [])
  }

  /** Some non-skip operation asks for this write. */
  ghost predicate AskedFor(ops: seq<Op>, w: AtomWrite) {
    exists i :: 0 <= i < |ops| && ops[i].action != Skip && w.id == ops[i].newId
      && w.kind == ops[i].kind && w.content == ops[i].content && w.meta == Metadata(None, 100, ops[i].confidence, false, [])
  }

  predicate IsPrepared(prepared: seq<AtomWrite>, id: string) {
    exists w <- prepared :: w.id == id
  }

  method PrepareAtoms(embed: string -> Option<Vec>, ops: seq<Op>) returns (r: Option<seq<AtomWrite>>)
    ensures r.Some? ==> |r.value| <= |ops| && forall i, j :: 0 <= i < j < |r.value| ==> r.value[i].id != r.value[j].id
    ensures r.Some? ==> forall i :: 0 <= i < |ops| && ops[i].action != Skip ==> IsPrepared(r.value, ops[i].newId)
    ensures r.Some? ==> forall w :: w in r.value ==> AskedFor(ops, w) && embed(w.content) == Some(w.vec)
    ensures r.None? ==> exists i :: 0 <= i < |ops| && ops[i].action != Skip && embed(ops[i].content) == None
  {
    var prepared: seq<AtomWrite> := [];
    for k := 0 to |ops|
      invariant |prepared| <= k && forall i, j :: 0 <= i < j < |prepared| ==> prepared[i].id != prepared[j].id
      invariant forall i :: 0 <= i < k && ops[i].action != Skip ==> IsPrepared(prepared, ops[i].newId)
      invariant forall w :: w in prepared ==> AskedFor(ops, w) && embed(w.content) == Some(w.vec)
    {
      var op := ops[k];
      if op.action != Skip && !IsPrepared(prepared, op.newId) {
        var v := embed(op.content);
        if v == None { return None; }
        var w := AtomWrite(op.newId, op.kind, op.content, DefaultMetadata(op.confidence), v.value);
        assert AskedFor(ops, w);
        ghost var before := prepared;
        prepared := prepared + [w];
        PreparedGrows(before, w);
      }
    }
    return Some(prepared);
  }

  lemma PreparedGrows(prepared: seq<AtomWrite>, w: AtomWrite)
    ensures forall id :: IsPrepared(prepared + [w], id) <==> IsPrepared(prepared, id) || id == w.id
  {
    forall id ensures IsPrepared(prepared + [w], id) <==> IsPrepared(prepared, id) || id == w.id {
      if v :| v in prepared && v.id == id { assert v in prepared + [w]; }
      assert w in prepared + [w];
    }
  }
}
