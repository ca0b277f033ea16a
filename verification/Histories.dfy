/**
 What the reader shows after any history of attempts: passes that failed in their L1
 transaction, stopped on the way or reached their gate, retried under the same id or not.
 It reads one row for each pass id and scene, so what it shows depends on which attempt's
 row is the one kept.
 */
module Histories {
  import opened Tables
  import opened TextOrder
  import opened SceneFrames
  import opened Topics
  import opened Reconcile
  import opened DeltaLog
  import opened AuditLog
  import opened Effects
  import opened Growth
  import Runs

  /** How far an attempt got: not past its L1 transaction, not to the completeness gate, or to
      it. The rows are written on the way to the gate, after narration. */
  datatype Outcome = L1Failed | Stopped | Gated

  /** An attempt at a pass under a pass id: the scenes it found and left, and what it wrote. */
  datatype Entry = Entry(id: string, before: Db, after: Db, log: PassLog, outcome: Outcome)

  ghost predicate TrueEntry(e: Entry) {
    && Grows(e.before, e.after)
    && (if e.outcome.Gated? then Faithful(e.before, e.after, e.log.scenes) else e.log.scenes == [])
    && (e.outcome.L1Failed? ==> e.after.scenes == e.before.scenes)
  }

  /** One attempt after another, with no scene written in between. */
  ghost predicate Chronicle(entries: seq<Entry>) {
    && (forall k :: 0 <= k < |entries| ==> TrueEntry(entries[k]))
    && (forall k :: 0 < k < |entries| ==> entries[k].before.scenes == entries[k - 1].after.scenes)
  }

  function Attempts(entries: seq<Entry>): (attempts: seq<Attempt>)
    ensures |attempts| == |entries|
    ensures forall k :: 0 <= k < |entries| ==> attempts[k] == Attempt(entries[k].id, entries[k].log.scenes)
  {
    seq(|entries|, k requires 0 <= k < |entries| => Attempt(entries[k].id, entries[k].log.scenes))
  }

  /** The pass table in the reader's order. */
  function Passes(entries: seq<Entry>): seq<Started> {
    Recorded(Attempts(entries)).passes
  }

  function Logs(entries: seq<Entry>): seq<PassLog> {
    Loaded(Recorded(Attempts(entries)))
  }

  function Found(entries: seq<Entry>, k: int, x: string): seq<string>
    requires 0 <= k < |entries|
  {
    Members(entries[k].before, x)
  }

  function Left(entries: seq<Entry>, k: int, x: string): seq<string>
    requires 0 <= k < |entries|
  {
    Members(entries[k].after, x)
  }

  // ----- A followed scene

  /** Created by attempt `start`; up to `selected` every attempt that wrote rows wrote one for
      it, and its members never repeat. */
  ghost predicate Followed(entries: seq<Entry>, x: string, start: nat, selected: nat) {
    && start <= selected < |entries|
    && x !in entries[start].before.scenes && x in entries[start].after.scenes
    && forall k :: start <= k <= selected ==> Distinct(Left(entries, k, x)) && (entries[k].outcome.Gated? ==> Noted(entries[k].log.scenes, x))
  }

  lemma {:induction false} ScenesPersist(entries: seq<Entry>, x: string, i: nat, j: nat)
    requires Chronicle(entries) && i < j < |entries| && x in entries[i].after.scenes
    ensures x in entries[j].before.scenes
    decreases j - i
  {
    assert entries[i + 1].before.scenes == entries[i].after.scenes;
    if i + 1 < j {
      assert TrueEntry(entries[i + 1]);
      ScenesPersist(entries, x, i + 1, j);
    }
  }

  /** A noted scene's row is its change in that attempt, and a creation if it was new. */
  lemma NotedChange(e: Entry, x: string)
    requires TrueEntry(e) && RowAmong(e.log.scenes, x).Some?
    ensures var row := RowAmong(e.log.scenes, x).value;
            && row == NoteChange(x, row.effect, Members(e.before, x), Members(e.after, x))
            && x in e.after.scenes && (x !in e.before.scenes <==> row.effect == Created)
  {
    RowIsAmong(e.log.scenes, x);
    assert RowRight(e.before, e.after, RowAmong(e.log.scenes, x).value);
  }

  lemma {:induction false} NotedRow(rows: seq<SceneEffect>, x: string)
    requires Noted(rows, x)
    ensures RowAmong(rows, x).Some?
  {
    var n := |rows| - 1;
    if rows[n].sceneId != x {
      assert rows == rows[..n] + [rows[n]];
      NotedRow(rows[..n], x);
    }
  }

  /** The attempts with a row for it are those since its creation that reached their gate. */
  lemma RowsWritten(entries: seq<Entry>, x: string, start: nat, selected: nat, k: nat)
    requires Chronicle(entries) && Followed(entries, x, start, selected) && k <= selected
    ensures RowAmong(entries[k].log.scenes, x).Some? <==> start <= k && entries[k].outcome.Gated?
    ensures start < k ==> x in entries[k].before.scenes
  {
    assert TrueEntry(entries[k]);
    if RowAmong(entries[k].log.scenes, x).Some? {
      NotedChange(entries[k], x);
      if k < start { ScenesPersist(entries, x, k, start); }
    }
    if start <= k && entries[k].outcome.Gated? { NotedRow(entries[k].log.scenes, x); }
    if start < k { ScenesPersist(entries, x, start, k); }
  }

  // ----- The row kept for it under one id

  /** The attempt whose row is kept for the scene under `id`, -1 if there is none. */
  function Keeper(entries: seq<Entry>, id: string, x: string): int {
    Source(Attempts(entries), id, x)
  }

  /** Attempt `k` is the last under its id: the pass table refers to it. */
  ghost predicate Last(entries: seq<Entry>, k: int) {
    0 <= k < |entries| && forall j :: k < j < |entries| ==> entries[j].id != entries[k].id
  }

  lemma PassesAre(entries: seq<Entry>)
    ensures Ascending(Passes(entries)) && |Logs(entries)| == |Passes(entries)|
    ensures forall p :: p in Passes(entries) <==> Last(entries, p.at) && entries[p.at].id == p.id
  {
    PassesAreLatest(Attempts(entries));
    forall p ensures Retained(Attempts(entries), p) <==> Last(entries, p.at) && entries[p.at].id == p.id {
      if Last(entries, p.at) { assert Latest(Attempts(entries), p.at); }
      if Latest(Attempts(entries), p.at) {
        forall j | p.at < j < |entries| ensures entries[j].id != entries[p.at].id {
          assert Attempts(entries)[j].id != Attempts(entries)[p.at].id;
        }
      }
    }
  }

  /** Pass `p` of the table, as the reader sees it for this scene. */
  lemma LoadedRow(entries: seq<Entry>, x: string, p: nat)
    requires p < |Passes(entries)|
    ensures p < |Logs(entries)|
    ensures var g := Keeper(entries, Passes(entries)[p].id, x);
            && -1 <= g < |entries|
            && RowFor(Logs(entries)[p], x) == (if g == -1 then None else RowAmong(entries[g].log.scenes, x))
            && (HasBaseline(Logs(entries)[p], x) <==> g >= 0 && IsBaseline(RowAmong(entries[g].log.scenes, x).value, x))
  {
    var id := Passes(entries)[p].id;
    AuditLog.RetainedRow(Attempts(entries), id, x);
    BaselineIsRow(RowsUnder(Recorded(Attempts(entries)), id), x);
  }

  ghost predicate GatedUnder(entries: seq<Entry>, id: string, g: int) {
    0 <= g < |entries| && entries[g].id == id && entries[g].outcome.Gated?
  }

  /** Under the id of a last attempt, the keeper is the last attempt since the creation that
      reached its gate. */
  lemma KeeperIs(entries: seq<Entry>, x: string, start: nat, selected: nat, i: nat)
    requires Chronicle(entries) && Followed(entries, x, start, selected) && i <= selected && Last(entries, i)
    ensures var g := Keeper(entries, entries[i].id, x);
            && (g >= 0 ==> start <= g <= i && GatedUnder(entries, entries[i].id, g))
            && forall k :: g < k < |entries| && start <= k ==> !GatedUnder(entries, entries[i].id, k)
  {
    var id := entries[i].id;
    var g := Keeper(entries, id, x);
    if g >= 0 {
      assert Attempts(entries)[g].id == id;
      RowsWritten(entries, x, start, selected, g);
    }
    forall k | g < k < |entries| && start <= k ensures !GatedUnder(entries, id, k) {
      if GatedUnder(entries, id, k) {
        assert Attempts(entries)[k].id == id;
        RowsWritten(entries, x, start, selected, k);
        assert false;
      }
    }
  }

  // ----- When there is an answer at all

  /** The creating attempt wrote its rows, and the later attempts under its id, all of them up to
      the selected one, wrote none. */
  ghost predicate CreationKept(entries: seq<Entry>, start: nat, selected: nat)
    requires start < |entries|
  {
    && entries[start].outcome.Gated?
    && forall k :: start < k < |entries| && entries[k].id == entries[start].id ==> k <= selected && !entries[k].outcome.Gated?
  }

  lemma BaselineHere(entries: seq<Entry>, x: string, start: nat, selected: nat, p: nat)
    requires Chronicle(entries) && Followed(entries, x, start, selected)
    requires p < |Passes(entries)| && Passes(entries)[p].at <= selected
    ensures p < |Logs(entries)|
    ensures HasBaseline(Logs(entries)[p], x) <==> Passes(entries)[p].id == entries[start].id && CreationKept(entries, start, selected)
    ensures HasBaseline(Logs(entries)[p], x) ==>
              Passes(entries)[p].at >= start && RowFor(Logs(entries)[p], x) == Some(NoteCreation(x, Left(entries, start, x)))
  {
    var at, id := Passes(entries)[p].at, Passes(entries)[p].id;
    PassesAre(entries);
    assert Passes(entries)[p] in Passes(entries);
    LoadedRow(entries, x, p);
    KeeperIs(entries, x, start, selected, at);
    var g := Keeper(entries, id, x);
    if g >= 0 {
      KeptBaseline(entries, x, start, selected, g);
      if g == start { KeptIsCreation(entries, start, selected, at); }
    }
    if id == entries[start].id && CreationKept(entries, start, selected) {
      StartIsKeeper(entries, x, start, selected, at, g);
    }
  }

  lemma KeptBaseline(entries: seq<Entry>, x: string, start: nat, selected: nat, g: nat)
    requires Chronicle(entries) && Followed(entries, x, start, selected) && start <= g <= selected && entries[g].outcome.Gated?
    ensures RowAmong(entries[g].log.scenes, x).Some?
    ensures IsBaseline(RowAmong(entries[g].log.scenes, x).value, x) <==> g == start
    ensures g == start ==> RowAmong(entries[g].log.scenes, x) == Some(NoteCreation(x, Left(entries, start, x)))
  {
    RowsWritten(entries, x, start, selected, g);
    NotedChange(entries[g], x);
    CreatedIsChange(x, Left(entries, start, x));
  }

  lemma KeptIsCreation(entries: seq<Entry>, start: nat, selected: nat, at: nat)
    requires start <= at <= selected && Last(entries, at) && entries[at].id == entries[start].id && entries[start].outcome.Gated?
    requires forall k :: start < k < |entries| ==> !GatedUnder(entries, entries[at].id, k)
    ensures CreationKept(entries, start, selected)
  {
    forall k | start < k < |entries| && entries[k].id == entries[start].id ensures k <= selected && !entries[k].outcome.Gated? {
      assert !GatedUnder(entries, entries[at].id, k);
    }
  }

  lemma StartIsKeeper(entries: seq<Entry>, x: string, start: nat, selected: nat, at: nat, g: int)
    requires start <= selected < |entries| && CreationKept(entries, start, selected)
    requires at <= selected && Last(entries, at) && entries[at].id == entries[start].id
    requires g >= 0 ==> start <= g <= at && GatedUnder(entries, entries[at].id, g)
    requires forall k :: g < k < |entries| && start <= k ==> !GatedUnder(entries, entries[at].id, k)
    ensures g == start
  {
    assert GatedUnder(entries, entries[at].id, start);
  }

  /** The last attempt under the id of attempt `i`. */
  lemma {:induction false} LastUnder(entries: seq<Entry>, i: nat) returns (l: nat)
    requires i < |entries|
    ensures i <= l && Last(entries, l) && entries[l].id == entries[i].id
    decreases |entries| - i
  {
    if Last(entries, i) { return i; }
    var j :| i < j < |entries| && entries[j].id == entries[i].id;
    l := LastUnder(entries, j);
  }

  /** Where the pass table lists a last attempt. */
  lemma Listed(entries: seq<Entry>, l: nat) returns (p: nat)
    requires Last(entries, l)
    ensures p < |Passes(entries)| && Passes(entries)[p] == Started(entries[l].id, l)
  {
    PassesAre(entries);
    var row := Started(entries[l].id, l);
    assert row in Passes(entries);
    p :| 0 <= p < |Passes(entries)| && Passes(entries)[p] == row;
  }

  lemma PassAt(entries: seq<Entry>, p: nat)
    requires p < |Passes(entries)|
    ensures Last(entries, Passes(entries)[p].at) && entries[Passes(entries)[p].at].id == Passes(entries)[p].id
    ensures |Logs(entries)| == |Passes(entries)|
    ensures forall q :: 0 <= q < p ==> Passes(entries)[q].at < Passes(entries)[p].at && Passes(entries)[q].id != Passes(entries)[p].id
  {
    PassesAre(entries);
    assert Passes(entries)[p] in Passes(entries);
    forall q | 0 <= q < p ensures Passes(entries)[q].id != Passes(entries)[p].id {
      assert Passes(entries)[q] in Passes(entries);
    }
  }

  lemma AscendingWithin(passes: seq<Started>, b: nat, k: nat)
    requires Ascending(passes) && b <= k < |passes|
    ensures forall p :: b <= p <= k ==> passes[b].at <= passes[p].at <= passes[k].at
  {
  }

  lemma WithinPasses(entries: seq<Entry>, b: nat, k: nat)
    requires b <= k < |Passes(entries)|
    ensures |Logs(entries)| == |Passes(entries)|
    ensures forall p :: b <= p <= k ==> Passes(entries)[b].at <= Passes(entries)[p].at <= Passes(entries)[k].at
  {
    PassesAre(entries);
    AscendingWithin(Passes(entries), b, k);
  }

  /** The pass the replay starts at: that of the creation, under which its row was kept. */
  lemma CreationPass(entries: seq<Entry>, x: string, start: nat, selected: nat, k: nat) returns (b: nat)
    requires Chronicle(entries) && Followed(entries, x, start, selected) && CreationKept(entries, start, selected)
    requires k < |Passes(entries)| && Passes(entries)[k].at == selected
    ensures b <= k < |Logs(entries)| && Passes(entries)[b].id == entries[start].id && start <= Passes(entries)[b].at <= selected
    ensures BaselinePass(Logs(entries), x, 0, k + 1) == b
    ensures RowFor(Logs(entries)[b], x) == Some(NoteCreation(x, Left(entries, start, x)))
  {
    var l := LastUnder(entries, start);
    b := Listed(entries, l);
    PassAt(entries, b);
    PassAt(entries, k);
    assert l <= selected;
    BaselineHere(entries, x, start, selected, b);
    forall q | 0 <= q < b ensures !HasBaseline(Logs(entries)[q], x) {
      BaselineHere(entries, x, start, selected, q);
    }
    BaselineIs(Logs(entries), x, 0, k + 1, b);
  }

  lemma NoCreationPass(entries: seq<Entry>, x: string, start: nat, selected: nat, k: nat)
    requires Chronicle(entries) && Followed(entries, x, start, selected) && !CreationKept(entries, start, selected)
    requires k < |Passes(entries)| && Passes(entries)[k].at == selected
    ensures k < |Logs(entries)| && BaselinePass(Logs(entries), x, 0, k + 1) == -1
  {
    WithinPasses(entries, 0, k);
    forall q | 0 <= q < k + 1 ensures !HasBaseline(Logs(entries)[q], x) {
      BaselineHere(entries, x, start, selected, q);
    }
    NoBaseline(Logs(entries), x, 0, k + 1);
  }

  lemma {:induction false} NoBaseline(passes: seq<PassLog>, x: string, k: nat, stop: nat)
    requires k <= stop <= |passes| && forall p :: k <= p < stop ==> !HasBaseline(passes[p], x)
    ensures BaselinePass(passes, x, k, stop) == -1
    decreases stop - k
  {
    if k < stop { NoBaseline(passes, x, k + 1, stop); }
  }

  /** Whatever the ids: the reader has no answer for a pass if and only if the creating attempt
      wrote no rows, or a later attempt under its id replaced the creation row or moved the pass
      behind the selected one. */
  lemma AnsweredExactly(entries: seq<Entry>, x: string, start: nat, selected: nat, k: nat)
    requires Chronicle(entries) && Followed(entries, x, start, selected)
    requires k < |Passes(entries)| && Passes(entries)[k].at == selected
    ensures k < |Logs(entries)|
    ensures Reconstructed(Logs(entries), k, x).quality == Unavailable <==> !CreationKept(entries, start, selected)
  {
    if CreationKept(entries, start, selected) {
      var b := CreationPass(entries, x, start, selected, k);
      CompleteExactly(Logs(entries), x, b, k + 1);
    } else {
      NoCreationPass(entries, x, start, selected, k);
    }
  }

  // ----- When the answers are right

  /** What the scene's members were when each listed pass was over. */
  function Lefts(entries: seq<Entry>, x: string): (lefts: seq<seq<string>>)
    ensures |lefts| == |Passes(entries)|
  {
    seq(|Passes(entries)|, p requires 0 <= p < |Passes(entries)| =>
      var at := Passes(entries)[p].at; if at < |entries| then Left(entries, at, x) else [])
  }

  /** One change of members takes away and adds what another does, between lists of equal size. */
  ghost predicate SameMove(before: seq<string>, after: seq<string>, from: seq<string>, to: seq<string>) {
    && |before| == |from| && |after| == |to|
    && (forall y :: y in before && y !in after <==> y in from && y !in to)
    && (forall y :: y in after && y !in before <==> y in to && y !in from)
  }

  /** The attempt whose row is kept under pass `p` moved the scene as its members moved since
      the pass listed before it was over. */
  ghost predicate KeptMove(entries: seq<Entry>, x: string, p: int) {
    && 0 < p < |Passes(entries)|
    && var g := Keeper(entries, Passes(entries)[p].id, x);
    0 <= g < |entries| && SameMove(Found(entries, g, x), Left(entries, g, x), Lefts(entries, x)[p - 1], Lefts(entries, x)[p])
  }

  lemma PassRow(entries: seq<Entry>, x: string, start: nat, selected: nat, p: nat)
    requires Chronicle(entries) && Followed(entries, x, start, selected)
    requires p < |Passes(entries)| && Passes(entries)[p].at <= selected
    ensures p < |Logs(entries)|
    ensures var g, row := Keeper(entries, Passes(entries)[p].id, x), RowFor(Logs(entries)[p], x);
            if g == -1 then row == None
            else start <= g <= selected && row.Some? && row.value == NoteChange(x, row.value.effect, Found(entries, g, x), Left(entries, g, x))
  {
    PassAt(entries, p);
    LoadedRow(entries, x, p);
    KeeperIs(entries, x, start, selected, Passes(entries)[p].at);
    var g := Keeper(entries, Passes(entries)[p].id, x);
    if g >= 0 { NotedChange(entries[g], x); }
  }

  lemma NoteStates(x: string, effect: Effect, before: seq<string>, after: seq<string>, from: seq<string>, to: seq<string>)
    ensures States(NoteChange(x, effect, before, after), from, to) <==> SameMove(before, after, from, to)
  {
  }

  lemma StatesIsMove(entries: seq<Entry>, x: string, start: nat, selected: nat, p: nat)
    requires Chronicle(entries) && Followed(entries, x, start, selected)
    requires 0 < p < |Passes(entries)| && Passes(entries)[p].at <= selected
    ensures StatesAt(Logs(entries), x, Lefts(entries, x), p) <==> KeptMove(entries, x, p)
  {
    PassAt(entries, p);
    PassRow(entries, x, start, selected, p);
    var row, lefts := RowFor(Logs(entries)[p], x), Lefts(entries, x);
    var g := Keeper(entries, Passes(entries)[p].id, x);
    if g >= 0 { NoteStates(x, row.value.effect, Found(entries, g, x), Left(entries, g, x), lefts[p - 1], lefts[p]); }
  }

  lemma PassListed(entries: seq<Entry>, x: string, start: nat, selected: nat, p: nat)
    requires Chronicle(entries) && Followed(entries, x, start, selected)
    requires p < |Passes(entries)| && start <= Passes(entries)[p].at <= selected
    ensures ListingAt(Logs(entries), x, Lefts(entries, x), p)
  {
    PassAt(entries, p);
    PassRow(entries, x, start, selected, p);
    var g := Keeper(entries, Passes(entries)[p].id, x);
    if g >= 0 { MinusDistinct(Left(entries, g, x), Found(entries, g, x)); }
  }

  lemma LeftsListed(entries: seq<Entry>, x: string, start: nat, selected: nat, b: nat, k: nat)
    requires Chronicle(entries) && Followed(entries, x, start, selected)
    requires b <= k < |Passes(entries)| && Passes(entries)[b].at >= start && Passes(entries)[k].at == selected
    ensures Listings(Logs(entries), x, Lefts(entries, x), b, k + 1)
  {
    WithinPasses(entries, b, k);
    forall p | b <= p < k + 1 ensures ListingAt(Logs(entries), x, Lefts(entries, x), p) {
      PassListed(entries, x, start, selected, p);
    }
  }

  lemma FirstRight(entries: seq<Entry>, x: string, start: nat, selected: nat, b: nat)
    requires Chronicle(entries) && Followed(entries, x, start, selected) && b < |Logs(entries)| == |Passes(entries)|
    requires RowFor(Logs(entries)[b], x) == Some(NoteCreation(x, Left(entries, start, x)))
    ensures RightAt(Logs(entries), x, b, Lefts(entries, x), b) <==> SameMembers(Left(entries, start, x), Lefts(entries, x)[b])
  {
    assert Replay(Logs(entries), x, b, b) == Membership(Complete, [], []);
    ReplayCreation(x, Left(entries, start, x));
  }

  /** The reader's answer for pass `p` is complete and is what the pass left. */
  ghost predicate ShownRight(entries: seq<Entry>, x: string, p: int) {
    && 0 <= p < |Logs(entries)| == |Passes(entries)|
    && var m := Reconstructed(Logs(entries), p, x); m.quality == Complete && SameMembers(m.after, Lefts(entries, x)[p])
  }

  lemma ShownIsRight(entries: seq<Entry>, x: string, b: nat, k: nat, p: nat)
    requires b <= p <= k < |Logs(entries)| == |Passes(entries)| && BaselinePass(Logs(entries), x, 0, k + 1) == b
    ensures ShownRight(entries, x, p) <==> RightAt(Logs(entries), x, b, Lefts(entries, x), p)
  {
    BaselineCut(Logs(entries), x, 0, p + 1, k + 1);
  }

  lemma {:induction false} BaselineCut(passes: seq<PassLog>, x: string, k: nat, stop: nat, longer: nat)
    requires k <= stop <= longer <= |passes| && k <= BaselinePass(passes, x, k, longer) < stop
    ensures BaselinePass(passes, x, k, stop) == BaselinePass(passes, x, k, longer)
    decreases stop - k
  {
    if k < stop && !HasBaseline(passes[k], x) { BaselineCut(passes, x, k + 1, stop, longer); }
  }

  ghost predicate AllShownRight(entries: seq<Entry>, x: string, b: nat, k: nat) {
    forall p :: b <= p <= k ==> ShownRight(entries, x, p)
  }

  ghost predicate AllKeptMoves(entries: seq<Entry>, x: string, b: nat, k: nat) {
    forall p :: b < p <= k ==> KeptMove(entries, x, p)
  }

  lemma AllShownAre(entries: seq<Entry>, x: string, b: nat, k: nat)
    requires b <= k < |Logs(entries)| == |Passes(entries)| && BaselinePass(Logs(entries), x, 0, k + 1) == b
    ensures AllShownRight(entries, x, b, k) <==> forall p :: b <= p < k + 1 ==> RightAt(Logs(entries), x, b, Lefts(entries, x), p)
  {
    forall p | b <= p <= k ensures ShownRight(entries, x, p) <==> RightAt(Logs(entries), x, b, Lefts(entries, x), p) {
      ShownIsRight(entries, x, b, k, p);
    }
  }

  lemma AllMovesAre(entries: seq<Entry>, x: string, start: nat, selected: nat, b: nat, k: nat)
    requires Chronicle(entries) && Followed(entries, x, start, selected)
    requires b <= k < |Passes(entries)| && Passes(entries)[k].at == selected
    ensures AllKeptMoves(entries, x, b, k) <==> forall p :: b < p < k + 1 ==> StatesAt(Logs(entries), x, Lefts(entries, x), p)
  {
    WithinPasses(entries, b, k);
    if AllKeptMoves(entries, x, b, k) {
      forall p | b < p < k + 1 ensures StatesAt(Logs(entries), x, Lefts(entries, x), p) {
        StatesIsMove(entries, x, start, selected, p);
      }
    }
    if forall p :: b < p < k + 1 ==> StatesAt(Logs(entries), x, Lefts(entries, x), p) {
      forall p | b < p <= k ensures KeptMove(entries, x, p) {
        StatesIsMove(entries, x, start, selected, p);
      }
    }
  }

  /** Whatever the ids and outcomes: every answer from the creation's pass to the selected one is
      complete and right if and only if the members are those of the creation when its pass is
      over and, for each later pass, the attempt whose row is kept moved the scene exactly as it
      moved between the ends of the two passes. */
  lemma AnswersRightExactly(entries: seq<Entry>, x: string, start: nat, selected: nat, b: nat, k: nat)
    requires Chronicle(entries) && Followed(entries, x, start, selected) && CreationKept(entries, start, selected)
    requires b <= k < |Passes(entries)| && Passes(entries)[k].at == selected && Passes(entries)[b].id == entries[start].id
    ensures AllShownRight(entries, x, b, k)
            <==> SameMembers(Left(entries, start, x), Lefts(entries, x)[b]) && AllKeptMoves(entries, x, b, k)
  {
    var b' := CreationPass(entries, x, start, selected, k);
    SamePass(entries, b, b');
    PassAt(entries, k);
    LeftsListed(entries, x, start, selected, b, k);
    FirstRight(entries, x, start, selected, b);
    AllShownAre(entries, x, b, k);
    AllMovesAre(entries, x, start, selected, b, k);
    if RightAt(Logs(entries), x, b, Lefts(entries, x), b) { RightExactly(Logs(entries), x, b, Lefts(entries, x), k + 1); }
  }

  lemma SamePass(entries: seq<Entry>, p: nat, q: nat)
    requires p < |Passes(entries)| && q < |Passes(entries)| && Passes(entries)[p].id == Passes(entries)[q].id
    ensures p == q
  {
    PassAt(entries, p);
    PassAt(entries, q);
  }

  // ----- Retries

  /** Attempts `i` and `k` have one id, and `j` lies between. */
  predicate Spans(entries: seq<Entry>, i: int, j: int, k: int) {
    0 <= i < j < k < |entries| && entries[i].id == entries[k].id
  }

  /** Attempts under one id follow each other. */
  ghost predicate Consecutive(entries: seq<Entry>) {
    forall i, j, k :: Spans(entries, i, j, k) ==> entries[j].id == entries[i].id
  }

  /** Under the id of attempt `t` the row of another one is kept. */
  ghost predicate Spare(entries: seq<Entry>, start: nat, t: int) {
    && 0 <= t < |entries|
    && exists g :: start <= g && GatedUnder(entries, entries[t].id, g) && (g > t || !entries[t].outcome.Gated?)
  }

  /** Attempts whose row is not the one kept, under an id with a row, failed in L1 or left the
      scene's members as they found them. */
  ghost predicate SparesIdle(entries: seq<Entry>, x: string, start: nat, selected: nat) {
    selected < |entries| && forall t :: start < t <= selected && Spare(entries, start, t) ==> IdleOn(entries, x, t)
  }

  ghost predicate IdleOn(entries: seq<Entry>, x: string, t: int) {
    0 <= t < |entries| && (entries[t].outcome.L1Failed? || SameMembers(Found(entries, t, x), Left(entries, t, x)))
  }

  /** Some attempt under each listed id reached its gate. */
  ghost predicate EachReached(entries: seq<Entry>, start: nat, selected: nat) {
    forall i :: start <= i <= selected && Last(entries, i) ==> ReachedUnder(entries, start, i)
  }

  ghost predicate ReachedUnder(entries: seq<Entry>, start: nat, i: int) {
    0 <= i < |entries| && exists g :: start <= g && GatedUnder(entries, entries[i].id, g)
  }

  lemma {:induction false} IdleAcross(entries: seq<Entry>, x: string, start: nat, selected: nat, i: nat, j: nat)
    requires Chronicle(entries) && Followed(entries, x, start, selected) && start <= i <= j <= selected
    requires forall t :: i < t <= j ==> IdleOn(entries, x, t)
    ensures SameMembers(Left(entries, i, x), Left(entries, j, x))
    decreases j - i
  {
    if i < j {
      IdleAcross(entries, x, start, selected, i, j - 1);
      assert IdleOn(entries, x, j) && TrueEntry(entries[j]);
      assert entries[j].before.scenes == entries[j - 1].after.scenes;
    }
  }

  /** Between the ends of two neighbouring listed passes lie the attempts of the later one. */
  lemma GroupOf(entries: seq<Entry>, p: nat, t: nat)
    requires Consecutive(entries) && 0 < p < |Passes(entries)|
    requires Passes(entries)[p - 1].at < t <= Passes(entries)[p].at
    ensures t < |entries| && entries[t].id == Passes(entries)[p].id
  {
    PassAt(entries, p);
    PassAt(entries, p - 1);
    var l := LastUnder(entries, t);
    var q := Listed(entries, l);
    PassesAre(entries);
    assert q < p || t == Passes(entries)[p].at || l == Passes(entries)[p].at || Spans(entries, t, Passes(entries)[p].at, l);
  }

  lemma SparesAround(entries: seq<Entry>, x: string, start: nat, selected: nat, id: string, g: nat, i: nat, j: nat)
    requires SparesIdle(entries, x, start, selected) && start <= i <= j <= selected && start <= g && GatedUnder(entries, id, g)
    requires forall t :: g < t < |entries| ==> !GatedUnder(entries, id, t)
    requires forall t :: i < t <= j ==> entries[t].id == id && t != g
    ensures forall t :: i < t <= j ==> IdleOn(entries, x, t)
  {
    forall t | i < t <= j ensures IdleOn(entries, x, t) {
      assert entries[t].id == id && !(t > g && entries[t].outcome.Gated?) by {
        if t > g { assert !GatedUnder(entries, id, t); }
      }
      assert GatedUnder(entries, entries[t].id, g);
      assert Spare(entries, start, t);
    }
  }

  lemma SameMoveBetween(before: seq<string>, after: seq<string>, from: seq<string>, to: seq<string>)
    requires SameMembers(before, from) && SameMembers(after, to)
    ensures SameMove(before, after, from, to)
  {
    SameMembersSameCount(before, from);
    SameMembersSameCount(after, to);
  }

  /** With such spares, a pass whose row is kept moved the scene between the ends of the passes. */
  lemma KeeperMoves(entries: seq<Entry>, x: string, start: nat, selected: nat, from: nat, at: nat, g: nat)
    requires Chronicle(entries) && Followed(entries, x, start, selected) && SparesIdle(entries, x, start, selected)
    requires start <= from < g <= at <= selected && GatedUnder(entries, entries[at].id, g)
    requires forall t :: from < t <= at ==> entries[t].id == entries[at].id
    requires forall t :: g < t < |entries| ==> !GatedUnder(entries, entries[at].id, t)
    ensures SameMove(Found(entries, g, x), Left(entries, g, x), Left(entries, from, x), Left(entries, at, x))
  {
    var id := entries[at].id;
    SparesAround(entries, x, start, selected, id, g, from, g - 1);
    SparesAround(entries, x, start, selected, id, g, g, at);
    IdleAcross(entries, x, start, selected, from, g - 1);
    IdleAcross(entries, x, start, selected, g, at);
    assert entries[g].before.scenes == entries[g - 1].after.scenes;
    SameMoveBetween(Found(entries, g, x), Left(entries, g, x), Left(entries, from, x), Left(entries, at, x));
  }

  lemma KeeperWithin(entries: seq<Entry>, x: string, start: nat, selected: nat, from: nat, at: nat, g: int)
    requires Chronicle(entries) && Followed(entries, x, start, selected) && Consecutive(entries)
    requires start <= from < at <= selected && Last(entries, from) && Last(entries, at) && ReachedUnder(entries, start, at)
    requires g == Keeper(entries, entries[at].id, x)
    ensures from < g <= at && GatedUnder(entries, entries[at].id, g)
    ensures forall t :: g < t < |entries| ==> !GatedUnder(entries, entries[at].id, t)
  {
    KeeperIs(entries, x, start, selected, at);
    var h :| start <= h && GatedUnder(entries, entries[at].id, h);
    assert g >= h;
    AfterGroup(entries, g, from, at);
  }

  lemma AfterGroup(entries: seq<Entry>, g: nat, from: nat, at: nat)
    requires Consecutive(entries) && from < at < |entries| && g <= at && entries[g].id == entries[at].id && Last(entries, from)
    ensures from < g
  {
    assert entries[from].id != entries[at].id && !Spans(entries, g, from, at);
  }

  lemma GroupAll(entries: seq<Entry>, p: nat, from: nat, at: nat)
    requires Consecutive(entries) && 0 < p < |Passes(entries)| && Passes(entries)[p - 1].at == from && Passes(entries)[p].at == at
    ensures from < at < |entries| && Last(entries, from) && Last(entries, at) && entries[at].id == Passes(entries)[p].id
    ensures forall t :: from < t <= at ==> entries[t].id == entries[at].id
  {
    PassAt(entries, p);
    PassAt(entries, p - 1);
    forall t | from < t <= at ensures entries[t].id == entries[at].id { GroupOf(entries, p, t); }
  }

  lemma KeeperInGroup(entries: seq<Entry>, x: string, start: nat, selected: nat, from: nat, at: nat, g: int)
    requires Chronicle(entries) && Followed(entries, x, start, selected) && Consecutive(entries) && SparesIdle(entries, x, start, selected)
    requires start <= from < at <= selected && Last(entries, from) && Last(entries, at) && ReachedUnder(entries, start, at)
    requires (forall t :: from < t <= at ==> entries[t].id == entries[at].id) && g == Keeper(entries, entries[at].id, x)
    ensures 0 <= g < |entries| && SameMove(Found(entries, g, x), Left(entries, g, x), Left(entries, from, x), Left(entries, at, x))
  {
    KeeperWithin(entries, x, start, selected, from, at, g);
    KeeperMoves(entries, x, start, selected, from, at, g);
  }

  lemma MoveAt(entries: seq<Entry>, x: string, p: nat, from: nat, at: nat, g: nat)
    requires 0 < p < |Passes(entries)| && Passes(entries)[p - 1].at == from < |entries| && Passes(entries)[p].at == at < |entries|
    requires g < |entries| && g == Keeper(entries, Passes(entries)[p].id, x)
    requires SameMove(Found(entries, g, x), Left(entries, g, x), Left(entries, from, x), Left(entries, at, x))
    ensures KeptMove(entries, x, p)
  {
  }

  lemma GroupKept(entries: seq<Entry>, x: string, start: nat, selected: nat, p: nat)
    requires Chronicle(entries) && Followed(entries, x, start, selected) && Consecutive(entries)
    requires SparesIdle(entries, x, start, selected) && EachReached(entries, start, selected)
    requires 0 < p < |Passes(entries)| && Passes(entries)[p].at <= selected && Passes(entries)[p - 1].at >= start
    ensures KeptMove(entries, x, p)
  {
    var from, at := Passes(entries)[p - 1].at, Passes(entries)[p].at;
    GroupAll(entries, p, from, at);
    assert ReachedUnder(entries, start, at);
    var g := Keeper(entries, entries[at].id, x);
    KeeperInGroup(entries, x, start, selected, from, at, g);
    MoveAt(entries, x, p, from, at, g);
  }

  lemma CreationStands(entries: seq<Entry>, x: string, start: nat, selected: nat, b: nat)
    requires Chronicle(entries) && Followed(entries, x, start, selected) && Consecutive(entries)
    requires SparesIdle(entries, x, start, selected) && CreationKept(entries, start, selected)
    requires b < |Passes(entries)| && Passes(entries)[b].id == entries[start].id && start <= Passes(entries)[b].at <= selected
    ensures SameMembers(Left(entries, start, x), Lefts(entries, x)[b])
  {
    PassAt(entries, b);
    var at := Passes(entries)[b].at;
    forall t | start < t <= at ensures entries[t].id == entries[start].id {
      assert t == at || Spans(entries, start, t, at);
    }
    forall t | start < t < |entries| ensures !GatedUnder(entries, entries[start].id, t) {}
    assert GatedUnder(entries, entries[start].id, start);
    SparesAround(entries, x, start, selected, entries[start].id, start, start, at);
    IdleAcross(entries, x, start, selected, start, at);
  }

  /** A last attempt under an id without rows is listed after the creation. */
  lemma GapListed(entries: seq<Entry>, start: nat, selected: nat, b: nat, k: nat, i: nat) returns (q: nat)
    requires Consecutive(entries) && start < |entries| && entries[start].outcome.Gated? && b <= k < |Passes(entries)|
    requires Passes(entries)[k].at == selected && Passes(entries)[b].id == entries[start].id && Passes(entries)[b].at >= start
    requires start <= i <= selected && Last(entries, i) && !ReachedUnder(entries, start, i)
    ensures b <= q <= k && Passes(entries)[q] == Started(entries[i].id, i)
  {
    q := Listed(entries, i);
    PassAt(entries, q);
    PassAt(entries, b);
    PassAt(entries, k);
    GapAfter(entries, start, i, Passes(entries)[b].at);
  }

  /** An attempt whose id never reached a gate lies behind those under the creating id. */
  lemma GapAfter(entries: seq<Entry>, start: nat, i: nat, last: nat)
    requires Consecutive(entries) && start <= i < |entries| && entries[start].outcome.Gated? && !ReachedUnder(entries, start, i)
    requires start <= last < |entries| && entries[last].id == entries[start].id
    ensures entries[i].id != entries[start].id && last < i
  {
    assert GatedUnder(entries, entries[start].id, start);
    assert !Spans(entries, start, i, last);
  }

  lemma NoRowUnder(entries: seq<Entry>, x: string, start: nat, selected: nat, i: nat)
    requires Chronicle(entries) && Followed(entries, x, start, selected) && start <= i <= selected
    requires Last(entries, i) && !ReachedUnder(entries, start, i)
    ensures Keeper(entries, entries[i].id, x) == -1
  {
    KeeperIs(entries, x, start, selected, i);
  }

  /** An id under which no attempt reached its gate leaves a gap. */
  lemma GapShows(entries: seq<Entry>, x: string, start: nat, selected: nat, b: nat, k: nat, i: nat)
    requires Chronicle(entries) && Followed(entries, x, start, selected) && Consecutive(entries)
    requires entries[start].outcome.Gated? && b <= k < |Logs(entries)| == |Passes(entries)|
    requires Passes(entries)[k].at == selected && Passes(entries)[b].id == entries[start].id && Passes(entries)[b].at >= start
    requires start <= i <= selected && Last(entries, i) && !ReachedUnder(entries, start, i)
    ensures Replay(Logs(entries), x, b, k + 1).quality == Partial
  {
    var q := GapListed(entries, start, selected, b, k, i);
    NoRowUnder(entries, x, start, selected, i);
    LoadedRow(entries, x, q);
    MissingRowIsPartial(Logs(entries), x, b, k + 1, q);
  }

  lemma AllReachedRight(entries: seq<Entry>, x: string, start: nat, selected: nat, b: nat, k: nat)
    requires Chronicle(entries) && Followed(entries, x, start, selected) && Consecutive(entries)
    requires SparesIdle(entries, x, start, selected) && CreationKept(entries, start, selected) && EachReached(entries, start, selected)
    requires b <= k < |Passes(entries)| && Passes(entries)[k].at == selected
    requires Passes(entries)[b].id == entries[start].id && start <= Passes(entries)[b].at <= selected
    ensures AllShownRight(entries, x, b, k)
  {
    CreationStands(entries, x, start, selected, b);
    forall p | b < p <= k ensures KeptMove(entries, x, p) {
      WithinPasses(entries, b, k);
      GroupKept(entries, x, start, selected, p);
    }
    AnswersRightExactly(entries, x, start, selected, b, k);
  }

  /** The answer before the selected pass is the one shown for the pass listed before it. */
  lemma ShownBefore(entries: seq<Entry>, x: string, b: nat, k: nat, m: Membership)
    requires b <= k < |Logs(entries)| == |Passes(entries)| && BaselinePass(Logs(entries), x, 0, k + 1) == b
    requires m == Reconstructed(Logs(entries), k, x) && m.quality == Complete && AllShownRight(entries, x, b, k)
    ensures if k == b then m.before == [] else SameMembers(m.before, Lefts(entries, x)[k - 1])
  {
    assert Replay(Logs(entries), x, b, b) == Membership(Complete, [], []);
    if k > b {
      assert ShownRight(entries, x, k - 1);
      BaselineCut(Logs(entries), x, 0, k, k + 1);
    }
  }

  /** When attempts under one id follow each other and only one of them moves the scene: the
      answer is complete if and only if under each id since the creation some attempt reached its
      gate, and the creation row was kept. It is then exactly what the pass left. */
  lemma RetriesReplay(entries: seq<Entry>, x: string, start: nat, selected: nat, k: nat, m: Membership)
    requires Chronicle(entries) && Followed(entries, x, start, selected)
    requires Consecutive(entries) && SparesIdle(entries, x, start, selected)
    requires k < |Passes(entries)| == |Logs(entries)| && Passes(entries)[k].at == selected
    requires m == Reconstructed(Logs(entries), k, x)
    ensures m.quality == Complete <==> CreationKept(entries, start, selected) && EachReached(entries, start, selected)
    ensures m.quality == Complete ==> SameMembers(m.after, Left(entries, selected, x))
    ensures m.quality == Complete ==>
              if entries[selected].id == entries[start].id then m.before == [] else k > 0 && SameMembers(m.before, Lefts(entries, x)[k - 1])
  {
    AnsweredExactly(entries, x, start, selected, k);
    if CreationKept(entries, start, selected) {
      var b := CreationPass(entries, x, start, selected, k);
      if EachReached(entries, start, selected) {
        AllReachedRight(entries, x, start, selected, b, k);
        assert ShownRight(entries, x, k);
        ShownBefore(entries, x, b, k, m);
        PassAt(entries, k);
      } else {
        var i :| start <= i <= selected && Last(entries, i) && !ReachedUnder(entries, start, i);
        GapShows(entries, x, start, selected, b, k, i);
      }
    }
  }

  // ----- Topics

  /** The attempt is one at a pass, what it left and what it wrote. */
  ghost predicate Performed(env: Env, opts: Options, oracle: Oracle, e: Entry) {
    && Fit(env, e.before)
    && match e.outcome
       case L1Failed => e.after == e.before && e.log == PassLog([])
       case Stopped =>
         && !Runs.ReachesGate(env, oracle, opts, e.before)
         && e.after == Pass(env, oracle, opts, e.before).db && e.log == PassLog([])
       case Gated =>
         && Runs.ReachesGate(env, oracle, opts, e.before)
         && e.after == Pass(env, oracle, opts, e.before).db && e.log == PassRows(env, oracle, opts, e.before)
  }

  /** Attempts one after another, failing anywhere or not, under any ids, with no scene written
      in between; memory may change freely. */
  ghost predicate History(env: Env, opts: Options, services: seq<Oracle>, entries: seq<Entry>) {
    && |services| == |entries|
    && (forall k :: 0 <= k < |entries| ==> Performed(env, opts, services[k], entries[k]))
    && (forall k :: 0 < k < |entries| ==> entries[k].before.scenes == entries[k - 1].after.scenes)
  }

  lemma PerformedIsTrue(env: Env, opts: Options, oracle: Oracle, e: Entry)
    requires CollisionFree(env) && Performed(env, opts, oracle, e)
    ensures TrueEntry(e) && KindsKept(env, e.before, e.after) && ListsKept(e.before, e.after)
  {
    if e.outcome.L1Failed? {
      GrownFromSelf(env, e.before, e.after);
    } else {
      PassKeepsFit(env, oracle, opts, e.before, e.after);
      if e.outcome.Gated? { PassFaithful(env, oracle, opts, e.before, e.after); }
    }
  }

  lemma HistoryIsChronicle(env: Env, opts: Options, services: seq<Oracle>, entries: seq<Entry>)
    requires CollisionFree(env) && History(env, opts, services, entries)
    ensures Chronicle(entries)
    ensures forall k :: 0 <= k < |entries| ==> KindsKept(env, entries[k].before, entries[k].after) && ListsKept(entries[k].before, entries[k].after)
  {
    forall k | 0 <= k < |entries|
      ensures TrueEntry(entries[k]) && KindsKept(env, entries[k].before, entries[k].after) && ListsKept(entries[k].before, entries[k].after)
    {
      assert Performed(env, opts, services[k], entries[k]);
      PerformedIsTrue(env, opts, services[k], entries[k]);
    }
  }

  /** A topic created by attempt `start` and found live by each later attempt up to `selected`. */
  ghost predicate LivesThrough(entries: seq<Entry>, x: string, start: nat, selected: nat) {
    && start <= selected < |entries|
    && x !in entries[start].before.scenes && LiveTopic(entries[start].after, x)
    && forall k :: start < k <= selected ==> LiveTopic(entries[k].before, x)
  }

  lemma {:induction false} TopicListDistinct(env: Env, entries: seq<Entry>, x: string, start: nat, selected: nat, k: nat)
    requires LivesThrough(entries, x, start, selected) && start <= k <= selected && Chronicle(entries)
    requires forall i :: 0 <= i < |entries| ==> KindsKept(env, entries[i].before, entries[i].after) && ListsKept(entries[i].before, entries[i].after)
    ensures IsTopic(entries[k].after, x) && Distinct(entries[k].after.scenes[x].atomIds)
    decreases k
  {
    assert KindsKept(env, entries[k].before, entries[k].after) && ListsKept(entries[k].before, entries[k].after);
    if k > start {
      TopicListDistinct(env, entries, x, start, selected, k - 1);
      assert entries[k].before.scenes == entries[k - 1].after.scenes;
    }
    assert ListFor(entries[k].before, x, entries[k].after.scenes[x].atomIds);
  }

  lemma TopicNoted(env: Env, opts: Options, oracle: Oracle, e: Entry, x: string)
    requires CollisionFree(env) && Performed(env, opts, oracle, e) && TrueEntry(e) && e.outcome.Gated?
    requires LiveTopic(e.before, x) || (x !in e.before.scenes && x in e.after.scenes)
    ensures Noted(e.log.scenes, x)
  {
    if LiveTopic(e.before, x) { LiveTopicIsNoted(env, oracle, opts, e.before, x); }
  }

  lemma TopicFollowedAt(env: Env, opts: Options, oracle: Oracle, e: Entry, x: string)
    requires CollisionFree(env) && Performed(env, opts, oracle, e) && TrueEntry(e)
    requires LiveTopic(e.before, x) || (x !in e.before.scenes && x in e.after.scenes)
    requires IsTopic(e.after, x) && Distinct(e.after.scenes[x].atomIds)
    ensures Distinct(Members(e.after, x)) && (e.outcome.Gated? ==> Noted(e.log.scenes, x))
  {
    if e.outcome.Gated? { TopicNoted(env, opts, oracle, e, x); }
  }

  ghost predicate FollowedAt(entries: seq<Entry>, x: string, k: int) {
    0 <= k < |entries| && Distinct(Left(entries, k, x)) && (entries[k].outcome.Gated? ==> Noted(entries[k].log.scenes, x))
  }

  lemma FoundLive(entries: seq<Entry>, x: string, start: nat, selected: nat, k: nat)
    requires LivesThrough(entries, x, start, selected) && start <= k <= selected
    ensures LiveTopic(entries[k].before, x) || (x !in entries[k].before.scenes && x in entries[k].after.scenes)
  {
  }

  lemma AllFollowed(entries: seq<Entry>, x: string, start: nat, selected: nat)
    requires LivesThrough(entries, x, start, selected) && forall k :: start <= k <= selected ==> FollowedAt(entries, x, k)
    ensures Followed(entries, x, start, selected)
  {
    forall k | start <= k <= selected
      ensures Distinct(Left(entries, k, x)) && (entries[k].outcome.Gated? ==> Noted(entries[k].log.scenes, x))
    {
      assert FollowedAt(entries, x, k);
    }
  }

  lemma PerformedAt(env: Env, opts: Options, services: seq<Oracle>, entries: seq<Entry>, k: nat)
    requires CollisionFree(env) && History(env, opts, services, entries) && k < |entries|
    ensures k < |services| && Performed(env, opts, services[k], entries[k]) && TrueEntry(entries[k])
  {
    assert Performed(env, opts, services[k], entries[k]);
    PerformedIsTrue(env, opts, services[k], entries[k]);
  }

  lemma TopicIsFollowed(env: Env, opts: Options, services: seq<Oracle>, entries: seq<Entry>, x: string, start: nat,
                        selected: nat)
    requires CollisionFree(env) && History(env, opts, services, entries) && LivesThrough(entries, x, start, selected)
    ensures Chronicle(entries) && Followed(entries, x, start, selected)
  {
    HistoryIsChronicle(env, opts, services, entries);
    forall k | start <= k <= selected ensures FollowedAt(entries, x, k) {
      TopicListDistinct(env, entries, x, start, selected, k);
      PerformedAt(env, opts, services, entries, k);
      FoundLive(entries, x, start, selected, k);
      TopicFollowedAt(env, opts, services[k], entries[k], x);
    }
    AllFollowed(entries, x, start, selected);
  }

  /** The reader on a topic, from the rows that any history of attempts left in the tables. It has
      no answer exactly when the creation row was not kept. Where attempts under one id follow
      each other and only one of them moves the topic, it calls the membership complete if and
      only if under each id since the creation some attempt reached its gate, and then shows it
      exactly, after the selected pass and before it. */
  lemma TopicHistoryReplays(env: Env, opts: Options, services: seq<Oracle>, entries: seq<Entry>, x: string,
                            start: nat, selected: nat, k: nat, m: Membership)
    requires CollisionFree(env) && History(env, opts, services, entries) && LivesThrough(entries, x, start, selected)
    requires k < |Passes(entries)| == |Logs(entries)| && Passes(entries)[k].at == selected
    requires m == Reconstructed(Logs(entries), k, x)
    ensures m.quality == Unavailable <==> !CreationKept(entries, start, selected)
    ensures Consecutive(entries) && SparesIdle(entries, x, start, selected) ==>
              && (m.quality == Complete <==> CreationKept(entries, start, selected) && EachReached(entries, start, selected))
              && (m.quality == Complete ==> SameMembers(m.after, Left(entries, selected, x)))
              && (m.quality == Complete ==>
                   if entries[selected].id == entries[start].id then m.before == [] else k > 0 && SameMembers(m.before, Lefts(entries, x)[k - 1]))
  {
    TopicIsFollowed(env, opts, services, entries, x, start, selected);
    AnsweredExactly(entries, x, start, selected, k);
    if Consecutive(entries) && SparesIdle(entries, x, start, selected) {
      RetriesReplay(entries, x, start, selected, k, m);
    }
  }

  /** With no condition on the attempts: all the answers from the creation's pass on are complete
      and right if and only if each kept row is the topic's move between the ends of its pass and
      the one before. */
  lemma TopicHistoryExactly(env: Env, opts: Options, services: seq<Oracle>, entries: seq<Entry>, x: string,
                            start: nat, selected: nat, b: nat, k: nat)
    requires CollisionFree(env) && History(env, opts, services, entries) && LivesThrough(entries, x, start, selected)
    requires b <= k < |Passes(entries)| && Passes(entries)[k].at == selected && Passes(entries)[b].id == entries[start].id
    ensures AllShownRight(entries, x, b, k)
            <==> CreationKept(entries, start, selected)
                 && SameMembers(Left(entries, start, x), Lefts(entries, x)[b]) && AllKeptMoves(entries, x, b, k)
  {
    TopicIsFollowed(env, opts, services, entries, x, start, selected);
    if CreationKept(entries, start, selected) {
      AnswersRightExactly(entries, x, start, selected, b, k);
    } else {
      PassAt(entries, k);
      AnsweredExactly(entries, x, start, selected, k);
      assert !ShownRight(entries, x, k);
    }
  }

  // ----- The ordinary retry

  /** Only attempts that failed in L1 were followed by another under their id. */
  ghost predicate OnlyL1Retried(entries: seq<Entry>) {
    forall i :: 0 <= i < |entries| && !entries[i].outcome.L1Failed? ==> Last(entries, i)
  }

  lemma RetriedSparesIdle(entries: seq<Entry>, x: string, start: nat, selected: nat)
    requires OnlyL1Retried(entries) && selected < |entries|
    ensures SparesIdle(entries, x, start, selected)
  {
    forall t | start < t <= selected && Spare(entries, start, t) ensures IdleOn(entries, x, t) {
      var g :| start <= g && GatedUnder(entries, entries[t].id, g) && (g > t || !entries[t].outcome.Gated?);
      assert Last(entries, g);
    }
  }

  lemma RetriedReached(entries: seq<Entry>, start: nat, selected: nat)
    requires OnlyL1Retried(entries) && start <= selected < |entries| && !entries[start].outcome.L1Failed?
    ensures CreationKept(entries, start, selected) && EachReached(entries, start, selected)
            <==> forall i :: start <= i <= selected && Last(entries, i) ==> entries[i].outcome.Gated?
  {
    assert Last(entries, start);
    forall i | start <= i <= selected && Last(entries, i) ensures ReachedUnder(entries, start, i) <==> entries[i].outcome.Gated? {
      if entries[i].outcome.Gated? { assert GatedUnder(entries, entries[i].id, i); }
      if g :| start <= g && GatedUnder(entries, entries[i].id, g) { assert Last(entries, g); }
    }
  }

  /** Then retries leave no gap: the answer is complete, and right, if and only if every listed
      pass since the creation reached its gate at its last attempt. */
  lemma L1RetriesReplay(env: Env, opts: Options, services: seq<Oracle>, entries: seq<Entry>, x: string,
                        start: nat, selected: nat, k: nat, m: Membership)
    requires CollisionFree(env) && History(env, opts, services, entries) && LivesThrough(entries, x, start, selected)
    requires Consecutive(entries) && OnlyL1Retried(entries)
    requires k < |Passes(entries)| == |Logs(entries)| && Passes(entries)[k].at == selected
    requires m == Reconstructed(Logs(entries), k, x)
    ensures m.quality == Complete <==> forall i :: start <= i <= selected && Last(entries, i) ==> entries[i].outcome.Gated?
    ensures m.quality == Complete ==> SameMembers(m.after, Left(entries, selected, x))
  {
    RetriedSparesIdle(entries, x, start, selected);
    TopicHistoryReplays(env, opts, services, entries, x, start, selected, k, m);
    assert Performed(env, opts, services[start], entries[start]);
    RetriedReached(entries, start, selected);
  }
}
