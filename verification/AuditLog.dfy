/**
 The two audit tables a pass writes: one row for each pass id, refreshed by every attempt
 under that id, and one effect row for each pass id and scene. An attempt that writes no
 effect rows leaves those of an earlier attempt under its id in place.
 */
module AuditLog {
  import opened Tables
  import opened DeltaLog

  /** `at` stands for the time the latest attempt started. */
  datatype Started = Started(id: string, at: nat)

  datatype Audit = Audit(passes: seq<Started>, effects: map<string, seq<SceneEffect>>)

  // ----- Writing

  function WithoutPass(passes: seq<Started>, id: string): (r: seq<Started>)
    ensures forall p :: p in r <==> p in passes && p.id != id
  {
    if passes == [] then []
    else
      var n := |passes| - 1;
      assert passes == passes[..n] + [passes[n]];
      WithoutPass(passes[..n], id) + if passes[n].id == id then [] else [passes[n]]
  }

  function WithoutScene(rows: seq<SceneEffect>, sceneId: string): (r: seq<SceneEffect>)
    ensures forall e :: e in r <==> e in rows && e.sceneId != sceneId
  {
    if rows == [] then []
    else
      var n := |rows| - 1;
      assert rows == rows[..n] + [rows[n]];
      WithoutScene(rows[..n], sceneId) + if rows[n].sceneId == sceneId then [] else [rows[n]]
  }

  function RowsUnder(a: Audit, id: string): seq<SceneEffect> {
    if id in a.effects then a.effects[id] else []
  }

  /** `INSERT OR REPLACE`, row by row. */
  function WithRows(rows: seq<SceneEffect>, written: seq<SceneEffect>): seq<SceneEffect> {
    if written == [] then rows
    else
      var n := |written| - 1;
      WithoutScene(WithRows(rows, written[..n]), written[n].sceneId) + [written[n]]
  }

  /** An attempt that started at `at` and wrote these rows. */
  function Record(a: Audit, id: string, at: nat, written: seq<SceneEffect>): Audit {
    Audit(WithoutPass(a.passes, id) + [Started(id, at)],
          if written == [] then a.effects else a.effects[id := WithRows(RowsUnder(a, id), written)])
  }

  datatype Attempt = Attempt(id: string, rows: seq<SceneEffect>)

  /** The tables after these attempts, one after another. */
  function Recorded(attempts: seq<Attempt>): Audit {
    if attempts == [] then Audit([], map[])
    else
      var n := |attempts| - 1;
      Record(Recorded(attempts[..n]), attempts[n].id, n, attempts[n].rows)
  }

  /** What the reader loads: the passes by start, each with the rows under its id. */
  function Loaded(a: Audit): (logs: seq<PassLog>)
    ensures |logs| == |a.passes|
    ensures forall k :: 0 <= k < |logs| ==> logs[k] == PassLog(RowsUnder(a, a.passes[k].id))
  {
    seq(|a.passes|, k requires 0 <= k < |a.passes| => PassLog(RowsUnder(a, a.passes[k].id)))
  }

  /** The tables as the audit module writes them. */
  class AuditTables {
    var passes: seq<Started>
    var effects: map<string, seq<SceneEffect>>

    function View(): Audit
      reads this
    {
      Audit(passes, effects)
    }

    constructor ()
      ensures View() == Recorded([])
    {
      passes, effects := [], map[];
    }

    /** One row for this id, the latest of all; every other pass keeps its row and place. */
    method RecordPassStart(id: string, at: nat)
      modifies this
      ensures passes == WithoutPass(old(passes), id) + [Started(id, at)] && effects == old(effects)
    {
      passes := WithoutPass(passes, id) + [Started(id, at)];
    }

    /** The scene has this one row under the pass; every other row stays. */
    method RecordSceneEffect(id: string, e: SceneEffect)
      modifies this
      ensures passes == old(passes)
      ensures effects == old(effects)[id := WithoutScene(RowsUnder(old(View()), id), e.sceneId) + [e]]
    {
      effects := effects[id := WithoutScene(RowsUnder(View(), id), e.sceneId) + [e]];
    }

    /** A whole attempt: its start, and the effect rows it gets as far as writing. */
    method RecordAttempt(ghost attempts: seq<Attempt>, id: string, at: nat, written: seq<SceneEffect>)
      requires View() == Recorded(attempts) && at == |attempts|
      modifies this
      ensures View() == Recorded(attempts + [Attempt(id, written)])
    {
      ghost var a := View();
      RecordPassStart(id, at);
      for i := 0 to |written|
        invariant View() == Record(a, id, at, written[..i])
      {
        OneMoreRow(a, id, at, written, i);
        RecordSceneEffect(id, written[i]);
      }
      assert written[..|written|] == written;
      RecordedNext(attempts, id, written);
    }
  }

  lemma UnderRecord(a: Audit, id: string, at: nat, written: seq<SceneEffect>, x: string)
    ensures RowsUnder(Record(a, id, at, written), x) == if x == id then WithRows(RowsUnder(a, id), written) else RowsUnder(a, x)
  {
  }

  lemma OneMoreRow(a: Audit, id: string, at: nat, written: seq<SceneEffect>, i: nat)
    requires i < |written|
    ensures var before := Record(a, id, at, written[..i]);
            Record(a, id, at, written[..i + 1])
            == before.(effects := before.effects[id := WithoutScene(RowsUnder(before, id), written[i].sceneId) + [written[i]]])
  {
    assert written[..i + 1][..i] == written[..i];
    RecordGrows(a, id, at, written[..i], written[i], written[..i + 1]);
  }

  lemma RecordGrows(a: Audit, id: string, at: nat, front: seq<SceneEffect>, e: SceneEffect, longer: seq<SceneEffect>)
    requires longer != [] && longer[..|longer| - 1] == front && longer[|longer| - 1] == e
    ensures var before := Record(a, id, at, front);
            Record(a, id, at, longer) == before.(effects := before.effects[id := WithoutScene(RowsUnder(before, id), e.sceneId) + [e]])
  {
    UnderRecord(a, id, at, front, id);
    var rows := WithRows(RowsUnder(a, id), front);
    EffectsTwice(a.effects, id, rows, WithoutScene(rows, e.sceneId) + [e]);
  }

  lemma EffectsTwice(effects: map<string, seq<SceneEffect>>, id: string, x: seq<SceneEffect>, y: seq<SceneEffect>)
    ensures effects[id := x][id := y] == effects[id := y]
  {
  }

  lemma RecordedNext(attempts: seq<Attempt>, id: string, written: seq<SceneEffect>)
    ensures Recorded(attempts + [Attempt(id, written)]) == Record(Recorded(attempts), id, |attempts|, written)
  {
    assert (attempts + [Attempt(id, written)])[..|attempts|] == attempts;
  }

  // ----- Which passes are retained

  /** No later attempt has the id of attempt `k`. */
  ghost predicate Latest(attempts: seq<Attempt>, k: int) {
    0 <= k < |attempts| && forall j :: k < j < |attempts| ==> attempts[j].id != attempts[k].id
  }

  ghost predicate Ascending(passes: seq<Started>) {
    forall i, j :: 0 <= i < j < |passes| ==> passes[i].at < passes[j].at
  }

  lemma {:induction false} WithoutPassAscends(passes: seq<Started>, id: string)
    requires Ascending(passes)
    ensures Ascending(WithoutPass(passes, id))
  {
    if passes != [] {
      var n := |passes| - 1;
      WithoutPassAscends(passes[..n], id);
      var front := WithoutPass(passes[..n], id);
      forall i | 0 <= i < |front| ensures front[i].at < passes[n].at {
        assert front[i] in passes[..n];
      }
    }
  }

  ghost predicate Retained(attempts: seq<Attempt>, p: Started) {
    Latest(attempts, p.at) && attempts[p.at].id == p.id
  }

  /** The pass table lists the latest attempt under each id, in the order they started. */
  lemma {:induction false} PassesAreLatest(attempts: seq<Attempt>)
    ensures Ascending(Recorded(attempts).passes)
    ensures forall p :: p in Recorded(attempts).passes <==> Retained(attempts, p)
  {
    if attempts != [] {
      var n := |attempts| - 1;
      var front, id := attempts[..n], attempts[n].id;
      var kept := WithoutPass(Recorded(front).passes, id);
      PassesAreLatest(front);
      WithoutPassAscends(Recorded(front).passes, id);
      forall p ensures Retained(attempts, p) <==> p == Started(id, n) || (Retained(front, p) && p.id != id) {
        LatestGrows(attempts, p.at);
      }
      forall i | 0 <= i < |kept| ensures kept[i].at < n {
        assert kept[i] in kept;
      }
    }
  }

  lemma LatestGrows(attempts: seq<Attempt>, k: int)
    requires attempts != []
    ensures var n := |attempts| - 1;
            Latest(attempts, k) <==> k == n || (Latest(attempts[..n], k) && attempts[k].id != attempts[n].id)
  {
    var n := |attempts| - 1;
    if 0 <= k < n && Latest(attempts, k) {
      assert attempts[n].id != attempts[k].id;
    }
  }

  // ----- Which row is retained

  /** The latest attempt under `id` with a row for the scene, -1 if there is none. */
  function Source(attempts: seq<Attempt>, id: string, sceneId: string): (g: int)
    ensures -1 <= g < |attempts|
    ensures g >= 0 ==> attempts[g].id == id && RowAmong(attempts[g].rows, sceneId).Some?
    ensures forall k :: g < k < |attempts| && attempts[k].id == id ==> RowAmong(attempts[k].rows, sceneId) == None
  {
    if attempts == [] then -1
    else
      var n := |attempts| - 1;
      if attempts[n].id == id && RowAmong(attempts[n].rows, sceneId).Some? then n else Source(attempts[..n], id, sceneId)
  }

  ghost predicate OneRowEach(rows: seq<SceneEffect>) {
    forall i, j :: 0 <= i < j < |rows| ==> rows[i].sceneId != rows[j].sceneId
  }

  lemma RowAppended(others: seq<SceneEffect>, e: SceneEffect, sceneId: string)
    requires OneRowEach(others) && forall f <- others :: f.sceneId != e.sceneId
    ensures OneRowEach(others + [e])
    ensures RowAmong(others + [e], sceneId) == if e.sceneId == sceneId then Some(e) else RowAmong(others, sceneId)
  {
    assert (others + [e])[..|others|] == others;
    forall i | 0 <= i < |others| ensures others[i].sceneId != e.sceneId {
      assert others[i] in others;
    }
  }

  lemma {:induction false} WithoutSceneRows(rows: seq<SceneEffect>, gone: string, sceneId: string)
    requires OneRowEach(rows)
    ensures OneRowEach(WithoutScene(rows, gone))
    ensures sceneId != gone ==> RowAmong(WithoutScene(rows, gone), sceneId) == RowAmong(rows, sceneId)
  {
    if rows != [] {
      var n := |rows| - 1;
      var front := WithoutScene(rows[..n], gone);
      WithoutSceneRows(rows[..n], gone, sceneId);
      if rows[n].sceneId == gone {
        assert front + [] == front;
      } else {
        OthersKeepId(rows, n, front);
        RowAppended(front, rows[n], sceneId);
      }
    }
  }

  lemma OthersKeepId(rows: seq<SceneEffect>, n: nat, front: seq<SceneEffect>)
    requires OneRowEach(rows) && n < |rows| && forall f <- front :: f in rows[..n]
    ensures forall f <- front :: f.sceneId != rows[n].sceneId
  {
    forall f <- front ensures f.sceneId != rows[n].sceneId {
      var i :| 0 <= i < n && rows[..n][i] == f;
    }
  }

  lemma {:induction false} WithRowsRows(rows: seq<SceneEffect>, written: seq<SceneEffect>, sceneId: string)
    requires OneRowEach(rows)
    ensures OneRowEach(WithRows(rows, written))
    ensures RowAmong(WithRows(rows, written), sceneId)
            == if RowAmong(written, sceneId).Some? then RowAmong(written, sceneId) else RowAmong(rows, sceneId)
  {
    if written != [] {
      var n := |written| - 1;
      var before, e := WithRows(rows, written[..n]), written[n];
      WithRowsRows(rows, written[..n], sceneId);
      WithoutSceneRows(before, e.sceneId, sceneId);
      RowAppended(WithoutScene(before, e.sceneId), e, sceneId);
    }
  }

  /** Under each id a scene has at most one row: that of the latest attempt that had one. */
  lemma {:induction false} RetainedRow(attempts: seq<Attempt>, id: string, sceneId: string)
    ensures var rows, g := RowsUnder(Recorded(attempts), id), Source(attempts, id, sceneId);
            OneRowEach(rows) && RowAmong(rows, sceneId) == if g == -1 then None else RowAmong(attempts[g].rows, sceneId)
  {
    if attempts != [] {
      var n := |attempts| - 1;
      RetainedRow(attempts[..n], id, sceneId);
      WithRowsRows(RowsUnder(Recorded(attempts[..n]), id), attempts[n].rows, sceneId);
      UnderRecord(Recorded(attempts[..n]), attempts[n].id, n, attempts[n].rows, id);
    }
  }

  lemma {:induction false} OneRowIsRow(rows: seq<SceneEffect>, e: SceneEffect)
    requires OneRowEach(rows) && e in rows
    ensures RowAmong(rows, e.sceneId) == Some(e)
  {
    var n := |rows| - 1;
    if rows[n] != e {
      assert rows == rows[..n] + [rows[n]];
      var i :| 0 <= i < n && rows[i] == e;
      OneRowIsRow(rows[..n], e);
    }
  }

  /** The reader finds a scene's baseline in a pass exactly when its retained row is one. */
  lemma BaselineIsRow(rows: seq<SceneEffect>, sceneId: string)
    requires OneRowEach(rows)
    ensures HasBaseline(PassLog(rows), sceneId)
            <==> RowAmong(rows, sceneId).Some? && IsBaseline(RowAmong(rows, sceneId).value, sceneId)
  {
    if e :| e in rows && IsBaseline(e, sceneId) { OneRowIsRow(rows, e); }
    if RowAmong(rows, sceneId).Some? { RowIsAmong(rows, sceneId); }
  }
}
