/**
 The scene vector index is a cache of the embedding of each scene's text, keyed by the
 digest in `renderHash`: when it agrees with a rebuild, over any run of writes.
 */
module SceneCache {
  import opened Tables
  import opened Scenes

  datatype Operation = Write(id: string, w: SceneWrite) | Drop(id: string) | Rebuild

  function Apply(env: Env, oracle: Oracle, db: Db, op: Operation): Out {
    match op
    case Write(id, w) => Upsert(env, oracle, db, id, w)
    case Drop(id) => Out(Remove(db, id), true)
    case Rebuild => ReembedAll(env, oracle, db)
  }

  /** The store after a run; an operation that throws leaves its partial effect behind. */
  function Run(env: Env, oracle: Oracle, db: Db, ops: seq<Operation>): Db {
    if ops == [] then db
    else
      var n := |ops| - 1;
      Apply(env, oracle, Run(env, oracle, db, ops[..n]), ops[n]).db
  }

  /** Every embedder call that succeeds returns the one vector `meaning` gives the text. */
  ghost predicate Deterministic(oracle: Oracle, meaning: string -> Vec) {
    forall n: nat, t :: (oracle.embed)(n, t) in {None, Some(meaning(t))}
  }

  ghost predicate Injective<T(!new)>(f: string -> T) {
    forall a, b :: f(a) == f(b) ==> a == b
  }

  // ----- Which texts the digest input tells apart

  /** Equal digest inputs name equal texts exactly when both summaries are blank or neither is. */
  lemma SameInputSameText(t: string, s: Option<string>, t': string, s': Option<string>)
    requires RenderInput(t, s) == RenderInput(t', s')
    ensures EmbedText(t, s) == EmbedText(t', s') <==> (Blank(s) <==> Blank(s'))
  {
    BlankInput(t, s);
    BlankInput(t', s');
    assert |t + "\n"| == |t| + 1 && |t' + "\n"| == |t'| + 1;
    if Blank(s) && Blank(s') {
      assert t == (t + "\n")[..|t|] && t' == (t' + "\n")[..|t'|];
    }
  }

  lemma BlankInput(t: string, s: Option<string>)
    ensures if Blank(s) then RenderInput(t, s) == t + "\n" && EmbedText(t, s) == t
            else RenderInput(t, s) == EmbedText(t, s)
  {
    if Blank(s) {
      assert t + "\n" + "" == t + "\n";
    }
  }

  /** Two ways for callers to keep the digest input unambiguous. */
  datatype Policy = PlainTitles | TrimmedSummaries

  predicate Obeys(policy: Policy, title: string, summary: Option<string>) {
    match policy
    case PlainTitles => '\n' !in title
    case TrimmedSummaries => summary.Some? && summary.value != "" ==> summary.value[|summary.value| - 1] != '\n'
  }

  lemma PolicyDisambiguates(p: Policy, t: string, s: Option<string>, t': string, s': Option<string>)
    requires Obeys(p, t, s) && Obeys(p, t', s')
    requires RenderInput(t, s) == RenderInput(t', s')
    ensures EmbedText(t, s) == EmbedText(t', s')
  {
    SameInputSameText(t, s, t', s');
    if Blank(s) && !Blank(s') {
      OneBlankIsAmbiguous(t, s, t', s');
    } else if Blank(s') && !Blank(s) {
      OneBlankIsAmbiguous(t', s', t, s);
    }
  }

  /** The only ambiguity: a title holding a newline against a summary ending in one. */
  lemma OneBlankIsAmbiguous(t: string, s: Option<string>, t': string, s': Option<string>)
    requires Blank(s) && !Blank(s')
    requires RenderInput(t, s) == RenderInput(t', s')
    ensures '\n' in t && s'.value[|s'.value| - 1] == '\n'
  {
    BlankInput(t, s);
    var whole := t' + "\n" + s'.value;
    assert whole == t + "\n";
    assert whole[|whole| - 1] == s'.value[|s'.value| - 1];
    assert t[|t'|] == whole[|t'|] == '\n';
  }

  // ----- The invariant over runs

  /** The vector and the digest of a scene both come from one text obeying the policy. */
  ghost predicate Backed(env: Env, meaning: string -> Vec, policy: Policy, db: Db, id: string) {
    && id in db.scenes && id in db.sceneVecs
    && exists t, s :: Obeys(policy, t, s)
        && db.scenes[id].renderHash == Some(RenderHash(env, t, s))
        && db.sceneVecs[id] == meaning(EmbedText(t, s))
  }

  ghost predicate CacheBacked(env: Env, meaning: string -> Vec, policy: Policy, db: Db) {
    && (forall id :: id in db.sceneVecs ==> Backed(env, meaning, policy, db, id))
    && (forall id :: id in db.scenes ==> Obeys(policy, db.scenes[id].title, db.scenes[id].summary))
  }

  /** The title and summary a write leaves on the row obey the policy. */
  ghost predicate Respects(policy: Policy, db: Db, op: Operation) {
    op.Write? ==>
      var row := SyncStructure(db, op.id, op.w).scenes[op.id];
      Obeys(policy, row.title, row.summary)
  }

  ghost predicate RunRespects(env: Env, oracle: Oracle, policy: Policy, db: Db, ops: seq<Operation>) {
    forall k :: 0 <= k < |ops| ==> Respects(policy, Run(env, oracle, db, ops[..k]), ops[k])
  }

  lemma StructureKeepsBacking(env: Env, meaning: string -> Vec, policy: Policy, db: Db, id: string, w: SceneWrite)
    requires CacheBacked(env, meaning, policy, db)
    requires Respects(policy, db, Write(id, w))
    ensures CacheBacked(env, meaning, policy, SyncStructure(db, id, w))
  {
    var after := SyncStructure(db, id, w);
    assert after.sceneVecs == db.sceneVecs;
    forall x | x in after.sceneVecs ensures Backed(env, meaning, policy, after, x) {
      assert Backed(env, meaning, policy, db, x);
      BackingMoves(env, meaning, policy, db, after, x);
    }
  }

  lemma BackingMoves(env: Env, meaning: string -> Vec, policy: Policy, db: Db, after: Db, x: string)
    requires Backed(env, meaning, policy, db, x)
    requires x in after.scenes && after.scenes[x].renderHash == db.scenes[x].renderHash
    requires x in after.sceneVecs && after.sceneVecs[x] == db.sceneVecs[x]
    ensures Backed(env, meaning, policy, after, x)
  {
  }

  lemma EmbeddedIsBacked(env: Env, meaning: string -> Vec, policy: Policy, db: Db, id: string, t: string,
                         s: Option<string>)
    requires id in db.scenes && id in db.sceneVecs && Obeys(policy, t, s)
    requires db.scenes[id].renderHash == Some(RenderHash(env, t, s))
    requires db.sceneVecs[id] == meaning(EmbedText(t, s))
    ensures Backed(env, meaning, policy, db, id)
  {
  }

  lemma RenderingKeepsBacking(env: Env, oracle: Oracle, meaning: string -> Vec, policy: Policy, db: Db, id: string)
    requires Deterministic(oracle, meaning)
    requires CacheBacked(env, meaning, policy, db) && id in db.scenes
    ensures CacheBacked(env, meaning, policy, SyncRendering(env, oracle, db, id).db)
  {
    var after := SyncRendering(env, oracle, db, id).db;
    forall x | x in after.sceneVecs ensures Backed(env, meaning, policy, after, x) {
      if x == id && NeedsEmbed(env, db, id) {
        EmbeddedIsBacked(env, meaning, policy, after, id, db.scenes[id].title, db.scenes[id].summary);
      } else {
        assert Backed(env, meaning, policy, db, x);
      }
    }
  }

  lemma {:induction false} RebuildKeepsBacking(env: Env, oracle: Oracle, meaning: string -> Vec, policy: Policy,
                                               db: Db, k: nat)
    requires Deterministic(oracle, meaning)
    requires CacheBacked(env, meaning, policy, db)
    ensures CacheBacked(env, meaning, policy, ReembedScenes(env, oracle, db, k).db)
    decreases |db.sceneRows| - k
  {
    if k < |db.sceneRows| {
      var id := db.sceneRows[k];
      var o := ReembedScene(env, oracle, db, id);
      assert CacheBacked(env, meaning, policy, o.db) by {
        forall x | x in o.db.sceneVecs ensures Backed(env, meaning, policy, o.db, x) {
          if x == id && id in db.scenes && o.ok {
            EmbeddedIsBacked(env, meaning, policy, o.db, id, db.scenes[id].title, db.scenes[id].summary);
          } else {
            assert Backed(env, meaning, policy, db, x);
          }
        }
      }
      if o.ok { RebuildKeepsBacking(env, oracle, meaning, policy, o.db, k + 1); }
    }
  }

  lemma {:induction false} AtomRebuildLeavesScenes(oracle: Oracle, db: Db, k: nat)
    ensures var d := ReembedAtoms(oracle, db, k).db;
            d.scenes == db.scenes && d.sceneVecs == db.sceneVecs && d.sceneRows == db.sceneRows
    decreases |db.mem.atomRows| - k
  {
    if k < |db.mem.atomRows| {
      var o := ReembedAtom(oracle, db, db.mem.atomRows[k]);
      if o.ok { AtomRebuildLeavesScenes(oracle, o.db, k + 1); }
    }
  }

  lemma ApplyKeepsBacking(env: Env, oracle: Oracle, meaning: string -> Vec, policy: Policy, db: Db, op: Operation)
    requires Deterministic(oracle, meaning)
    requires CacheBacked(env, meaning, policy, db) && Respects(policy, db, op)
    ensures CacheBacked(env, meaning, policy, Apply(env, oracle, db, op).db)
  {
    match op
    case Write(id, w) =>
      StructureKeepsBacking(env, meaning, policy, db, id, w);
      RenderingKeepsBacking(env, oracle, meaning, policy, SyncStructure(db, id, w), id);
    case Drop(id) =>
      var after := Remove(db, id);
      forall x | x in after.sceneVecs ensures Backed(env, meaning, policy, after, x) {
        assert Backed(env, meaning, policy, db, x);
      }
    case Rebuild =>
      AtomRebuildLeavesScenes(oracle, Dropped(db), 0);
      var o := ReembedAtoms(oracle, Dropped(db), 0);
      assert CacheBacked(env, meaning, policy, o.db);
      RebuildKeepsBacking(env, oracle, meaning, policy, o.db, 0);
  }

  /** Over any run, whatever calls failed, every stored scene vector is the embedding
      of the text its row's digest names. */
  lemma {:induction false} RunKeepsBacking(env: Env, oracle: Oracle, meaning: string -> Vec, policy: Policy, db: Db,
                                           ops: seq<Operation>)
    requires Deterministic(oracle, meaning)
    requires CacheBacked(env, meaning, policy, db) && RunRespects(env, oracle, policy, db, ops)
    ensures CacheBacked(env, meaning, policy, Run(env, oracle, db, ops))
  {
    if ops != [] {
      var n := |ops| - 1;
      forall k | 0 <= k < n ensures Respects(policy, Run(env, oracle, db, ops[..n][..k]), ops[..n][k]) {
        assert ops[..n][..k] == ops[..k];
      }
      RunKeepsBacking(env, oracle, meaning, policy, db, ops[..n]);
      ApplyKeepsBacking(env, oracle, meaning, policy, Run(env, oracle, db, ops[..n]), ops[n]);
    }
  }

  // ----- Agreement with a rebuild

  ghost predicate Fresh(env: Env, meaning: string -> Vec, db: Db, id: string) {
    && id in db.scenes && id in db.sceneVecs
    && db.scenes[id].renderHash == Some(RenderHash(env, db.scenes[id].title, db.scenes[id].summary))
    && db.sceneVecs[id] == meaning(EmbedText(db.scenes[id].title, db.scenes[id].summary))
  }

  lemma WriteIsFresh(env: Env, oracle: Oracle, meaning: string -> Vec, policy: Policy, db: Db, id: string,
                     w: SceneWrite)
    requires Deterministic(oracle, meaning) && Injective(env.sha)
    requires CacheBacked(env, meaning, policy, db) && Respects(policy, db, Write(id, w))
    requires Upsert(env, oracle, db, id, w).ok
    ensures Fresh(env, meaning, Upsert(env, oracle, db, id, w).db, id)
  {
    var mid := SyncStructure(db, id, w);
    StructureKeepsBacking(env, meaning, policy, db, id, w);
    if !NeedsEmbed(env, mid, id) {
      var row := mid.scenes[id];
      assert Backed(env, meaning, policy, mid, id);
      var t, s :| Obeys(policy, t, s) && row.renderHash == Some(RenderHash(env, t, s))
        && mid.sceneVecs[id] == meaning(EmbedText(t, s));
      PolicyDisambiguates(policy, t, s, row.title, row.summary);
    }
  }

  /** The same scenes with the same titles and summaries. */
  ghost predicate SameTexts(db: Db, d: Db) {
    && d.scenes.Keys == db.scenes.Keys
    && forall id :: id in db.scenes ==>
         d.scenes[id].title == db.scenes[id].title && d.scenes[id].summary == db.scenes[id].summary
  }

  lemma ReembedSceneFreshens(env: Env, oracle: Oracle, meaning: string -> Vec, db: Db, id: string)
    requires Deterministic(oracle, meaning)
    requires ReembedScene(env, oracle, db, id).ok
    ensures var d := ReembedScene(env, oracle, db, id).db;
            && SameTexts(db, d)
            && forall x :: x in db.scenes && (x == id || Fresh(env, meaning, db, x)) ==> Fresh(env, meaning, d, x)
  {
  }

  lemma {:induction false} RebuildIsFresh(env: Env, oracle: Oracle, meaning: string -> Vec, db: Db, k: nat)
    requires Deterministic(oracle, meaning) && k <= |db.sceneRows|
    requires ReembedScenes(env, oracle, db, k).ok
    ensures var d := ReembedScenes(env, oracle, db, k).db;
            && SameTexts(db, d)
            && forall x :: x in db.scenes && (x in db.sceneRows[k..] || Fresh(env, meaning, db, x)) ==> Fresh(env, meaning, d, x)
    decreases |db.sceneRows| - k
  {
    if k < |db.sceneRows| {
      var o := ReembedScene(env, oracle, db, db.sceneRows[k]);
      ReembedSceneFreshens(env, oracle, meaning, db, db.sceneRows[k]);
      assert db.sceneRows[k..] == [db.sceneRows[k]] + db.sceneRows[k + 1..];
      RebuildIsFresh(env, oracle, meaning, o.db, k + 1);
    }
  }

  /** A successful rebuild makes every scene fresh. */
  lemma ReembedAllIsFresh(env: Env, oracle: Oracle, meaning: string -> Vec, db: Db)
    requires Deterministic(oracle, meaning) && RowsListed(db)
    requires ReembedAll(env, oracle, db).ok
    ensures SameTexts(db, ReembedAll(env, oracle, db).db)
    ensures forall x :: x in db.scenes ==> Fresh(env, meaning, ReembedAll(env, oracle, db).db, x)
  {
    var dropped := Dropped(db);
    AtomRebuildLeavesScenes(oracle, dropped, 0);
    var o := ReembedAtoms(oracle, dropped, 0);
    assert o.db.sceneRows[0..] == o.db.sceneRows;
    RebuildIsFresh(env, oracle, meaning, o.db, 0);
  }

  lemma FreshAgree(env: Env, meaning: string -> Vec, d: Db, r: Db, id: string)
    requires id in d.scenes && SameTexts(d, r)
    requires Fresh(env, meaning, d, id) && Fresh(env, meaning, r, id)
    ensures d.sceneVecs[id] == r.sceneVecs[id] && d.scenes[id].renderHash == r.scenes[id].renderHash
  {
  }

  ghost predicate RowsListed(db: Db) {
    forall id :: id in db.scenes ==> id in db.sceneRows
  }

  lemma {:induction false} RebuildKeepsRows(env: Env, oracle: Oracle, db: Db, k: nat)
    requires RowsListed(db)
    ensures RowsListed(ReembedScenes(env, oracle, db, k).db)
    decreases |db.sceneRows| - k
  {
    if k < |db.sceneRows| {
      var o := ReembedScene(env, oracle, db, db.sceneRows[k]);
      if o.ok { RebuildKeepsRows(env, oracle, o.db, k + 1); }
    }
  }

  lemma ApplyKeepsRows(env: Env, oracle: Oracle, db: Db, op: Operation)
    requires RowsListed(db)
    ensures RowsListed(Apply(env, oracle, db, op).db)
  {
    match op
    case Write(id, w) => WriteKeepsRows(env, oracle, db, id, w);
    case Drop(id) =>
    case Rebuild =>
      AtomRebuildLeavesScenes(oracle, Dropped(db), 0);
      RebuildKeepsRows(env, oracle, ReembedAtoms(oracle, Dropped(db), 0).db, 0);
  }

  lemma WriteKeepsRows(env: Env, oracle: Oracle, db: Db, id: string, w: SceneWrite)
    requires RowsListed(db)
    ensures RowsListed(Upsert(env, oracle, db, id, w).db)
  {
    var mid := SyncStructure(db, id, w);
    assert RowsListed(mid);
    var after := SyncRendering(env, oracle, mid, id).db;
    assert after.sceneRows == mid.sceneRows && after.scenes.Keys == mid.scenes.Keys;
  }

  lemma {:induction false} RunKeepsRows(env: Env, oracle: Oracle, db: Db, ops: seq<Operation>)
    requires RowsListed(db)
    ensures RowsListed(Run(env, oracle, db, ops))
  {
    if ops != [] {
      var n := |ops| - 1;
      RunKeepsRows(env, oracle, db, ops[..n]);
      ApplyKeepsRows(env, oracle, Run(env, oracle, db, ops[..n]), ops[n]);
    }
  }

  /** After a successful write the scene's vector and digest are the ones a successful
      rebuild would store for it. */
  lemma WriteAgreesWithRebuild(env: Env, oracle: Oracle, meaning: string -> Vec, policy: Policy,
                               start: Db, ops: seq<Operation>, id: string, w: SceneWrite)
    requires Deterministic(oracle, meaning) && Injective(env.sha)
    requires CacheBacked(env, meaning, policy, start)
    requires RunRespects(env, oracle, policy, start, ops)
    requires Respects(policy, Run(env, oracle, start, ops), Write(id, w))
    requires Upsert(env, oracle, Run(env, oracle, start, ops), id, w).ok
    requires RowsListed(start)
    requires ReembedAll(env, oracle, Upsert(env, oracle, Run(env, oracle, start, ops), id, w).db).ok
    ensures var d := Upsert(env, oracle, Run(env, oracle, start, ops), id, w).db;
            var r := ReembedAll(env, oracle, d).db;
            && id in d.sceneVecs && id in r.sceneVecs && d.sceneVecs[id] == r.sceneVecs[id]
            && id in d.scenes && id in r.scenes && d.scenes[id].renderHash == r.scenes[id].renderHash
  {
    var before := Run(env, oracle, start, ops);
    RunKeepsBacking(env, oracle, meaning, policy, start, ops);
    RunKeepsRows(env, oracle, start, ops + [Write(id, w)]);
    assert (ops + [Write(id, w)])[..|ops|] == ops;
    WriteIsFresh(env, oracle, meaning, policy, Run(env, oracle, start, ops), id, w);
    var d := Upsert(env, oracle, Run(env, oracle, start, ops), id, w).db;
    ReembedAllIsFresh(env, oracle, meaning, d);
    FreshAgree(env, meaning, d, ReembedAll(env, oracle, d).db, id);
  }

  // ----- Without a policy the agreement can fail; this is exactly when

  /** A write over a vector made from title `t` and summary `s` leaves a fresh vector
      unless the new text has the same digest input and only one summary is blank. */
  lemma WriteFreshExactly(env: Env, oracle: Oracle, meaning: string -> Vec, db: Db, id: string, w: SceneWrite,
                          t: string, s: Option<string>)
    requires Deterministic(oracle, meaning) && Injective(env.sha) && Injective(meaning)
    requires id in db.scenes && id in db.sceneVecs
    requires db.scenes[id].renderHash == Some(RenderHash(env, t, s))
    requires db.sceneVecs[id] == meaning(EmbedText(t, s))
    requires Upsert(env, oracle, db, id, w).ok
    ensures var row := SyncStructure(db, id, w).scenes[id];
            Fresh(env, meaning, Upsert(env, oracle, db, id, w).db, id)
            <==> !(RenderInput(row.title, row.summary) == RenderInput(t, s) && (Blank(row.summary) != Blank(s)))
  {
    var row := SyncStructure(db, id, w).scenes[id];
    if RenderInput(row.title, row.summary) == RenderInput(t, s) {
      SameInputSameText(row.title, row.summary, t, s);
    }
  }

  /** Writing title "a" with summary "b\n" and then title "a\nb" with no summary leaves
      the first text's vector in place: both digests are of "a\nb\n". */
  lemma NewlineTitleLeavesStaleVector(env: Env, oracle: Oracle, meaning: string -> Vec, db: Db, id: string)
    requires Deterministic(oracle, meaning)
    requires meaning("a\nb\n") != meaning("a\nb")
    requires Upsert(env, oracle, db, id, First()).ok
    requires id !in db.sceneVecs
    ensures var d := Upsert(env, oracle, db, id, First()).db;
            var e := Upsert(env, oracle, d, id, Second());
            && e.ok && id in e.db.sceneVecs && id in e.db.scenes
            && e.db.sceneVecs[id] != meaning(EmbedText(e.db.scenes[id].title, e.db.scenes[id].summary))
  {
    assert RenderInput("a", Some("b\n")) == "a" + "\n" + "b\n" == "a\nb\n";
    assert RenderInput("a\nb", None) == "a\nb" + "\n" + "" == "a\nb\n";
    assert EmbedText("a", Some("b\n")) == "a\nb\n";
  }

  function First(): SceneWrite {
    Structural(Topic, "a", [], Live).(summary := Given(Some("b\n")))
  }

  function Second(): SceneWrite {
    Structural(Topic, "a\nb", [], Live).(summary := Given(None))
  }
}
