/**
 What one scene write changes and what it leaves alone, and when it changes nothing.
 */
module SceneFrames {
  import opened Tables
  import opened TextOrder
  import opened Scenes

  /** The scene table lists each scene once, and the supply of random ids is unused. */
  ghost predicate WellFormed(env: Env, db: Db) {
    && Distinct(db.sceneRows)
    && (forall id :: id in db.scenes <==> id in db.sceneRows)
    && (forall n :: n >= db.minted ==> (env.uuid)(n) !in db.scenes)
  }

  /** Ids derived from sessions, and random ids, never collide. */
  ghost predicate CollisionFree(env: Env) {
    && (forall m: nat, n: nat :: (env.uuid)(m) == (env.uuid)(n) ==> m == n)
    && (forall s, t :: (env.episodeId)(s) == (env.episodeId)(t) ==> s == t)
    && (forall s, n: nat :: (env.episodeId)(s) != (env.uuid)(n))
  }

  /** `d` differs from `db` at most in scene `id` and in the count of embedder calls. */
  ghost predicate OnlyScene(db: Db, d: Db, id: string) {
    && d == db.(scenes := d.scenes, sceneRows := d.sceneRows, sceneVecs := d.sceneVecs, embedCalls := d.embedCalls)
    && id in d.scenes
    && (forall x :: x != id ==> (x in d.scenes <==> x in db.scenes))
    && (forall x :: x != id && x in db.scenes ==> d.scenes[x] == db.scenes[x])
    && (forall x :: x != id ==> (x in d.sceneVecs <==> x in db.sceneVecs))
    && (forall x :: x != id && x in db.sceneVecs ==> d.sceneVecs[x] == db.sceneVecs[x])
    && d.sceneRows == if id in db.scenes then db.sceneRows else db.sceneRows + [id]
  }

  /** The vector index is in step with the scene's title and summary. */
  predicate Rendered(env: Env, db: Db, id: string) {
    id in db.scenes && !NeedsEmbed(env, db, id)
  }

  /** The row a write asks for, before rendering. */
  function Target(db: Db, id: string, w: SceneWrite): Scene {
    if id in db.scenes then Overwritten(db.scenes[id], w) else Inserted(w)
  }

  lemma OnlySceneTwice(db: Db, mid: Db, d: Db, id: string)
    requires OnlyScene(db, mid, id) && OnlyScene(mid, d, id)
    ensures OnlyScene(db, d, id)
  {
  }

  lemma StructureFrame(db: Db, id: string, w: SceneWrite)
    ensures OnlyScene(db, SyncStructure(db, id, w), id)
  {
  }

  lemma RenderingFrame(env: Env, oracle: Oracle, db: Db, id: string)
    requires id in db.scenes
    ensures OnlyScene(db, SyncRendering(env, oracle, db, id).db, id)
  {
  }

  lemma UpsertFrame(env: Env, oracle: Oracle, db: Db, id: string, w: SceneWrite)
    ensures OnlyScene(db, Upsert(env, oracle, db, id, w).db, id)
  {
    var mid := SyncStructure(db, id, w);
    StructureFrame(db, id, w);
    RenderingFrame(env, oracle, mid, id);
    OnlySceneTwice(db, mid, SyncRendering(env, oracle, mid, id).db, id);
  }

  /** A write that returns has stored its row and brought the vector up to date. */
  lemma UpsertStores(env: Env, oracle: Oracle, db: Db, id: string, w: SceneWrite)
    requires Upsert(env, oracle, db, id, w).ok
    ensures var d := Upsert(env, oracle, db, id, w).db;
            && Rendered(env, d, id)
            && d.scenes[id] == Target(db, id, w).(renderHash := Some(RenderHash(env, d.scenes[id].title, d.scenes[id].summary)))
  {
  }

  /** Removing a scene that a write has just added leaves the store as it was, but for the
      embedder calls spent, also when the write failed. */
  lemma RemoveUndoesInsert(env: Env, oracle: Oracle, db: Db, id: string, w: SceneWrite)
    requires id !in db.scenes && id !in db.sceneVecs && id !in db.sceneRows
    ensures var d := Upsert(env, oracle, db, id, w).db; Remove(d, id) == db.(embedCalls := d.embedCalls)
  {
    var d := Upsert(env, oracle, db, id, w).db;
    UpsertFrame(env, oracle, db, id, w);
    assert Remove(d, id).scenes == db.scenes && Remove(d, id).sceneVecs == db.sceneVecs;
    WithoutAppended(db.sceneRows, id);
  }

  lemma {:induction false} WithoutAppended(ids: seq<string>, id: string)
    requires id !in ids
    ensures Without(ids + [id], id) == ids
  {
    if ids == [] {
      assert ids + [id] == [id];
      assert Without([], id) == [];
    } else {
      assert (ids + [id])[1..] == ids[1..] + [id];
      WithoutAppended(ids[1..], id);
      assert ids == [ids[0]] + ids[1..];
    }
  }

  /** Writing what is stored already, over an up-to-date vector, changes nothing at all. */
  lemma UpsertNoop(env: Env, oracle: Oracle, db: Db, id: string, w: SceneWrite)
    requires Rendered(env, db, id) && Target(db, id, w) == db.scenes[id]
    ensures Upsert(env, oracle, db, id, w) == Out(db, true)
  {
    assert db.scenes[id := db.scenes[id]] == db.scenes;
    assert SyncStructure(db, id, w) == db;
  }

  lemma OnlySceneKeepsWellFormed(env: Env, db: Db, d: Db, id: string)
    requires WellFormed(env, db) && OnlyScene(db, d, id)
    requires forall n :: n >= db.minted ==> (env.uuid)(n) != id
    ensures WellFormed(env, d)
  {
  }

  lemma OnlySceneKeepsRendered(env: Env, db: Db, d: Db, id: string, x: string)
    requires OnlyScene(db, d, id) && x != id && Rendered(env, db, x)
    ensures Rendered(env, d, x)
  {
  }
}
