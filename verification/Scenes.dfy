/**
 Writing one scene: the structural row, then its vector, which is recomputed only
 when the digest of the rendered text (title and summary) has changed.
 */
module Scenes {
  import opened Tables
  import opened TextOrder

  /** A column the caller may leave out of a write, keeping the stored value. */
  datatype Field<+T> = Omitted | Given(value: T)

  datatype SceneWrite = SceneWrite(
    kind: SceneKind,
    title: string,
    atomIds: seq<string>,
    summary: Field<Option<string>>,
    contentHash: Field<Option<string>>,
    status: Field<SceneStatus>,
    derivedFrom: Field<Option<seq<string>>>,
    supersededBy: Field<Option<seq<string>>>)

  /** A write of membership and status alone. */
  function Structural(kind: SceneKind, title: string, atomIds: seq<string>, status: SceneStatus): SceneWrite {
    SceneWrite(kind, title, atomIds, Omitted, Omitted, Given(status), Omitted, Omitted)
  }

  function Keep<T>(field: Field<T>, stored: T): T {
    match field case Omitted => stored case Given(v) => v
  }

  /** The stored row after a structural write; `renderHash` is not a column of that statement. */
  function Overwritten(prior: Scene, w: SceneWrite): Scene {
    Scene(w.kind, w.title, w.atomIds, Keep(w.summary, prior.summary), Keep(w.contentHash, prior.contentHash),
          prior.renderHash, Keep(w.status, prior.status), Keep(w.derivedFrom, prior.derivedFrom),
          Keep(w.supersededBy, prior.supersededBy))
  }

  function Inserted(w: SceneWrite): Scene {
    Scene(w.kind, w.title, w.atomIds, Keep(w.summary, None), Keep(w.contentHash, None),
          None, Keep(w.status, Live), Keep(w.derivedFrom, None), Keep(w.supersededBy, None))
  }

  function SyncStructure(db: Db, id: string, w: SceneWrite): Db {
    if id in db.scenes then db.(scenes := db.scenes[id := Overwritten(db.scenes[id], w)])
    else db.(scenes := db.scenes[id := Inserted(w)], sceneRows := db.sceneRows + [id])
  }

  /** A summary counts as absent when it is null or empty. */
  predicate Blank(summary: Option<string>) {
    summary == None || summary == Some("")
  }

  function RenderInput(title: string, summary: Option<string>): string {
    title + "\n" + (if summary.Some? then summary.value else "")
  }

  function RenderHash(env: Env, title: string, summary: Option<string>): string {
    (env.sha)(RenderInput(title, summary))
  }

  /** The text handed to the embedder. */
  function EmbedText(title: string, summary: Option<string>): string {
    if Blank(summary) then title else title + "\n" + summary.value
  }

  predicate NeedsEmbed(env: Env, db: Db, id: string)
    requires id in db.scenes
  {
    var sc := db.scenes[id];
    id !in db.sceneVecs || sc.renderHash != Some(RenderHash(env, sc.title, sc.summary))
  }

  function SyncRendering(env: Env, oracle: Oracle, db: Db, id: string): Out
    requires id in db.scenes
  {
    var sc := db.scenes[id];
    if !NeedsEmbed(env, db, id) then Out(db, true)
    else
      var dropped := db.(sceneVecs := db.sceneVecs - {id}, embedCalls := db.embedCalls + 1);
      match (oracle.embed)(db.embedCalls, EmbedText(sc.title, sc.summary))
      case None => Out(dropped, false)
      case Some(v) =>
        var hash := RenderHash(env, sc.title, sc.summary);
        Out(dropped.(sceneVecs := dropped.sceneVecs[id := v],
                     scenes := db.scenes[id := sc.(renderHash := Some(hash))]), true)
  }

  function Upsert(env: Env, oracle: Oracle, db: Db, id: string, w: SceneWrite): Out {
    SyncRendering(env, oracle, SyncStructure(db, id, w), id)
  }

  function Remove(db: Db, id: string): Db {
    db.(scenes := db.scenes - {id}, sceneVecs := db.sceneVecs - {id},
        sceneRows := Without(db.sceneRows, id))
  }

  lemma {:induction false} WithoutAbsent(ids: seq<string>, id: string)
    requires id !in ids
    ensures Without(ids, id) == ids
  {
    if ids != [] {
      WithoutAbsent(ids[1..], id);
      assert ids == [ids[0]] + ids[1..];
    }
  }

  lemma {:induction false} WithoutOne(ids: seq<string>, id: string, k: nat)
    requires Distinct(ids) && k < |ids| && ids[k] == id
    ensures Without(ids, id) == ids[..k] + ids[k + 1..]
  {
    if k == 0 {
      assert id !in ids[1..];
      WithoutAbsent(ids[1..], id);
    } else {
      WithoutOne(ids[1..], id, k - 1);
      assert ids[..k] == [ids[0]] + ids[1..][..k - 1] && ids[k + 1..] == ids[1..][k..];
    }
  }

  /** Filtering an id out of a listing without repetition removes its one place. */
  lemma WithoutIsRemoval(ids: seq<string>, id: string)
    ensures forall k :: 0 <= k < |ids| && Distinct(ids) && ids[k] == id ==> Without(ids, id) == ids[..k] + ids[k + 1..]
    ensures id !in ids ==> Without(ids, id) == ids
  {
    if id !in ids { WithoutAbsent(ids, id); }
    forall k | 0 <= k < |ids| && Distinct(ids) && ids[k] == id ensures Without(ids, id) == ids[..k] + ids[k + 1..] {
      WithoutOne(ids, id, k);
    }
  }

  // ----- Rebuilding every vector from scratch

  /** Rows `k..` of the scene table are still to be embedded. */
  function ReembedScenes(env: Env, oracle: Oracle, db: Db, k: nat): Out
    decreases |db.sceneRows| - k
  {
    if k >= |db.sceneRows| then Out(db, true)
    else
      var o := ReembedScene(env, oracle, db, db.sceneRows[k]);
      if !o.ok then o else ReembedScenes(env, oracle, o.db, k + 1)
  }

  function ReembedScene(env: Env, oracle: Oracle, db: Db, id: string): (o: Out)
    ensures o.db.sceneRows == db.sceneRows
  {
    if id !in db.scenes then Out(db, true)
    else
      var sc := db.scenes[id];
      var called := db.(embedCalls := db.embedCalls + 1);
      match (oracle.embed)(db.embedCalls, EmbedText(sc.title, sc.summary))
      case None => Out(called, false)
      case Some(v) =>
        Out(called.(sceneVecs := db.sceneVecs[id := v],
                    scenes := db.scenes[id := sc.(renderHash := Some(RenderHash(env, sc.title, sc.summary)))]), true)
  }

  function ReembedAtoms(oracle: Oracle, db: Db, k: nat): Out
    decreases |db.mem.atomRows| - k
  {
    if k >= |db.mem.atomRows| then Out(db, true)
    else
      var o := ReembedAtom(oracle, db, db.mem.atomRows[k]);
      if !o.ok then o else ReembedAtoms(oracle, o.db, k + 1)
  }

  function ReembedAtom(oracle: Oracle, db: Db, id: string): (o: Out)
    ensures o.db.mem.atomRows == db.mem.atomRows
  {
    if id !in db.mem.atoms then Out(db, true)
    else
      var called := db.(embedCalls := db.embedCalls + 1);
      match (oracle.embed)(db.embedCalls, db.mem.atoms[id].content)
      case None => Out(called, false)
      case Some(v) => Out(called.(mem := db.mem.(atomVecs := db.mem.atomVecs[id := v])), true)
  }

  function Dropped(db: Db): Db {
    db.(mem := db.mem.(atomVecs := map[]), sceneVecs := map[])
  }

  /** Both indexes are dropped first, so an interrupted rebuild leaves rows without a vector. */
  function ReembedAll(env: Env, oracle: Oracle, db: Db): Out {
    var o := ReembedAtoms(oracle, Dropped(db), 0);
    if !o.ok then o else ReembedScenes(env, oracle, o.db, 0)
  }
}
