/**
 The store object: one handle on the tables, updated statement by statement. Each method
 has the effect its value function in Scenes, Atoms, Reconcile or Windows gives, or states
 its effect row by row. Methods that embed text may stop half-way, and leave behind what was
 written so far; methods that write one row either do it or report the fault that refused it
 and change nothing.
 */
module Store {
  import opened Tables
  import Atoms
  import Reconcile
  import Scenes
  import Text
  import TextOrder
  import Windows

  // ----- What a structural scene write does, column by column

  /** Only the row of scene `id` is new or changed; a new row comes last. */
  ghost predicate OneRowWritten(before: Db, after: Db, id: string) {
    && after == before.(scenes := after.scenes, sceneRows := after.sceneRows)
    && after.scenes.Keys == before.scenes.Keys + {id}
    && (forall x :: x in before.scenes && x != id ==> after.scenes[x] == before.scenes[x])
    && after.sceneRows == if id in before.scenes then before.sceneRows else before.sceneRows + [id]
  }

  ghost predicate ColumnsGiven(w: Scenes.SceneWrite, sc: Scene) {
    && sc.kind == w.kind && sc.title == w.title && sc.atomIds == w.atomIds
    && (w.summary.Given? ==> sc.summary == w.summary.value)
    && (w.contentHash.Given? ==> sc.contentHash == w.contentHash.value)
    && (w.status.Given? ==> sc.status == w.status.value)
    && (w.derivedFrom.Given? ==> sc.derivedFrom == w.derivedFrom.value)
    && (w.supersededBy.Given? ==> sc.supersededBy == w.supersededBy.value)
  }

  ghost predicate ColumnsKept(w: Scenes.SceneWrite, was: Scene, sc: Scene) {
    && sc.renderHash == was.renderHash
    && (w.summary.Omitted? ==> sc.summary == was.summary)
    && (w.contentHash.Omitted? ==> sc.contentHash == was.contentHash)
    && (w.status.Omitted? ==> sc.status == was.status)
    && (w.derivedFrom.Omitted? ==> sc.derivedFrom == was.derivedFrom)
    && (w.supersededBy.Omitted? ==> sc.supersededBy == was.supersededBy)
  }

  ghost predicate ColumnsEmpty(w: Scenes.SceneWrite, sc: Scene) {
    && sc.renderHash == None
    && (w.summary.Omitted? ==> sc.summary == None)
    && (w.contentHash.Omitted? ==> sc.contentHash == None)
    && (w.status.Omitted? ==> sc.status == Live)
    && (w.derivedFrom.Omitted? ==> sc.derivedFrom == None)
    && (w.supersededBy.Omitted? ==> sc.supersededBy == None)
  }

  /** Those conditions determine the new state. */
  lemma WrittenIsStructure(before: Db, after: Db, id: string, w: Scenes.SceneWrite)
    requires id in after.scenes && OneRowWritten(before, after, id) && ColumnsGiven(w, after.scenes[id])
    requires if id in before.scenes then ColumnsKept(w, before.scenes[id], after.scenes[id]) else ColumnsEmpty(w, after.scenes[id])
    ensures after == Scenes.SyncStructure(before, id, w)
  {
    var d := Scenes.SyncStructure(before, id, w);
    assert after.scenes[id] == d.scenes[id];
    assert after.scenes == d.scenes;
  }

  class Falda {
    var db: Db
    const env: Env
    const oracle: Oracle

    constructor (db: Db, env: Env, oracle: Oracle)
      ensures this.db == db && this.env == env && this.oracle == oracle
    {
      this.db, this.env, this.oracle := db, env, oracle;
    }

    // ----- T0 stream

    method StreamHeadSeq() returns (n: nat)
      ensures n == Windows.HeadSeq(db.mem.stream)
    {
      n := 0;
      for i := 0 to |db.mem.stream|
        invariant n == Windows.HeadSeq(db.mem.stream[..i])
      {
        assert db.mem.stream[..i + 1][..i] == db.mem.stream[..i];
        if db.mem.stream[i].seqNo >= n { n := db.mem.stream[i].seqNo; }
      }
      assert db.mem.stream[..|db.mem.stream|] == db.mem.stream;
    }

    method AddTurn(id: string, session: string, content: string)
      modifies this
      ensures db == old(db).(mem := old(db).mem.(stream := Windows.Append(old(db).mem.stream, id, session, content)))
    {
      var head := StreamHeadSeq();
      db := db.(mem := db.mem.(stream := db.mem.stream + [Turn(id, session, content, head + 1)]));
    }

    // ----- T1 atoms

    method WriteAtomWithEmbeddingSync(w: Atoms.AtomWrite,
                                      policy: Atoms.ExistingPolicy) returns (fault: Option<Atoms.Fault>)
      modifies this
      ensures match Atoms.WriteAtom(old(db).mem, w, policy)
              case Ok(mem) => fault == None && db == old(db).(mem := mem)
              case Err(f) => fault == Some(f) && db == old(db)
    {
      var mem := db.mem;
      if w.id in mem.atoms {
        var existing := mem.atoms[w.id];
        if existing.content != w.content { return Some(Atoms.ContentImmutable(w.id)); }
        if existing.kind != w.kind { return Some(Atoms.KindImmutable(w.id)); }
        if policy == Atoms.Overwrite {
          mem := mem.(atoms := mem.atoms[w.id := existing.(meta := w.meta)]);
        } else {
          assert mem.atoms[w.id := existing] == mem.atoms;
        }
        mem := mem.(atomFts := Atoms.WithoutFts(mem.atomFts, w.id), atomVecs := mem.atomVecs - {w.id});
        mem := mem.(atomFts := mem.atomFts + [FtsRow(w.id, w.content)]);
        assert mem.atomVecs[w.id := w.vec] == old(db).mem.atomVecs[w.id := w.vec];
        mem := mem.(atomVecs := mem.atomVecs[w.id := w.vec]);
      } else {
        if w.id in mem.atomVecs { return Some(Atoms.DuplicateVector(w.id)); }
        mem := mem.(atoms := mem.atoms[w.id := Atom(w.kind, w.content, w.meta, Active)], atomRows := mem.atomRows + [w.id]);
        mem := mem.(atomFts := mem.atomFts + [FtsRow(w.id, w.content)]);
        mem := mem.(atomVecs := mem.atomVecs[w.id := w.vec]);
      }
      db := db.(mem := mem);
      return None;
    }

    /** Stops at the first edge that is refused; the edges before it stay. */
    method AddEvidence(atomId: string, streamIds: seq<string>) returns (fault: Option<Atoms.Fault>)
      modifies this
      ensures db == old(db).(mem := db.mem)
      ensures match Atoms.AddEvidence(old(db).mem, atomId, streamIds)
              case Ok(mem) => fault == None && db.mem == mem
              case Err(f) => fault == Some(f)
      ensures fault.Some? ==> exists s <- streamIds :: fault.value == Atoms.ForeignKey(s)
                                && (atomId !in old(db).mem.atoms || forall t <- old(db).mem.stream :: t.id != s)
    {
      for i := 0 to |streamIds|
        invariant db == old(db).(mem := db.mem)
        invariant db.mem == old(db).mem.(evidence := db.mem.evidence)
        invariant Atoms.AddEvidence(old(db).mem, atomId, streamIds) == Atoms.AddEvidence(db.mem, atomId, streamIds[i..])
      {
        assert streamIds[i..][1..] == streamIds[i + 1..];
        var edge := Edge(atomId, streamIds[i]);
        if edge !in db.mem.evidence {
          if streamIds[i] !in Atoms.StreamIds(db.mem.stream) || atomId !in db.mem.atoms {
            assert forall k :: 0 <= k < |db.mem.stream| ==> Atoms.StreamIds(db.mem.stream)[k] == db.mem.stream[k].id;
            return Some(Atoms.ForeignKey(streamIds[i]));
          }
          db := db.(mem := db.mem.(evidence := db.mem.evidence + [edge]));
        }
      }
      return None;
    }

    /** The atom's status, if it is stored, becomes superseded whatever it was; nothing else
        about it or any other row changes, and a pass is now due. */
    method SupersedeAtom(oldId: string)
      modifies this
      ensures db == old(db).(mem := old(db).mem.(atoms := db.mem.atoms), dirty := true)
      ensures db.mem.atoms.Keys == old(db).mem.atoms.Keys
      ensures forall id :: id in db.mem.atoms && id != oldId ==> db.mem.atoms[id] == old(db).mem.atoms[id]
      ensures oldId in db.mem.atoms ==>
                var was, now' := old(db).mem.atoms[oldId], db.mem.atoms[oldId];
                now'.status == Superseded && now'.kind == was.kind && now'.content == was.content && now'.meta == was.meta
    {
      if oldId in db.mem.atoms {
        var atom := db.mem.atoms[oldId].(status := Superseded);
        db := db.(mem := db.mem.(atoms := db.mem.atoms[oldId := atom]));
      }
      db := db.(dirty := true);
    }

    method MergeAtoms(loserIds: seq<string>)
      modifies this
      ensures db == old(db).(mem := Atoms.MergeAll(old(db).mem, loserIds), dirty := old(db).dirty || loserIds != [])
    {
      for i := 0 to |loserIds|
        invariant db == old(db).(mem := db.mem)
        invariant Atoms.MergeAll(old(db).mem, loserIds) == Atoms.MergeAll(db.mem, loserIds[i..])
      {
        assert loserIds[i..][1..] == loserIds[i + 1..];
        db := db.(mem := Atoms.SetStatus(db.mem, loserIds[i], Merged));
      }
      if |loserIds| > 0 { db := db.(dirty := true); }
    }

    method ArchiveAtom(id: string) returns (changes: nat)
      modifies this
      ensures db == old(db).(mem := Atoms.ArchiveAtom(old(db).mem, id), dirty := old(db).dirty || changes > 0)
      ensures changes == if IsActive(old(db).mem, id) then 1 else 0
    {
      changes := 0;
      if IsActive(db.mem, id) {
        db := db.(mem := Atoms.SetStatus(db.mem, id, Archived));
        changes := 1;
      }
      if changes > 0 { db := db.(dirty := true); }
    }

    // ----- T2 scenes

    /** Given columns are stored. An omitted one keeps its value, or starts empty and live; the
        render digest is never written here. Only this scene's row changes. */
    method SyncSceneStructure(id: string, w: Scenes.SceneWrite)
      modifies this
      ensures id in db.scenes && OneRowWritten(old(db), db, id)
      ensures ColumnsGiven(w, db.scenes[id])
      ensures if id in old(db).scenes then ColumnsKept(w, old(db).scenes[id], db.scenes[id]) else ColumnsEmpty(w, db.scenes[id])
    {
      if id in db.scenes {
        db := db.(scenes := db.scenes[id := Scenes.Overwritten(db.scenes[id], w)]);
      } else {
        db := db.(scenes := db.scenes[id := Scenes.Inserted(w)], sceneRows := db.sceneRows + [id]);
      }
    }

    method Embed(text: string) returns (v: Option<Vec>)
      modifies this
      ensures db == old(db).(embedCalls := old(db).embedCalls + 1) && v == (oracle.embed)(old(db).embedCalls, text)
    {
      v := (oracle.embed)(db.embedCalls, text);
      db := db.(embedCalls := db.embedCalls + 1);
    }

    method SyncSceneRendering(id: string) returns (ok: bool)
      requires id in db.scenes
      modifies this
      ensures Out(db, ok) == Scenes.SyncRendering(env, oracle, old(db), id)
    {
      var scene := db.scenes[id];
      var newRenderHash := Scenes.RenderHash(env, scene.title, scene.summary);
      var needsEmbed := id !in db.sceneVecs || scene.renderHash != Some(newRenderHash);
      if needsEmbed {
        db := db.(sceneVecs := db.sceneVecs - {id});
        var v := Embed(Scenes.EmbedText(scene.title, scene.summary));
        if v == None { return false; }
        db := db.(sceneVecs := db.sceneVecs[id := v.value]);
        db := db.(scenes := db.scenes[id := scene.(renderHash := Some(newRenderHash))]);
      }
      return true;
    }

    /** Without an id the scene gets a fresh one. */
    method UpsertScene(given: Option<string>, w: Scenes.SceneWrite) returns (id: string, ok: bool)
      modifies this
      ensures id == if given.Some? then given.value else (env.uuid)(old(db).minted)
      ensures var start := if given.Some? then old(db) else old(db).(minted := old(db).minted + 1);
              Out(db, ok) == Scenes.Upsert(env, oracle, start, id, w)
    {
      if given.Some? {
        id := given.value;
      } else {
        id := (env.uuid)(db.minted);
        db := db.(minted := db.minted + 1);
      }
      ghost var start := db;
      SyncSceneStructure(id, w);
      WrittenIsStructure(start, db, id, w);
      ok := SyncSceneRendering(id);
    }

    /** The scene and its vector are gone; every other scene keeps its row, its vector and its
        place. */
    method RemoveScene(id: string)
      modifies this
      ensures db == old(db).(scenes := db.scenes, sceneVecs := db.sceneVecs, sceneRows := db.sceneRows)
      ensures db.scenes.Keys == old(db).scenes.Keys - {id} && db.sceneVecs.Keys == old(db).sceneVecs.Keys - {id}
      ensures forall x :: x in db.scenes ==> db.scenes[x] == old(db).scenes[x]
      ensures forall x :: x in db.sceneVecs ==> db.sceneVecs[x] == old(db).sceneVecs[x]
      ensures forall k :: 0 <= k < |old(db).sceneRows| && TextOrder.Distinct(old(db).sceneRows) && old(db).sceneRows[k] == id ==>
                db.sceneRows == old(db).sceneRows[..k] + old(db).sceneRows[k + 1..]
      ensures id !in old(db).sceneRows ==> db.sceneRows == old(db).sceneRows
    {
      Scenes.WithoutIsRemoval(db.sceneRows, id);
      db := db.(sceneVecs := db.sceneVecs - {id});
      db := db.(scenes := db.scenes - {id}, sceneRows := TextOrder.Without(db.sceneRows, id));
    }

    method ReembedAll() returns (ok: bool)
      modifies this
      ensures Out(db, ok) == Scenes.ReembedAll(env, oracle, old(db))
    {
      db := db.(mem := db.mem.(atomVecs := map[]), sceneVecs := map[]);
      var i := 0;
      while i < |db.mem.atomRows|
        invariant i <= |db.mem.atomRows|
        invariant Scenes.ReembedAtoms(oracle, Scenes.Dropped(old(db)), 0) == Scenes.ReembedAtoms(oracle, db, i)
        decreases |db.mem.atomRows| - i
      {
        var id := db.mem.atomRows[i];
        ghost var before := db;
        if id in db.mem.atoms {
          var v := Embed(db.mem.atoms[id].content);
          if v == None { return false; }
          db := db.(mem := db.mem.(atomVecs := db.mem.atomVecs[id := v.value]));
        }
        assert Out(db, true) == Scenes.ReembedAtom(oracle, before, id);
        i := i + 1;
      }
      ghost var atomsDone := db;
      i := 0;
      while i < |db.sceneRows|
        invariant i <= |db.sceneRows|
        invariant Scenes.ReembedScenes(env, oracle, atomsDone, 0) == Scenes.ReembedScenes(env, oracle, db, i)
        decreases |db.sceneRows| - i
      {
        var id := db.sceneRows[i];
        ghost var before := db;
        if id in db.scenes {
          var sc := db.scenes[id];
          var v := Embed(Scenes.EmbedText(sc.title, sc.summary));
          if v == None { return false; }
          db := db.(sceneVecs := db.sceneVecs[id := v.value]);
          db := db.(scenes := db.scenes[id := sc.(renderHash := Some(Scenes.RenderHash(env, sc.title, sc.summary)))]);
        }
        assert Out(db, true) == Scenes.ReembedScene(env, oracle, before, id);
        i := i + 1;
      }
      return true;
    }

    // ----- Digests

    /** "id:content" of the active members, smallest id first. */
    method ActiveMemberTexts(atomIds: seq<string>) returns (parts: seq<string>)
      ensures parts == Reconcile.MemberTexts(db.mem, TextOrder.SortIds(atomIds))
    {
      var mem, sorted := db.mem, TextOrder.SortIds(atomIds);
      parts := [];
      for i := 0 to |sorted|
        invariant parts + Reconcile.MemberTexts(mem, sorted[i..]) == Reconcile.MemberTexts(mem, sorted)
      {
        MemberTextsTurn(mem, sorted, i, parts);
        if IsActive(mem, sorted[i]) { parts := parts + [sorted[i] + ":" + mem.atoms[sorted[i]].content]; }
      }
      assert parts + [] == parts;
    }

    method ComputeSceneHash(kind: SceneKind, atomIds: seq<string>) returns (hash: string)
      ensures hash == Reconcile.SceneHash(env, db.mem, kind, atomIds)
    {
      var atoms := ActiveMemberTexts(atomIds);
      hash := (env.sha)(Reconcile.KindName(kind) + "|" + Text.Join(atoms, "|"));
    }

    method ComputeCoreHash() returns (hash: string)
      ensures hash == Reconcile.CoreHash(env, db)
    {
      var live := Reconcile.LiveIds(db, db.sceneRows);
      Reconcile.SortKeepsMembers(live);
      var ids := TextOrder.SortIds(live);
      var parts := CorePartsOf(ids);
      hash := (env.sha)(Text.Join(parts, "||"));
    }

    method CorePartsOf(ids: seq<string>) returns (parts: seq<string>)
      requires forall id :: id in ids ==> id in db.scenes
      ensures parts == Reconcile.CoreParts(db, ids)
    {
      var d := db;
      parts := [];
      for i := 0 to |ids|
        invariant parts + Reconcile.CoreParts(d, ids[i..]) == Reconcile.CoreParts(d, ids)
      {
        var part := ScenePart(ids[i]);
        CorePartsTurn(d, ids, i, parts, part);
        parts := parts + [part];
      }
      assert parts + [] == parts;
    }

    method ScenePart(id: string) returns (part: string)
      requires id in db.scenes
      ensures part == Reconcile.CoreParts(db, [id])[0]
    {
      var sc := db.scenes[id];
      var atoms := ActiveMemberTexts(sc.atomIds);
      part := Reconcile.KindName(sc.kind) + "|" + sc.title + "|" + Text.Join(atoms, "|");
    }
  }

  lemma MemberTextsTurn(mem: Memory, ids: seq<string>, i: nat, parts: seq<string>)
    requires i < |ids|
    ensures parts + Reconcile.MemberTexts(mem, ids[i..])
            == if IsActive(mem, ids[i]) then parts + [ids[i] + ":" + mem.atoms[ids[i]].content] + Reconcile.MemberTexts(mem, ids[i + 1..])
               else parts + Reconcile.MemberTexts(mem, ids[i + 1..])
  {
    assert ids[i..][1..] == ids[i + 1..];
    assert [] + Reconcile.MemberTexts(mem, ids[i + 1..]) == Reconcile.MemberTexts(mem, ids[i + 1..]);
  }

  lemma CorePartsTurn(db: Db, ids: seq<string>, i: nat, parts: seq<string>, part: string)
    requires i < |ids| && (forall id :: id in ids ==> id in db.scenes)
    requires part == Reconcile.CoreParts(db, [ids[i]])[0]
    ensures parts + Reconcile.CoreParts(db, ids[i..]) == parts + [part] + Reconcile.CoreParts(db, ids[i + 1..])
  {
    assert ids[i..][1..] == ids[i + 1..];
  }
}
